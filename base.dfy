/**
 * Shared wrappers: an optional value, and the outcome of a service call that
 * either returns a value or raises one of the exceptions the services throw.
 */
module Base {

  datatype Option<T> = None | Some(value: T)

  /** Which exception class a "not found" failure is raised as. */
  datatype NotFoundKind =
    | NoSuchElement      // java.util.NoSuchElementException
    | ResourceNotFound   // the project's ResourceNotFoundException, a plain RuntimeException

  /** The exceptions the service layer raises, by kind. */
  datatype Error =
    | NotFound(kind: NotFoundKind, message: string)
    | Validation(errors: map<string, string>)   // ValidationException and its field -> message map
    | Unauthorized(message: string)             // UnauthorizedAccessException
    | IllegalArgument(message: string)          // IllegalArgumentException
    | Authentication(message: string)           // UsernameNotFoundException, an AuthenticationException
    | Runtime(message: string)                  // RuntimeException (also the wrappers in the chat service)

  datatype Result<T> = Ok(value: T) | Err(error: Error)

  /** `new ValidationException(Map.of(key, message))`. */
  function ValidationOf(key: string, message: string): (e: Error)
    ensures e.Validation? && e.errors.Keys == {key} && e.errors[key] == message
  {
    Validation(map[key := message])
  }

  /** A subset is never larger than its superset. */
  lemma {:induction false} SubsetSize<T>(a: set<T>, b: set<T>)
    requires a <= b
    ensures |a| <= |b|
  {
    assert b == a + (b - a);
  }

  /** No element occurs twice. */
  predicate Distinct<T(==)>(xs: seq<T>) {
    forall i, j :: 0 <= i < j < |xs| ==> xs[i] != xs[j]
  }

  /** A list without repetitions holding exactly the elements of `xs` (`addIfAbsent`, `distinct`). */
  function Dedup<T(==)>(xs: seq<T>): (r: seq<T>)
    ensures Distinct(r)
    ensures forall i :: 0 <= i < |xs| ==> xs[i] in r
    ensures forall i :: 0 <= i < |r| ==> r[i] in xs
  {
    if xs == [] then []
    else
      var rest := Dedup(xs[..|xs| - 1]);
      if xs[|xs| - 1] in rest then rest else rest + [xs[|xs| - 1]]
  }
}
