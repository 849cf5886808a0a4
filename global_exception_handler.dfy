/**
 * The global exception handler: how each failure becomes an HTTP status
 * and a response body.
 */
module ExceptionHandler {

  import opened Base

  /** One bean-validation field error: the field and its default message. */
  datatype FieldError = FieldError(field: string, defaultMessage: string)

  /** What reaches the handler: a service exception, a failed request-body validation, or an unmapped URL. */
  datatype Failure =
    | Raised(error: Error)
    | ArgumentNotValid(fieldErrors: seq<FieldError>)   // MethodArgumentNotValidException
    | NoHandlerFound                                   // NoHandlerFoundException

  datatype Body =
    | Message(message: string)                                        // ExceptionResponseDTO
    | ValidationBody(message: string, errors: map<string, string>)    // ValidationErrorResponseDTO

  datatype Response = Response(status: int, body: Body)

  const BadRequest := 400
  const Unauthorized401 := 401
  const Forbidden := 403
  const NotFound404 := 404
  const InternalServerError := 500

  const ValidationFailed := "Validation failed"

  /** The field -> message map the loop builds: a later error for the same field replaces an earlier one. */
  function LastWins(errors: seq<FieldError>): (r: map<string, string>)
    ensures r.Keys == set i | 0 <= i < |errors| :: errors[i].field
    decreases |errors|
  {
    if errors == [] then map[]
    else
      var last := errors[|errors| - 1];
      var init := errors[..|errors| - 1];
      var r := LastWins(init)[last.field := last.defaultMessage];
      assert forall i :: 0 <= i < |init| ==> init[i] == errors[i];
      r
  }

  /** Each field's entry is the message of its last error. */
  lemma {:induction false} LastWinsIsLast(errors: seq<FieldError>, i: nat)
    requires i < |errors|
    requires forall j :: i < j < |errors| ==> errors[j].field != errors[i].field
    ensures errors[i].field in LastWins(errors) && LastWins(errors)[errors[i].field] == errors[i].defaultMessage
    decreases |errors|
  {
    var init := errors[..|errors| - 1];
    if i < |errors| - 1 {
      assert forall j :: 0 <= j < |init| ==> init[j] == errors[j];
      LastWinsIsLast(init, i);
    }
  }

  /** `handleValidationExceptions(MethodArgumentNotValidException)`: the loop over the field errors. */
  method HandleFieldErrors(fieldErrors: seq<FieldError>) returns (r: Response)
    ensures r == Response(BadRequest, ValidationBody(ValidationFailed, LastWins(fieldErrors)))
  {
    var errorMessages: map<string, string> := map[];
    var i := 0;
    while i < |fieldErrors|
      invariant 0 <= i <= |fieldErrors|
      invariant errorMessages == LastWins(fieldErrors[..i])
    {
      assert fieldErrors[..i + 1][..i] == fieldErrors[..i];
      errorMessages := errorMessages[fieldErrors[i].field := fieldErrors[i].defaultMessage];
      i := i + 1;
    }
    assert fieldErrors[..|fieldErrors|] == fieldErrors;
    return Response(BadRequest, ValidationBody(ValidationFailed, errorMessages));
  }

  /**
   * The remaining handlers, chosen by the most specific exception class:
   * ValidationException, AuthenticationException, NoSuchElementException,
   * UnauthorizedAccessException, NoHandlerFoundException, and Exception
   * for everything else (ResourceNotFoundException included).
   */
  function HandleRaised(e: Error): (r: Response)
    ensures e.Validation? ==> r == Response(BadRequest, ValidationBody(ValidationFailed, e.errors))
    ensures e.Authentication? ==> r == Response(Unauthorized401, Message("Incorrect username/password"))
    ensures e.NotFound? && e.kind == NoSuchElement ==> r == Response(NotFound404, Message("Resource not found"))
    ensures e.Unauthorized? ==> r == Response(Forbidden, Message(e.message))
    ensures (e.NotFound? && e.kind == ResourceNotFound) || e.IllegalArgument? || e.Runtime? ==>
      r == Response(InternalServerError, Message(e.message))
  {
    match e
    case Validation(errors) => Response(BadRequest, ValidationBody(ValidationFailed, errors))
    case Authentication(_) => Response(Unauthorized401, Message("Incorrect username/password"))
    case NotFound(kind, message) =>
      if kind == NoSuchElement then Response(NotFound404, Message("Resource not found"))
      else Response(InternalServerError, Message(message))
    case Unauthorized(message) => Response(Forbidden, Message(message))
    case IllegalArgument(message) => Response(InternalServerError, Message(message))
    case Runtime(message) => Response(InternalServerError, Message(message))
  }

  /** `handleNoHandlerFoundException`. */
  function HandleNoHandlerFound(): (r: Response)
    ensures r.status == NotFound404 && r.body == Message("Endpoint not found")
  {
    Response(NotFound404, Message("Endpoint not found"))
  }

  /** The whole mapping from failure to response; `HandleFieldErrors` computes the field-error case. */
  function Handle(f: Failure): (r: Response)
    ensures f.Raised? ==> r == HandleRaised(f.error)
    ensures f.ArgumentNotValid? ==> r == Response(BadRequest, ValidationBody(ValidationFailed, LastWins(f.fieldErrors)))
    ensures f.NoHandlerFound? ==> r == HandleNoHandlerFound()
  {
    match f
    case Raised(e) => HandleRaised(e)
    case ArgumentNotValid(fieldErrors) => Response(BadRequest, ValidationBody(ValidationFailed, LastWins(fieldErrors)))
    case NoHandlerFound => HandleNoHandlerFound()
  }

  /** A 400 is exactly a validation outcome, and its body always says "Validation failed". */
  lemma {:induction false} BadRequestIsValidation(f: Failure)
    ensures Handle(f).status == BadRequest <==> f.ArgumentNotValid? || (f.Raised? && f.error.Validation?)
    ensures Handle(f).body.ValidationBody? <==> Handle(f).status == BadRequest
    ensures Handle(f).body.ValidationBody? ==> Handle(f).body.message == ValidationFailed
  {
  }

  /** 404 exactly for a missing element or endpoint; a missing resource is a 500. */
  lemma {:induction false} NotFoundStatuses(f: Failure)
    ensures Handle(f).status == NotFound404 <==> f.NoHandlerFound? || (f.Raised? && f.error.NotFound? && f.error.kind == NoSuchElement)
    ensures f.Raised? && f.error.NotFound? && f.error.kind == ResourceNotFound ==> Handle(f).status == InternalServerError
  {
  }

  /** Every status the handler produces is one of the five it declares. */
  lemma {:induction false} KnownStatuses(f: Failure)
    ensures Handle(f).status in {BadRequest, Unauthorized401, Forbidden, NotFound404, InternalServerError}
  {
  }
}
