/**
 * The handful of java.lang.String operations the services rely on, written
 * out with their Java semantics: `trim`, ASCII upper/lower casing, `split`
 * on a single separator character (with Java's removal of trailing empty
 * strings), `Collectors.joining`, `Integer.toString`, `Integer.parseInt`,
 * and the SQL `LIKE` matching used by the JPQL search query.
 */
module Text {

  import opened Base

  /** The range of a Java `int`. */
  const IntMin: int := -0x8000_0000
  const IntMax: int := 0x7FFF_FFFF

  // ---------------------------------------------------------------------
  // trim
  // ---------------------------------------------------------------------

  /** `String.trim` removes every leading and trailing character whose code is at most U+0020. */
  predicate IsTrimmable(c: char) { c <= ' ' }

  function TrimLeft(s: string): (r: string)
    ensures |r| <= |s| && r == s[|s| - |r|..]
    ensures r == [] || !IsTrimmable(r[0])
    ensures forall i :: 0 <= i < |s| - |r| ==> IsTrimmable(s[i])
  {
    if s == [] || !IsTrimmable(s[0]) then s else TrimLeft(s[1..])
  }

  function TrimRight(s: string): (r: string)
    ensures |r| <= |s| && r == s[..|r|]
    ensures r == [] || !IsTrimmable(r[|r| - 1])
    ensures forall i :: |r| <= i < |s| ==> IsTrimmable(s[i])
  {
    if s == [] || !IsTrimmable(s[|s| - 1]) then s else TrimRight(s[..|s| - 1])
  }

  /** The result is a contiguous slice of `s` whose ends are not trimmable, and only trimmable characters were cut. */
  function Trim(s: string): (r: string)
    ensures exists lo, hi ::
      (0 <= lo <= hi <= |s| && r == s[lo..hi]
       && (forall i :: 0 <= i < lo ==> IsTrimmable(s[i]))
       && (forall i :: hi <= i < |s| ==> IsTrimmable(s[i])))
    ensures r == [] || (!IsTrimmable(r[0]) && !IsTrimmable(r[|r| - 1]))
  {
    var l := TrimLeft(s);
    var r := TrimRight(l);
    assert r == s[|s| - |l|..|s| - |l| + |r|];
    r
  }

  lemma {:induction false} TrimIdentity(s: string)
    requires s == [] || (!IsTrimmable(s[0]) && !IsTrimmable(s[|s| - 1]))
    ensures Trim(s) == s
  {
  }

  lemma {:induction false} TrimLeftPadded(pad: string, y: string)
    requires forall i :: 0 <= i < |pad| ==> IsTrimmable(pad[i])
    requires y != [] && !IsTrimmable(y[0])
    ensures TrimLeft(pad + y) == y
  {
    var s := pad + y;
    var r := TrimLeft(s);
    var k := |s| - |r|;
    assert s[|pad|] == y[0];
    assert k <= |pad|;
    assert forall i :: 0 <= i < |pad| ==> s[i] == pad[i];
    assert r != [] ==> r[0] == s[k];
    assert k == |pad|;
    assert s[|pad|..] == y;
  }

  lemma {:induction false} TrimRightPadded(y: string, pad: string)
    requires forall i :: 0 <= i < |pad| ==> IsTrimmable(pad[i])
    requires y != [] && !IsTrimmable(y[|y| - 1])
    ensures TrimRight(y + pad) == y
  {
    var s := y + pad;
    var r := TrimRight(s);
    assert s[|y| - 1] == y[|y| - 1];
    assert |r| >= |y|;
    assert forall i :: |y| <= i < |s| ==> s[i] == pad[i - |y|];
    assert r != [] ==> r[|r| - 1] == s[|r| - 1];
    assert |r| == |y|;
    assert s[..|y|] == y;
  }

  /** Whitespace around a word is exactly what trimming removes. */
  lemma {:induction false} TrimPadded(pad1: string, x: string, pad2: string)
    requires forall i :: 0 <= i < |pad1| ==> IsTrimmable(pad1[i])
    requires forall i :: 0 <= i < |pad2| ==> IsTrimmable(pad2[i])
    requires x != [] && !IsTrimmable(x[0]) && !IsTrimmable(x[|x| - 1])
    ensures Trim(pad1 + x + pad2) == x
  {
    assert pad1 + x + pad2 == pad1 + (x + pad2);
    TrimLeftPadded(pad1, x + pad2);
    TrimRightPadded(x, pad2);
  }

  /** Upper-case letters and underscores: the spelling of an enum constant. */
  predicate UpperName(s: string) {
    forall i :: 0 <= i < |s| ==> ('A' <= s[i] <= 'Z' || s[i] == '_')
  }

  // ---------------------------------------------------------------------
  // case conversion (ASCII letters only)
  // ---------------------------------------------------------------------

  function UpperChar(c: char): char {
    if 'a' <= c <= 'z' then (c as int - 'a' as int + 'A' as int) as char else c
  }

  function LowerChar(c: char): char {
    if 'A' <= c <= 'Z' then (c as int - 'A' as int + 'a' as int) as char else c
  }

  function ToUpper(s: string): (r: string)
    ensures |r| == |s| && forall i :: 0 <= i < |s| ==> r[i] == UpperChar(s[i])
  {
    seq(|s|, i requires 0 <= i < |s| => UpperChar(s[i]))
  }

  function ToLower(s: string): (r: string)
    ensures |r| == |s| && forall i :: 0 <= i < |s| ==> r[i] == LowerChar(s[i])
  {
    seq(|s|, i requires 0 <= i < |s| => LowerChar(s[i]))
  }

  /** A string without lower-case ASCII letters is its own upper-case form. */
  lemma UpperOfUpper(s: string)
    requires forall i :: 0 <= i < |s| ==> !('a' <= s[i] <= 'z')
    ensures ToUpper(s) == s
  {
  }

  /** Lower-casing an enum constant's spelling and upper-casing it again gives it back. */
  lemma {:induction false} UpperOfLowerName(s: string)
    requires UpperName(s)
    ensures ToUpper(ToLower(s)) == s
    ensures forall i :: 0 <= i < |s| ==> !IsTrimmable(ToLower(s)[i])
  {
  }

  // ---------------------------------------------------------------------
  // substring
  // ---------------------------------------------------------------------

  predicate IsPrefix(p: string, s: string) { |p| <= |s| && s[..|p|] == p }

  /** `t` occurs in `s` starting at index `k`. */
  predicate OccursAt(s: string, t: string, k: int) {
    0 <= k <= |s| - |t| && s[k..k + |t|] == t
  }

  /** `String.contains`. */
  predicate Contains(s: string, t: string) {
    exists k :: 0 <= k <= |s| && OccursAt(s, t, k)
  }

  // ---------------------------------------------------------------------
  // joining and splitting
  // ---------------------------------------------------------------------

  /** `Collectors.joining(sep)` over the elements in order. */
  function Join(sep: string, parts: seq<string>): (r: string)
    ensures parts == [] ==> r == ""
    ensures |parts| == 1 ==> r == parts[0]
  {
    if |parts| == 0 then ""
    else if |parts| == 1 then parts[0]
    else parts[0] + sep + Join(sep, parts[1..])
  }

  /** The pieces of `s` between occurrences of `c`, empty pieces included (one more piece than separators). */
  function RawSplit(s: string, c: char): (r: seq<string>)
    ensures |r| >= 1
    ensures forall i :: 0 <= i < |r| ==> c !in r[i]
  {
    if s == [] then [""]
    else
      var rest := RawSplit(s[1..], c);
      if s[0] == c then [""] + rest
      else [[s[0]] + rest[0]] + rest[1..]
  }

  /** Drops the empty strings at the end, as `String.split` does. */
  function DropTrailingEmpty(xs: seq<string>): (r: seq<string>)
    ensures |r| <= |xs| && r == xs[..|r|]
    ensures r == [] || r[|r| - 1] != ""
    ensures forall i :: |r| <= i < |xs| ==> xs[i] == ""
  {
    if xs == [] || xs[|xs| - 1] != "" then xs else DropTrailingEmpty(xs[..|xs| - 1])
  }

  /**
   * `s.split(",")` for a separator that is not a regular-expression
   * metacharacter: a string without the separator gives itself (so "" gives
   * [""]); otherwise the pieces, without trailing empty ones.
   */
  function JavaSplit(s: string, c: char): (r: seq<string>)
    ensures forall i :: 0 <= i < |r| ==> c !in r[i]
    ensures c !in s ==> r == [s]
    ensures c in s ==> r == [] || r[|r| - 1] != ""
    ensures c in s ==>
      |r| <= |RawSplit(s, c)| && r == RawSplit(s, c)[..|r|]
      && forall i :: |r| <= i < |RawSplit(s, c)| ==> RawSplit(s, c)[i] == ""
  {
    if c !in s then [s] else DropTrailingEmpty(RawSplit(s, c))
  }

  lemma {:induction false} RawSplitNoSeparator(s: string, c: char)
    requires c !in s
    ensures RawSplit(s, c) == [s]
  {
    if s != [] {
      RawSplitNoSeparator(s[1..], c);
      assert [s[0]] + s[1..] == s;
    }
  }

  lemma {:induction false} RawSplitAfterPiece(p: string, c: char, rest: string)
    requires c !in p
    ensures RawSplit(p + [c] + rest, c) == [p] + RawSplit(rest, c)
  {
    if p == [] {
      assert p + [c] + rest == [c] + rest;
      assert ([c] + rest)[1..] == rest;
    } else {
      assert (p + [c] + rest)[1..] == p[1..] + [c] + rest;
      RawSplitAfterPiece(p[1..], c, rest);
      assert [p[0]] + p[1..] == p;
    }
  }

  /** Splitting a joined list gives the pieces back, empty ones included. */
  lemma {:induction false} RawSplitJoin(parts: seq<string>, c: char)
    requires parts != []
    requires forall i :: 0 <= i < |parts| ==> c !in parts[i]
    ensures RawSplit(Join([c], parts), c) == parts
  {
    if |parts| == 1 {
      RawSplitNoSeparator(parts[0], c);
    } else {
      RawSplitJoin(parts[1..], c);
      RawSplitAfterPiece(parts[0], c, Join([c], parts[1..]));
      assert [parts[0]] + parts[1..] == parts;
    }
  }

  lemma {:induction false} JoinHasNoSeparator(parts: seq<string>, c: char)
    requires |parts| == 1 && c !in parts[0]
    ensures c !in Join([c], parts)
  {
  }

  lemma {:induction false} JoinHasSeparator(parts: seq<string>, c: char)
    requires |parts| >= 2
    ensures c in Join([c], parts)
  {
    var j := Join([c], parts);
    assert j == parts[0] + [c] + Join([c], parts[1..]);
    assert j[|parts[0]|] == c;
  }

  /**
   * Round trip of `joining(",")` and `split(",")`: a non-empty list of
   * separator-free pieces whose last piece is non-empty (or which has a
   * single piece) is recovered exactly.
   */
  lemma {:induction false} SplitJoinRoundTrip(parts: seq<string>, c: char)
    requires parts != []
    requires forall i :: 0 <= i < |parts| ==> c !in parts[i]
    requires |parts| == 1 || parts[|parts| - 1] != ""
    ensures JavaSplit(Join([c], parts), c) == parts
  {
    if |parts| == 1 {
      JoinHasNoSeparator(parts, c);
    } else {
      JoinHasSeparator(parts, c);
      RawSplitJoin(parts, c);
    }
  }

  // ---------------------------------------------------------------------
  // Integer.toString and Integer.parseInt
  // ---------------------------------------------------------------------

  predicate IsDigit(c: char) { '0' <= c <= '9' }

  function DigitChar(d: nat): char
    requires d < 10
  {
    ('0' as int + d) as char
  }

  /** Decimal digits of `n`, most significant first, no leading zeros. */
  function NatToString(n: nat): (r: string)
    ensures |r| >= 1 && forall i :: 0 <= i < |r| ==> IsDigit(r[i])
    ensures |r| > 1 ==> r[0] != '0'
  {
    if n < 10 then [DigitChar(n)] else NatToString(n / 10) + [DigitChar(n % 10)]
  }

  /** `Integer.toString` / `%d`. */
  function IntToString(n: int): (r: string)
    ensures r != []
  {
    if n < 0 then "-" + NatToString(-n) else NatToString(n)
  }

  function DigitValue(c: char): nat
    requires IsDigit(c)
  {
    c as int - '0' as int
  }

  /** The value of a string of decimal digits. */
  function DigitsValue(s: string): nat
    requires forall i :: 0 <= i < |s| ==> IsDigit(s[i])
  {
    if s == [] then 0 else DigitsValue(s[..|s| - 1]) * 10 + DigitValue(s[|s| - 1])
  }

  predicate AllDigits(s: string) { s != [] && forall i :: 0 <= i < |s| ==> IsDigit(s[i]) }

  /**
   * `Integer.parseInt(s)`: an optional '+' or '-', then one or more digits,
   * and a value within the range of `int`; anything else is a
   * NumberFormatException, modelled as None.
   */
  function ParseInt(s: string): (r: Option<int>)
    ensures r.Some? ==> IntMin <= r.value <= IntMax
    ensures r.Some? ==> s != [] && (IsDigit(s[0]) || s[0] == '-' || s[0] == '+')
  {
    if s == [] then None
    else
      var neg := s[0] == '-';
      var body := if s[0] == '-' || s[0] == '+' then s[1..] else s;
      if !AllDigits(body) then None
      else
        var n: int := DigitsValue(body);
        var v := if neg then -n else n;
        if IntMin <= v <= IntMax then Some(v) else None
  }

  lemma {:induction false} DigitsOfNat(n: nat)
    ensures DigitsValue(NatToString(n)) == n
  {
    if n >= 10 {
      DigitsOfNat(n / 10);
      var s := NatToString(n);
      assert s[..|s| - 1] == NatToString(n / 10);
    }
  }

  /** `Integer.parseInt(Integer.toString(n)) == n` for every Java int. */
  lemma {:induction false} ParseIntOfIntToString(n: int)
    requires IntMin <= n <= IntMax
    ensures ParseInt(IntToString(n)) == Some(n)
  {
    var s := IntToString(n);
    if n < 0 {
      DigitsOfNat(-n);
      assert s[1..] == NatToString(-n);
    } else {
      DigitsOfNat(n);
    }
  }

  // ---------------------------------------------------------------------
  // SQL LIKE
  // ---------------------------------------------------------------------

  /** No LIKE wildcard ('%' or '_') occurs in `t`. */
  predicate NoWildcards(t: string) { forall i :: 0 <= i < |t| ==> t[i] != '%' && t[i] != '_' }

  /** SQL `s LIKE p` without an escape character: '%' matches any run, '_' any one character. */
  predicate Like(s: string, p: string)
    decreases |s| + |p|
  {
    if p == [] then s == []
    else if p[0] == '%' then Like(s, p[1..]) || (s != [] && Like(s[1..], p))
    else s != [] && (p[0] == '_' || p[0] == s[0]) && Like(s[1..], p[1..])
  }

  lemma {:induction false} LikeTrailingPercent(s: string)
    ensures Like(s, "%")
    decreases |s|
  {
    assert "%"[1..] == [];
    if s != [] {
      LikeTrailingPercent(s[1..]);
    }
  }

  /** For a literal `t`, `s LIKE t || '%'` holds exactly when `t` is a prefix of `s`. */
  lemma {:induction false} LikePrefix(s: string, t: string)
    requires NoWildcards(t)
    ensures Like(s, t + "%") <==> IsPrefix(t, s)
    decreases |t|
  {
    if t == [] {
      assert t + "%" == "%";
      LikeTrailingPercent(s);
    } else {
      assert (t + "%")[1..] == t[1..] + "%";
      if s != [] {
        LikePrefix(s[1..], t[1..]);
        if IsPrefix(t, s) {
          assert s[1..][..|t| - 1] == s[..|t|][1..];
        }
        if IsPrefix(t[1..], s[1..]) && t[0] == s[0] {
          assert s[..|t|] == [s[0]] + s[1..][..|t| - 1];
        }
      }
    }
  }

  /** `s LIKE '%' || q` holds exactly when some suffix of `s` matches `q`. */
  lemma {:induction false} LikeLeadingPercent(s: string, q: string)
    ensures Like(s, "%" + q) <==> exists k :: 0 <= k <= |s| && Like(s[k..], q)
    decreases |s|
  {
    var p := "%" + q;
    assert p[1..] == q;
    if s == [] {
      assert s[0..] == s;
    } else {
      LikeLeadingPercent(s[1..], q);
      if Like(s, p) {
        if !Like(s, q) {
          var k :| 0 <= k <= |s[1..]| && Like(s[1..][k..], q);
          assert s[1..][k..] == s[k + 1..];
        } else {
          assert s[0..] == s;
        }
      }
      if exists k :: 0 <= k <= |s| && Like(s[k..], q) {
        var k :| 0 <= k <= |s| && Like(s[k..], q);
        if k == 0 {
          assert s[0..] == s;
        } else {
          assert s[1..][k - 1..] == s[k..];
        }
      }
    }
  }

  /**
   * The JPQL search `LOWER(x) LIKE LOWER(CONCAT('%', term, '%'))` is
   * substring search when the term holds no wildcard; in particular the
   * empty term matches every string.
   */
  lemma {:induction false} LikeContains(s: string, t: string)
    requires NoWildcards(t)
    ensures Like(s, "%" + t + "%") <==> Contains(s, t)
  {
    assert "%" + t + "%" == "%" + (t + "%");
    LikeLeadingPercent(s, t + "%");
    if Like(s, "%" + t + "%") {
      var k :| 0 <= k <= |s| && Like(s[k..], t + "%");
      LikePrefix(s[k..], t);
      assert s[k..k + |t|] == s[k..][..|t|];
      assert OccursAt(s, t, k);
    }
    if Contains(s, t) {
      var k :| 0 <= k <= |s| && OccursAt(s, t, k);
      LikePrefix(s[k..], t);
      assert s[k..][..|t|] == s[k..k + |t|];
    }
  }
}
