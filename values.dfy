/** JavaScript values as the request pipeline sees them, and the string
    helpers the validators rely on: `String.prototype.trim` and the
    integer test of the `validator` package. */
module Values {

  datatype Option<+T> = None | Some(value: T)

  datatype Result<+T, +E> = Success(value: T) | Failure(error: E)

  /** A value read from a parsed JSON body or a document. `Composite` stands
      for arrays and objects, whose contents no validator inspects. */
  datatype JsValue = Undefined | Null | Bool(b: bool) | Num(n: int) | Str(s: string) | Composite

  /** A plain object: property name to value. */
  type JsObject = map<string, JsValue>

  /** Property access; a missing property reads as `undefined`. */
  function Get(o: JsObject, key: string): JsValue
  {
    if key in o then o[key] else Undefined
  }

  /** Removes the given properties from an object (the `deleteProperties`
      helper the handlers call on request bodies and fetched users). */
  function DeleteProperties(o: JsObject, keys: set<string>): (r: JsObject)
    ensures r.Keys == o.Keys - keys
    ensures forall k :: k in r ==> r[k] == o[k]
  {
    o - keys
  }

  // ---------------------------------------------------------------------
  // Whitespace and trim
  // ---------------------------------------------------------------------

  /** The characters JavaScript's `trim` removes: WhiteSpace and
      LineTerminator of the ECMAScript grammar. */
  predicate IsWhitespace(c: char)
  {
    c == '\t' || c == '\n' || c == '\U{000B}' || c == '\U{000C}' || c == '\r' || c == ' '
    || c == '\U{00A0}' || c == '\U{1680}' || ('\U{2000}' <= c <= '\U{200A}')
    || c == '\U{2028}' || c == '\U{2029}' || c == '\U{202F}' || c == '\U{205F}'
    || c == '\U{3000}' || c == '\U{FEFF}'
  }

  predicate AllWhitespace(s: string)
  {
    forall i :: 0 <= i < |s| ==> IsWhitespace(s[i])
  }

  /** No whitespace at either end. */
  predicate Unpadded(s: string)
  {
    s == [] || (!IsWhitespace(s[0]) && !IsWhitespace(s[|s| - 1]))
  }

  /** Drops leading whitespace; the result does not start with any
      (`TrimStartShape` says what was dropped). */
  function TrimStart(s: string): (r: string)
    ensures |r| <= |s|
    ensures r == [] || !IsWhitespace(r[0])
    decreases |s|
  {
    if |s| > 0 && IsWhitespace(s[0]) then TrimStart(s[1..]) else s
  }

  /** Drops trailing whitespace; the result does not end with any and
      starts where `s` starts (`TrimEndShape` says what was dropped). */
  function TrimEnd(s: string): (r: string)
    ensures |r| <= |s|
    ensures r == [] || !IsWhitespace(r[|r| - 1])
    ensures r != [] ==> r[0] == s[0]
    decreases |s|
  {
    if |s| > 0 && IsWhitespace(s[|s| - 1]) then TrimEnd(s[..|s| - 1]) else s
  }

  /** `String.prototype.trim`. */
  function Trim(s: string): (r: string)
    ensures |r| <= |s|
    ensures Unpadded(r)
  {
    TrimEnd(TrimStart(s))
  }

  /** `TrimStart` keeps a suffix of `s` and drops only whitespace. */
  lemma {:induction false} TrimStartShape(s: string)
    ensures TrimStart(s) == s[|s| - |TrimStart(s)|..]
    ensures AllWhitespace(s[..|s| - |TrimStart(s)|])
    decreases |s|
  {
    if |s| > 0 && IsWhitespace(s[0]) {
      var r := TrimStart(s[1..]);
      TrimStartShape(s[1..]);
      assert s[1..][|s[1..]| - |r|..] == s[|s| - |r|..];
      assert s[..|s| - |r|] == [s[0]] + s[1..][..|s[1..]| - |r|];
    }
  }

  /** `TrimEnd` keeps a prefix of `s` and drops only whitespace. */
  lemma {:induction false} TrimEndShape(s: string)
    ensures TrimEnd(s) == s[..|TrimEnd(s)|]
    ensures AllWhitespace(s[|TrimEnd(s)|..])
    decreases |s|
  {
    if |s| > 0 && IsWhitespace(s[|s| - 1]) {
      var r := TrimEnd(s[..|s| - 1]);
      TrimEndShape(s[..|s| - 1]);
      assert s[..|s| - 1][..|r|] == s[..|r|];
      assert s[|r|..] == s[..|s| - 1][|r|..] + [s[|s| - 1]];
    }
  }

  /** `trim` removes whitespace from both ends and nothing else: `s` is the
      trimmed string with whitespace padding `p` before it and `q` after it. */
  lemma TrimShape(s: string) returns (p: string, q: string)
    ensures AllWhitespace(p) && AllWhitespace(q)
    ensures s == p + Trim(s) + q
  {
    var t := TrimStart(s);
    TrimStartShape(s);
    TrimEndShape(t);
    var c := TrimEnd(t);
    p, q := s[..|s| - |t|], t[|c|..];
    assert s == p + t;
    assert t == c + q;
    AppendAssociative(p, c, q);
  }

  lemma AppendAssociative(a: string, b: string, c: string)
    ensures a + (b + c) == a + b + c
  {
  }


  lemma {:induction false} TrimStartPadded(p: string, t: string)
    requires AllWhitespace(p)
    requires t == [] || !IsWhitespace(t[0])
    ensures TrimStart(p + t) == t
    decreases |p|
  {
    if p != [] {
      assert (p + t)[1..] == p[1..] + t;
      TrimStartPadded(p[1..], t);
    } else {
      assert p + t == t;
    }
  }

  lemma {:induction false} TrimEndPadded(t: string, q: string)
    requires AllWhitespace(q)
    requires t == [] || !IsWhitespace(t[|t| - 1])
    ensures TrimEnd(t + q) == t
    decreases |q|
  {
    if q != [] {
      assert (t + q)[..|t + q| - 1] == t + q[..|q| - 1];
      TrimEndPadded(t, q[..|q| - 1]);
    } else {
      assert t + q == t;
    }
  }

  /** Reference characterisation of `trim`: whitespace padding on both sides
      of an unpadded core is exactly what is removed. */
  lemma TrimOfPadded(p: string, c: string, q: string)
    requires AllWhitespace(p) && AllWhitespace(q) && Unpadded(c)
    ensures Trim(p + c + q) == c
  {
    if c == [] {
      assert p + c + q == (p + q) + [];
      assert AllWhitespace(p + q);
      TrimStartPadded(p + q, []);
    } else {
      assert p + c + q == p + (c + q);
      TrimStartPadded(p, c + q);
      TrimEndPadded(c, q);
    }
  }

  /** Trimming twice is trimming once. */
  lemma TrimIdempotent(s: string)
    ensures Trim(Trim(s)) == Trim(s)
  {
    var t := Trim(s);
    assert [] + t + [] == t;
    TrimOfPadded([], t, []);
  }

  // ---------------------------------------------------------------------
  // Decimal integer strings (the `isInt` check of the validator package)
  // ---------------------------------------------------------------------

  predicate IsDigit(c: char)
  {
    '0' <= c <= '9'
  }

  predicate AllDigits(s: string)
  {
    forall i :: 0 <= i < |s| ==> IsDigit(s[i])
  }

  function DigitValue(c: char): nat
    requires IsDigit(c)
  {
    c as int - '0' as int
  }

  /** The value of a string of decimal digits, leading zeros allowed. */
  function DigitsValue(s: string): nat
    requires AllDigits(s)
    decreases |s|
  {
    if s == [] then 0 else DigitsValue(s[..|s| - 1]) * 10 + DigitValue(s[|s| - 1])
  }

  /** The shape `isInt` accepts: an optional sign followed by at least one
      decimal digit (leading zeros are allowed by default). */
  predicate IsIntString(s: string)
  {
    |s| > 0 &&
    if s[0] == '-' || s[0] == '+' then |s| > 1 && AllDigits(s[1..]) else AllDigits(s)
  }

  /** The number such a string denotes. */
  function IntValue(s: string): int
    requires IsIntString(s)
  {
    if s[0] == '-' then -(DigitsValue(s[1..]) as int)
    else if s[0] == '+' then DigitsValue(s[1..])
    else DigitsValue(s)
  }

  /** `isInt(s, {min, max})`: an integer string whose value lies within the
      bounds that are given. */
  predicate IsIntInRange(s: string, min: Option<int>, max: Option<int>)
  {
    IsIntString(s)
    && (min.Some? ==> min.value <= IntValue(s))
    && (max.Some? ==> IntValue(s) <= max.value)
  }

  /** The canonical decimal rendering of a natural number. */
  function DecimalDigits(n: nat): (s: string)
    ensures |s| > 0 && AllDigits(s)
    decreases n
  {
    if n < 10 then [('0' as int + n) as char]
    else DecimalDigits(n / 10) + [('0' as int + n % 10) as char]
  }

  /** The canonical decimal rendering of an integer, `-` for negatives. */
  function DecimalString(n: int): string
  {
    if n < 0 then "-" + DecimalDigits(-n) else DecimalDigits(n)
  }

  lemma {:induction false} DecimalDigitsValue(n: nat)
    ensures DigitsValue(DecimalDigits(n)) == n
    decreases n
  {
    if n >= 10 {
      var s := DecimalDigits(n);
      assert s[..|s| - 1] == DecimalDigits(n / 10);
      DecimalDigitsValue(n / 10);
    }
  }

  /** Reading back the canonical rendering gives the number. */
  lemma DecimalStringRoundTrip(n: int)
    ensures IsIntString(DecimalString(n))
    ensures IntValue(DecimalString(n)) == n
  {
    var s := DecimalString(n);
    if n < 0 {
      assert s[1..] == DecimalDigits(-n);
      DecimalDigitsValue(-n);
    } else {
      DecimalDigitsValue(n);
    }
  }
}
