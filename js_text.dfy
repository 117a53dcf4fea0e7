/**
 * The JavaScript string built-ins the core relies on: `String.prototype.trim`, `parseInt` with no
 * radix and `String.prototype.split` with a one-character separator, following ECMA-262
 * (sections 22.1.3.32, 19.2.5 and 22.1.3.23). A Dafny `char` is a Unicode scalar value.
 */
module JsText {
  import opened Basics

  /** WhiteSpace and LineTerminator code points of ECMA-262 sections 12.2 and 12.3. */
  predicate IsSpace(c: char) {
    || c == ' ' || c == '\t' || c == '\n' || c == '\r' || c == '\U{000B}' || c == '\U{000C}'
    || c == '\U{00A0}' || c == '\U{1680}' || ('\U{2000}' <= c <= '\U{200A}')
    || c == '\U{2028}' || c == '\U{2029}' || c == '\U{202F}' || c == '\U{205F}'
    || c == '\U{3000}' || c == '\U{FEFF}'
  }

  /** Leading white space removed: what `parseInt` skips first. */
  function TrimStart(s: string): (r: string)
    ensures |r| <= |s| && r == s[|s| - |r|..]
    ensures forall i :: 0 <= i < |s| - |r| ==> IsSpace(s[i])
    ensures r == [] || !IsSpace(r[0])
  {
    if |s| > 0 && IsSpace(s[0]) then TrimStart(s[1..]) else s
  }

  /** Trailing white space removed. */
  function TrimEnd(s: string): (r: string)
    ensures |r| <= |s| && r == s[..|r|]
    ensures forall i :: |r| <= i < |s| ==> IsSpace(s[i])
    ensures r == [] || !IsSpace(r[|r| - 1])
  {
    if |s| > 0 && IsSpace(s[|s| - 1]) then TrimEnd(s[..|s| - 1]) else s
  }

  /** `s.trim()` */
  function Trim(s: string): string {
    TrimEnd(TrimStart(s))
  }

  /** `s.trim()` is empty exactly when every character of `s` is white space. */
  lemma TrimBlankIffAllSpace(s: string)
    ensures (forall i :: 0 <= i < |s| ==> IsSpace(s[i])) <==> Trim(s) == []
  {
    var a := TrimStart(s);
    var i := |s| - |a|;
    if Trim(s) == [] {
      assert s == s[..i] + a;
    } else {
      assert a != [] && a[0] == s[i] && !IsSpace(a[0]);
    }
  }

  /**
   * `s.trim()` is the middle of `s` that neither starts nor ends with white space, and
   * everything cut from either end is white space.
   */
  lemma TrimIsCore(s: string)
    ensures exists i, j :: 0 <= i <= j <= |s| && Trim(s) == s[i..j]
    ensures Trim(s) == [] || (!IsSpace(Trim(s)[0]) && !IsSpace(Trim(s)[|Trim(s)| - 1]))
    ensures (forall i :: 0 <= i < |s| ==> IsSpace(s[i])) <==> Trim(s) == []
  {
    TrimSlice(s);
    TrimEnds(s);
    TrimBlankIffAllSpace(s);
  }

  lemma TrimSlice(s: string)
    ensures exists i, j :: 0 <= i <= j <= |s| && Trim(s) == s[i..j]
  {
    var a := TrimStart(s);
    var i := |s| - |a|;
    var t := TrimEnd(a);
    assert a == s[i..] && t == a[..|t|];
    assert Trim(s) == s[i..i + |t|];
  }

  lemma TrimEnds(s: string)
    ensures Trim(s) == [] || (!IsSpace(Trim(s)[0]) && !IsSpace(Trim(s)[|Trim(s)| - 1]))
  {
    var a := TrimStart(s);
    var t := TrimEnd(a);
    if t != [] {
      assert t[0] == a[0];
    }
  }

  lemma TrimStartFixed(s: string)
    requires s == [] || !IsSpace(s[0])
    ensures TrimStart(s) == s
  {
  }

  lemma TrimEndFixed(s: string)
    requires s == [] || !IsSpace(s[|s| - 1])
    ensures TrimEnd(s) == s
  {
  }

  /** Trimming twice is trimming once. */
  lemma TrimIdempotent(s: string)
    ensures Trim(Trim(s)) == Trim(s)
  {
    var t := Trim(s);
    var a := TrimStart(s);
    if t != [] {
      assert t[0] == a[0];
    }
    TrimStartFixed(t);
    TrimEndFixed(t);
  }

  /** The value of a digit character in bases up to 36, 36 for any other character. */
  function DigitValue(c: char): (d: nat)
    ensures d <= 36
  {
    if '0' <= c <= '9' then (c - '0') as nat
    else if 'a' <= c <= 'z' then (c - 'a') as nat + 10
    else if 'A' <= c <= 'Z' then (c - 'A') as nat + 10
    else 36
  }

  /** The longest prefix of `s` made of digits of the given radix. */
  function DigitPrefix(s: string, radix: nat): (z: string)
    ensures |z| <= |s| && z == s[..|z|]
    ensures forall i :: 0 <= i < |z| ==> DigitValue(z[i]) < radix
    ensures |z| < |s| ==> DigitValue(s[|z|]) >= radix
  {
    if |s| > 0 && DigitValue(s[0]) < radix then [s[0]] + DigitPrefix(s[1..], radix) else []
  }

  /** The number the digits of `z` denote in the given radix, most significant digit first. */
  function DigitsValue(z: string, radix: nat): nat {
    if z == [] then 0 else DigitsValue(z[..|z| - 1], radix) * radix + DigitValue(z[|z| - 1])
  }

  /** The digits at the front of `s` read in the given radix; `None` when there are none. */
  function LeadingNumber(s: string, radix: nat): Option<nat> {
    var z := DigitPrefix(s, radix);
    if z == [] then None else Some(DigitsValue(z, radix))
  }

  /** `parseInt` after the sign: base 16 after a `0x`/`0X` prefix, base 10 otherwise. */
  function ParseMagnitude(body: string): Option<nat> {
    if |body| >= 2 && body[0] == '0' && (body[1] == 'x' || body[1] == 'X') then LeadingNumber(body[2..], 16)
    else LeadingNumber(body, 10)
  }

  /** `parseInt` after the leading white space: an optional '-' or '+' sign, then the magnitude. */
  function ParseSigned(t: string): Option<int> {
    if |t| > 0 && t[0] == '-' then
      match ParseMagnitude(t[1..])
      case Some(m) => Some(-(m as int))
      case None => None
    else if |t| > 0 && t[0] == '+' then
      match ParseMagnitude(t[1..])
      case Some(m) => Some(m as int)
      case None => None
    else
      match ParseMagnitude(t)
      case Some(m) => Some(m as int)
      case None => None
  }

  /**
   * `parseInt(s)` with no radix (ECMA-262 section 19.2.5): skip leading white space, read an
   * optional sign, switch to base 16 after a `0x`/`0X` prefix, then read as many digits as
   * there are; `None` is `NaN` (no digit at all). The value is exact: the rounding of a double
   * above 2^53 is not modelled.
   */
  function ParseInt(s: string): Option<int> {
    ParseSigned(TrimStart(s))
  }

  /** A non-empty run of the ASCII digits 0-9. */
  predicate IsDecimal(s: string) {
    |s| > 0 && forall i :: 0 <= i < |s| ==> '0' <= s[i] <= '9'
  }

  lemma DigitPrefixWhole(s: string, radix: nat)
    requires forall i :: 0 <= i < |s| ==> DigitValue(s[i]) < radix
    ensures DigitPrefix(s, radix) == s
  {
    var z := DigitPrefix(s, radix);
    assert |z| == |s|;
  }

  lemma DecimalUntrimmed(s: string)
    requires IsDecimal(s)
    ensures TrimStart(s) == s
  {
    TrimStartFixed(s);
  }

  lemma DecimalDigits(s: string)
    requires IsDecimal(s)
    ensures LeadingNumber(s, 10) == Some(DigitsValue(s, 10))
  {
    DigitPrefixWhole(s, 10);
  }

  lemma DecimalUnsigned(s: string)
    requires IsDecimal(s)
    ensures ParseSigned(s) == match LeadingNumber(s, 10) case Some(m) => Some(m as int) case None => None
  {
  }

  /** A plain run of decimal digits parses to its decimal value. */
  lemma ParseDecimal(s: string)
    requires IsDecimal(s)
    ensures ParseInt(s) == Some(DigitsValue(s, 10) as int)
  {
    DecimalUntrimmed(s);
    DecimalDigits(s);
    DecimalUnsigned(s);
  }

  /** A blank string has no number in it. */
  lemma ParseBlank(s: string)
    requires Trim(s) == []
    ensures ParseInt(s) == None
  {
    TrimIsCore(s);
    assert TrimStart(s) == [];
  }

  /**
   * `s.split(sep)`: the pieces between occurrences of `sep`, in order; the empty string gives
   * one empty piece.
   */
  function Split(s: string, sep: char): (pieces: seq<string>)
    ensures |pieces| >= 1
    ensures forall k :: 0 <= k < |pieces| ==> sep !in pieces[k]
    ensures pieces[0] <= s
    ensures |pieces| == 1 <==> sep !in s
    decreases |s|
  {
    if |s| == 0 then [""]
    else if s[0] == sep then [""] + Split(s[1..], sep)
    else
      var rest := Split(s[1..], sep);
      [[s[0]] + rest[0]] + rest[1..]
  }

  /** The inverse of `Split`: the pieces glued back with the separator between them. */
  function Join(pieces: seq<string>, sep: char): string
    requires |pieces| >= 1
  {
    if |pieces| == 1 then pieces[0] else pieces[0] + [sep] + Join(pieces[1..], sep)
  }

  /** Extending the first piece extends the joined text at its front. */
  lemma JoinPrepend(c: string, pieces: seq<string>, sep: char)
    requires |pieces| >= 1
    ensures Join([c + pieces[0]] + pieces[1..], sep) == c + Join(pieces, sep)
  {
    var longer := [c + pieces[0]] + pieces[1..];
    if |pieces| > 1 {
      assert longer[1..] == pieces[1..];
    }
  }

  /** Joining the pieces of a split gives the string back. */
  lemma {:induction false} SplitJoin(s: string, sep: char)
    ensures Join(Split(s, sep), sep) == s
    decreases |s|
  {
    if |s| > 0 {
      SplitJoin(s[1..], sep);
      var rest := Split(s[1..], sep);
      if s[0] == sep {
        assert Split(s, sep) == [""] + rest;
        assert ([""] + rest)[1..] == rest;
      } else {
        JoinPrepend([s[0]], rest, sep);
      }
      assert [s[0]] + s[1..] == s;
    }
  }

  /** Splitting at the first separator: what comes before it is the first piece. */
  lemma {:induction false} SplitAtFirst(a: string, sep: char, b: string)
    requires sep !in a
    ensures Split(a + [sep] + b, sep) == [a] + Split(b, sep)
    decreases |a|
  {
    if a == [] {
      assert a + [sep] + b == [sep] + b;
      assert ([sep] + b)[1..] == b;
    } else {
      var s := a + [sep] + b;
      assert s[0] == a[0] && s[1..] == a[1..] + [sep] + b;
      SplitAtFirst(a[1..], sep, b);
      assert [a[0]] + a[1..] == a;
    }
  }

  /** A string without the separator is one piece. */
  lemma SplitWhole(s: string, sep: char)
    requires sep !in s
    ensures Split(s, sep) == [s]
  {
    if s != [] {
      SplitWhole(s[1..], sep);
      assert Split(s, sep) == [[s[0]] + s[1..]];
      assert [s[0]] + s[1..] == s;
    }
  }

  /** The first piece of `a + b`, when `a` holds no separator, is `a` followed by the first piece of `b`. */
  lemma {:induction false} SplitFirstPiece(a: string, b: string, sep: char)
    requires sep !in a
    ensures Split(a + b, sep)[0] == a + Split(b, sep)[0]
    decreases |a|
  {
    if a != [] {
      var s := a + b;
      assert |s| > 0 && s[0] == a[0] && s[0] != sep && s[1..] == a[1..] + b;
      var rest := Split(s[1..], sep);
      assert Split(s, sep) == [[s[0]] + rest[0]] + rest[1..];
      SplitFirstPiece(a[1..], b, sep);
      calc {
        Split(s, sep)[0];
        [a[0]] + rest[0];
        [a[0]] + (a[1..] + Split(b, sep)[0]);
        { assert [a[0]] + a[1..] == a; }
        a + Split(b, sep)[0];
      }
    } else {
      assert a + b == b && a + Split(b, sep)[0] == Split(b, sep)[0];
    }
  }

  /** A string that is empty or starts with the separator has an empty first piece. */
  lemma SplitFirstEmpty(s: string, sep: char)
    requires s == [] || s[0] == sep
    ensures Split(s, sep)[0] == []
  {
  }

  /** A string that starts with anything but the separator has a first piece starting with that character. */
  lemma SplitFirstStarts(s: string, sep: char)
    requires |s| > 0 && s[0] != sep
    ensures |Split(s, sep)[0]| > 0 && Split(s, sep)[0][0] == s[0]
  {
  }
}
