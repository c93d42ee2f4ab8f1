/** The parts of JavaScript's string and number semantics that the components
    rely on: the `\d`/`\D` character classes, `String.prototype.includes`,
    ASCII case folding as done by a non-Unicode `/i` regular expression,
    `trim`, `Number.prototype.toString` on integers and `parseInt`. */
module JsText {
  import opened Wrappers

  /** `\d` in a JavaScript regular expression: ASCII digits only. */
  predicate IsDigit(c: char) {
    '0' <= c <= '9'
  }

  predicate AllDigits(s: string) {
    forall i :: 0 <= i < |s| ==> IsDigit(s[i])
  }

  /** `s.replace(/\D/g, '')`: the digits of `s`, in order. */
  function Digits(s: string): (d: string)
    ensures AllDigits(d)
    ensures |d| <= |s|
    ensures AllDigits(s) ==> d == s
    ensures (forall i :: 0 <= i < |s| ==> !IsDigit(s[i])) ==> d == []
  {
    if s == [] then []
    else (if IsDigit(s[0]) then [s[0]] else []) + Digits(s[1..])
  }

  lemma {:induction false} DigitsAppend(a: string, b: string)
    ensures Digits(a + b) == Digits(a) + Digits(b)
  {
    if a == [] {
      assert a + b == b;
    } else {
      var head := if IsDigit(a[0]) then [a[0]] else [];
      assert (a + b)[0] == a[0];
      assert (a + b)[1..] == a[1..] + b;
      DigitsAppend(a[1..], b);
      assert Digits(a + b) == head + Digits(a[1..] + b);
      assert Digits(a) == head + Digits(a[1..]);
    }
  }

  /** `s.includes(p)`: `p` occurs in `s` at some position. */
  function Contains(s: string, p: string): bool
    decreases |s|
  {
    if |p| > |s| then false
    else if s[..|p|] == p then true
    else Contains(s[1..], p)
  }

  lemma {:induction false} ContainsAt(s: string, p: string, i: nat)
    requires i + |p| <= |s| && s[i..i + |p|] == p
    ensures Contains(s, p)
    decreases i
  {
    if i > 0 && s[..|p|] != p {
      assert s[1..][i - 1..i - 1 + |p|] == s[i..i + |p|];
      ContainsAt(s[1..], p, i - 1);
    }
  }

  /** A position at which `p` occurs in `s`. */
  lemma {:induction false} ContainsWitness(s: string, p: string) returns (i: nat)
    requires Contains(s, p)
    ensures i + |p| <= |s| && s[i..i + |p|] == p
    decreases |s|
  {
    if s[..|p|] == p {
      i := 0;
    } else {
      var j := ContainsWitness(s[1..], p);
      assert s[1..][j..j + |p|] == s[j + 1..j + 1 + |p|];
      i := j + 1;
    }
  }

  function LowerAscii(c: char): char {
    if 'A' <= c <= 'Z' then (c as int + 32) as char else c
  }

  /** `c1` and `c2` are equal under the canonicalisation of a non-Unicode `/i`
      pattern, for an ASCII pattern: only ASCII letters fold. */
  function LowerAll(s: string): (r: string)
    ensures |r| == |s|
    ensures forall i :: 0 <= i < |s| ==> r[i] == LowerAscii(s[i])
  {
    seq(|s|, i requires 0 <= i < |s| => LowerAscii(s[i]))
  }

  /** `/p/i.test(s)`, for a pattern `p` made of literal characters. */
  predicate ContainsIgnoringCase(s: string, p: string) {
    Contains(LowerAll(s), LowerAll(p))
  }

  /** WhiteSpace and LineTerminator of ECMAScript, as removed by `trim`. */
  predicate IsJsWhitespace(c: char) {
    || c == ' ' || c == '\t' || c == '\n' || c == '\r'
    || c == '\U{B}' || c == '\U{C}' || c == '\U{A0}' || c == '\U{FEFF}'
    || c == '\U{1680}' || ('\U{2000}' <= c <= '\U{200A}')
    || c == '\U{2028}' || c == '\U{2029}' || c == '\U{202F}'
    || c == '\U{205F}' || c == '\U{3000}'
  }

  predicate HasNonWhitespace(s: string) {
    exists i :: 0 <= i < |s| && !IsJsWhitespace(s[i])
  }

  function TrimStart(s: string): (r: string)
    ensures |r| <= |s|
    ensures r == s[|s| - |r|..]
    ensures r != [] ==> !IsJsWhitespace(r[0])
  {
    if s != [] && IsJsWhitespace(s[0]) then TrimStart(s[1..]) else s
  }

  function TrimEnd(s: string): (r: string)
    ensures |r| <= |s|
    ensures r == s[..|r|]
    ensures r != [] ==> !IsJsWhitespace(r[|r| - 1])
  {
    if s != [] && IsJsWhitespace(s[|s| - 1]) then TrimEnd(s[..|s| - 1]) else s
  }

  /** `s.trim()`. */
  function Trim(s: string): string {
    TrimEnd(TrimStart(s))
  }

  lemma {:induction false} TrimStartKeepsContent(s: string)
    ensures HasNonWhitespace(s) <==> TrimStart(s) != []
    decreases |s|
  {
    if s != [] && IsJsWhitespace(s[0]) {
      TrimStartKeepsContent(s[1..]);
      if HasNonWhitespace(s) {
        var i :| 0 <= i < |s| && !IsJsWhitespace(s[i]);
        assert s[1..][i - 1] == s[i];
      }
      if HasNonWhitespace(s[1..]) {
        var i :| 0 <= i < |s[1..]| && !IsJsWhitespace(s[1..][i]);
        assert s[i + 1] == s[1..][i];
      }
    } else if s != [] {
      assert !IsJsWhitespace(s[0]);
    }
  }

  /** `s.trim().length > 0` holds exactly when `s` has a character that is not
      JavaScript white space. */
  lemma TrimNonEmptyIff(s: string)
    ensures |Trim(s)| > 0 <==> HasNonWhitespace(s)
  {
    TrimStartKeepsContent(s);
    var t := TrimStart(s);
    if t != [] {
      assert !IsJsWhitespace(t[0]);
      assert TrimEnd(t) != [] by {
        if TrimEnd(t) == [] {
          TrimEndEmptyMeansBlank(t);
        }
      }
    }
  }

  lemma {:induction false} TrimEndEmptyMeansBlank(s: string)
    requires TrimEnd(s) == []
    ensures forall i :: 0 <= i < |s| ==> IsJsWhitespace(s[i])
    decreases |s|
  {
    if s != [] {
      TrimEndEmptyMeansBlank(s[..|s| - 1]);
      forall i | 0 <= i < |s|
        ensures IsJsWhitespace(s[i])
      {
        if i < |s| - 1 {
          assert s[i] == s[..|s| - 1][i];
        }
      }
    }
  }

  function DigitChar(d: nat): (c: char)
    requires d < 10
    ensures IsDigit(c)
  {
    ('0' as int + d) as char
  }

  function DigitValue(c: char): (d: nat)
    requires IsDigit(c)
    ensures d < 10
  {
    c as int - '0' as int
  }

  /** The decimal digits of `n`, most significant first, without leading zeros. */
  function NatToString(n: nat): (s: string)
    ensures |s| > 0 && AllDigits(s)
    ensures n >= 10 ==> s[0] != '0'
  {
    if n < 10 then [DigitChar(n)] else NatToString(n / 10) + [DigitChar(n % 10)]
  }

  function Pow10(k: nat): (p: nat)
    ensures p >= 1
  {
    if k == 0 then 1 else 10 * Pow10(k - 1)
  }

  /** `n` is written with at most `k` digits exactly when it is below `10^k`. */
  lemma {:induction false} NatToStringLength(n: nat, k: nat)
    requires k >= 1
    ensures |NatToString(n)| <= k <==> n < Pow10(k)
    decreases n
  {
    assert Pow10(k) == 10 * Pow10(k - 1);
    if n >= 10 && k >= 2 {
      NatToStringLength(n / 10, k - 1);
    }
  }

  /** `n.toString()` for an integral number. */
  function IntToString(n: int): string {
    if n < 0 then "-" + NatToString(-n) else NatToString(n)
  }

  /** The value of a string of decimal digits. */
  function DecimalValue(s: string): nat
    requires AllDigits(s)
  {
    if s == [] then 0 else DecimalValue(s[..|s| - 1]) * 10 + DigitValue(s[|s| - 1])
  }

  predicate IsHexDigit(c: char) {
    IsDigit(c) || ('a' <= c <= 'f') || ('A' <= c <= 'F')
  }

  function HexDigitValue(c: char): nat
    requires IsHexDigit(c)
  {
    if IsDigit(c) then DigitValue(c)
    else if 'a' <= c <= 'f' then c as int - 'a' as int + 10
    else c as int - 'A' as int + 10
  }

  function HexValue(s: string): nat
    requires forall i :: 0 <= i < |s| ==> IsHexDigit(s[i])
  {
    if s == [] then 0 else HexValue(s[..|s| - 1]) * 16 + HexDigitValue(s[|s| - 1])
  }

  /** The longest prefix of `s` whose characters satisfy `IsDigit`. */
  function DecimalPrefix(s: string): (r: string)
    ensures |r| <= |s| && r == s[..|r|] && AllDigits(r)
    ensures |r| < |s| ==> !IsDigit(s[|r|])
  {
    if s != [] && IsDigit(s[0]) then [s[0]] + DecimalPrefix(s[1..]) else []
  }

  function HexPrefix(s: string): (r: string)
    ensures |r| <= |s| && r == s[..|r|]
    ensures forall i :: 0 <= i < |r| ==> IsHexDigit(r[i])
  {
    if s != [] && IsHexDigit(s[0]) then [s[0]] + HexPrefix(s[1..]) else []
  }

  /** The magnitude `parseInt` reads once white space and sign are gone: a
      `0x`/`0X` prefix switches to base 16, and reading stops at the first
      character that is not a digit of the base; `None` when there is none. */
  function ParseMagnitude(u: string): Option<nat> {
    if |u| >= 2 && u[0] == '0' && (u[1] == 'x' || u[1] == 'X') then
      var h := HexPrefix(u[2..]);
      if h == [] then None else Some(HexValue(h))
    else
      var d := DecimalPrefix(u);
      if d == [] then None else Some(DecimalValue(d))
  }

  /** `parseInt` on a string with no leading white space: one `+` or `-`
      sign is accepted before the magnitude. */
  function ParseSigned(t: string): (r: Option<int>)
    ensures r.Some? ==> t != []
  {
    var negative := t != [] && t[0] == '-';
    var u := if t != [] && (t[0] == '-' || t[0] == '+') then t[1..] else t;
    match ParseMagnitude(u)
    case None => None
    case Some(m) => Some(if negative then -(m as int) else m as int)
  }

  /** `parseInt(s)` with no radix; `None` is `NaN`. */
  function ParseInt(s: string): (r: Option<int>)
    ensures r.Some? ==> HasNonWhitespace(s)
  {
    TrimStartKeepsContent(s);
    ParseSigned(TrimStart(s))
  }

  lemma {:induction false} DecimalValueOfNatToString(n: nat)
    ensures DecimalValue(NatToString(n)) == n
  {
    if n >= 10 {
      var s := NatToString(n);
      assert s[..|s| - 1] == NatToString(n / 10);
      DecimalValueOfNatToString(n / 10);
    }
  }

  lemma {:induction false} DecimalPrefixOfDigits(s: string)
    requires AllDigits(s)
    ensures DecimalPrefix(s) == s
    decreases |s|
  {
    if s != [] {
      DecimalPrefixOfDigits(s[1..]);
    }
  }

  lemma ParseMagnitudeOfNatToString(m: nat)
    ensures ParseMagnitude(NatToString(m)) == Some(m)
  {
    var digits := NatToString(m);
    DecimalPrefixOfDigits(digits);
    DecimalValueOfNatToString(m);
    assert |digits| >= 2 ==> IsDigit(digits[1]);
  }

  lemma TrimStartOfNonBlankStart(s: string)
    requires s != [] && !IsJsWhitespace(s[0])
    ensures TrimStart(s) == s
  {
  }

  lemma ParseSignedOfIntToString(n: int)
    ensures ParseSigned(IntToString(n)) == Some(n)
  {
    if n < 0 {
      var s := IntToString(n);
      assert s[1..] == NatToString(-n);
      ParseMagnitudeOfNatToString(-n);
    } else {
      ParseMagnitudeOfNatToString(n);
    }
  }

  /** Writing an integer with `toString()` and reading it back with `parseInt`
      gives the integer again. */
  lemma ParseIntOfIntToString(n: int)
    ensures ParseInt(IntToString(n)) == Some(n)
  {
    var s := IntToString(n);
    assert s[0] == '-' || IsDigit(s[0]);
    TrimStartOfNonBlankStart(s);
    ParseSignedOfIntToString(n);
  }
}
