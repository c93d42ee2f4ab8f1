/** `PhoneMaskDirective` (src/app/shared/directives/phone-mask.component.ts):
    the Brazilian phone mask `(00) 00000-0000` / `(00) 0000-0000` applied to
    the input's value on every `input` event, and the strip-and-remask done on
    `blur`. */
module PhoneMask {
  import opened JsText

  /** Area code plus nine digits. */
  const MaxDigits := 11

  /** `value.substring(0, 11)`. */
  function Truncate(d: string): (r: string)
    ensures |r| <= MaxDigits && |r| <= |d| && r == d[..|r|]
    ensures |d| <= MaxDigits ==> r == d
  {
    if |d| <= MaxDigits then d else d[..MaxDigits]
  }

  /** The texts captured by consecutive greedy groups `\d{0,m}` at the start
      of a digit string, one group per maximum length `m`. */
  function Capture(d: string, maxLengths: seq<nat>): (groups: seq<string>)
    ensures |groups| == |maxLengths|
    decreases maxLengths
  {
    if maxLengths == [] then []
    else
      var k := if maxLengths[0] <= |d| then maxLengths[0] else |d|;
      [d[..k]] + Capture(d[k..], maxLengths[1..])
  }

  /** The masking `replace` applied to at most 11 digits; the pattern used
      depends on how many digits there are, and each pattern captures all of
      them. */
  function Mask(d: string): (r: string)
    requires AllDigits(d) && |d| <= MaxDigits
    ensures d == [] ==> r == []
    ensures 1 <= |d| <= 2 ==> r == "(" + d
    ensures 3 <= |d| <= 6 ==> r == "(" + d[..2] + ") " + d[2..]
    ensures 7 <= |d| <= 10 ==> r == "(" + d[..2] + ") " + d[2..6] + "-" + d[6..]
    ensures |d| == 11 ==> r == "(" + d[..2] + ") " + d[2..7] + "-" + d[7..]
  {
    if |d| > 10 then
      var g := Capture(d, [2, 5, 4]);
      "(" + g[0] + ") " + g[1] + "-" + g[2]
    else if |d| > 6 then
      var g := Capture(d, [2, 4, 4]);
      "(" + g[0] + ") " + g[1] + "-" + g[2]
    else if |d| > 2 then
      var g := Capture(d, [2, 5]);
      "(" + g[0] + ") " + g[1]
    else if |d| > 0 then
      var g := Capture(d, [2]);
      "(" + g[0]
    else d
  }

  lemma DigitsOfAreaCode(a: string, rest: string)
    requires AllDigits(a)
    ensures Digits("(" + a + ") " + rest) == a + Digits(rest)
  {
    var open, close := "(", ") ";
    assert !IsDigit(open[0]) && !IsDigit(close[0]) && !IsDigit(close[1]);
    assert Digits(open) == [] && Digits(close) == [];
    var x := open + a;
    var y := x + close;
    DigitsAppend(open, a);
    assert Digits(x) == a;
    DigitsAppend(x, close);
    assert Digits(y) == a;
    DigitsAppend(y, rest);
    assert "(" + a + ") " + rest == y + rest;
  }

  lemma DigitsOfHyphenated(b: string, c: string)
    requires AllDigits(b) && AllDigits(c)
    ensures Digits(b + "-" + c) == b + c
  {
    assert Digits("-") == [];
    assert b + "-" + c == b + ("-" + c);
    DigitsAppend(b, "-" + c);
    DigitsAppend("-", c);
  }

  lemma DigitsOfFullMask(d: string, k: nat)
    requires AllDigits(d) && 2 <= k <= |d|
    ensures Digits("(" + d[..2] + ") " + d[2..k] + "-" + d[k..]) == d
  {
    var a, b, c := d[..2], d[2..k], d[k..];
    assert "(" + a + ") " + b + "-" + c == "(" + a + ") " + (b + "-" + c);
    DigitsOfAreaCode(a, b + "-" + c);
    DigitsOfHyphenated(b, c);
    assert a + (b + c) == d;
  }

  lemma DigitsOfShortMask(d: string)
    requires AllDigits(d) && 2 <= |d|
    ensures Digits("(" + d[..2] + ") " + d[2..]) == d
  {
    DigitsOfAreaCode(d[..2], d[2..]);
    assert d[..2] + d[2..] == d;
  }

  /** The mask only adds punctuation: its digits are the digits it masked. */
  lemma MaskKeepsDigits(d: string)
    requires AllDigits(d) && |d| <= MaxDigits
    ensures Digits(Mask(d)) == d
  {
    var m := Mask(d);
    if |d| > 10 {
      DigitsOfFullMask(d, 7);
    } else if |d| > 6 {
      DigitsOfFullMask(d, 6);
    } else if |d| > 2 {
      DigitsOfShortMask(d);
    } else if |d| > 0 {
      assert Digits("(") == [];
      DigitsAppend("(", d);
    }
  }

  /** `onInput`: the new value of the input element. */
  function OnInput(value: string): (r: string)
    ensures Digits(r) == Truncate(Digits(value))
    ensures Digits(value) == [] <==> r == []
  {
    var d := Truncate(Digits(value));
    MaskKeepsDigits(d);
    Mask(d)
  }

  /** `onBlur`: strip everything but digits, then let the dispatched `input`
      event mask the value again. */
  function OnBlur(value: string): (r: string)
    ensures r == OnInput(value)
  {
    assert Digits(Digits(value)) == Digits(value);
    OnInput(Digits(value))
  }

  /** Two values with the same first eleven digits mask alike. */
  lemma OnlyFirstElevenDigitsMatter(a: string, b: string)
    requires Truncate(Digits(a)) == Truncate(Digits(b))
    ensures OnInput(a) == OnInput(b)
  {
  }

  /** Masking a masked value changes nothing. */
  lemma OnInputIdempotent(value: string)
    ensures OnInput(OnInput(value)) == OnInput(value)
  {
    var d := Truncate(Digits(value));
    assert Digits(OnInput(value)) == d;
    assert Truncate(d) == d;
  }

  /** Leaving the field reproduces the masked value. */
  lemma BlurKeepsMaskedValue(value: string)
    ensures OnBlur(OnInput(value)) == OnInput(value)
  {
    OnInputIdempotent(value);
  }
}
