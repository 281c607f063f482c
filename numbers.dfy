/** JavaScript numbers as the pipeline uses them: NaN, the two infinities and
    finite values.  Finite values are exact reals, so the model has no
    floating-point rounding error; `Math.round`, `Math.max`, `Math.abs`,
    `parseFloat` and `Number.prototype.toFixed` are written out on them. */
module Numbers {
  import opened Strings

  datatype Number = NaN | Infinity(negative: bool) | Finite(x: real)

  /** Truthiness of a number: NaN and 0 are falsy. */
  predicate NonZero(n: Number) {
    n.Infinity? || (n.Finite? && n.x != 0.0)
  }

  function Pow10(d: nat): (r: nat)
    ensures r >= 1
  {
    if d == 0 then 1 else 10 * Pow10(d - 1)
  }

  /** `Math.round` on a finite value: the nearest integer, halves rounded up. */
  function RoundReal(x: real): (r: int)
    ensures x - 0.5 < r as real <= x + 0.5
  {
    (x + 0.5).Floor
  }

  /** `a - b`. */
  function Sub(a: Number, b: Number): Number {
    match (a, b)
    case (NaN, _) => NaN
    case (_, NaN) => NaN
    case (Infinity(p), Infinity(q)) => if p == q then NaN else Infinity(p)
    case (Infinity(p), Finite(_)) => Infinity(p)
    case (Finite(_), Infinity(q)) => Infinity(!q)
    case (Finite(x), Finite(y)) => Finite(x - y)
  }

  /** `a * k` for a positive constant `k`. */
  function Scale(a: Number, k: real): Number
    requires k > 0.0
  {
    match a
    case Finite(x) => Finite(x * k)
    case _ => a
  }

  /** `Math.round(n * 10^d) / 10^d`. */
  function RoundTo(n: Number, d: nat): (r: Number)
    ensures n.Finite? ==> r.Finite? && -0.5 / Pow10(d) as real < r.x - n.x <= 0.5 / Pow10(d) as real
    ensures !n.Finite? ==> r == n
  {
    match n
    case Finite(x) =>
      var p := Pow10(d) as real;
      var k := RoundReal(x * p);
      assert x * p - 0.5 < k as real <= x * p + 0.5;
      assert x - 0.5 / p < k as real / p <= x + 0.5 / p;
      Finite(k as real / p)
    case _ => n
  }

  /** `Math.max(a, b)`: NaN if either argument is NaN. */
  function Max(a: Number, b: Number): Number {
    if a.NaN? || b.NaN? then NaN
    else if Less(a, b) then b else a
  }

  /** `Math.abs(a)`. */
  function Abs(a: Number): Number {
    match a
    case NaN => NaN
    case Infinity(_) => Infinity(false)
    case Finite(x) => Finite(if x < 0.0 then -x else x)
  }

  /** `a < b`: false whenever NaN is involved. */
  predicate Less(a: Number, b: Number) {
    match (a, b)
    case (Finite(x), Finite(y)) => x < y
    case (Infinity(p), Infinity(q)) => p && !q
    case (Infinity(p), Finite(_)) => p
    case (Finite(_), Infinity(q)) => !q
    case _ => false
  }

  /** `<` is transitive. */
  lemma LessTransitive(a: Number, b: Number, c: Number)
    requires Less(a, b) && Less(b, c)
    ensures Less(a, c)
  {
  }

  /** Apart from NaN, any two numbers are equal or ordered one way. */
  lemma LessTotal(a: Number, b: Number)
    requires !a.NaN? && !b.NaN?
    ensures a == b || Less(a, b) || Less(b, a)
  {
  }

  /** `a > c` for a finite constant `c`. */
  predicate Above(a: Number, c: real) {
    Less(Finite(c), a)
  }

  // ---------------------------------------------------------------------------
  // parseFloat

  /** The end of the run of decimal digits that starts at `i`. */
  function DigitRun(s: string, i: nat): (j: nat)
    requires i <= |s|
    ensures i <= j <= |s|
    ensures forall k :: i <= k < j ==> IsDigit(s[k])
    ensures j < |s| ==> !IsDigit(s[j])
    decreases |s| - i
  {
    if i < |s| && IsDigit(s[i]) then DigitRun(s, i + 1) else i
  }

  /** The value of a string of decimal digits. */
  function DigitsValue(ds: string): nat {
    if ds == [] then 0
    else 10 * DigitsValue(ds[..|ds| - 1]) + (if IsDigit(ds[|ds| - 1]) then ds[|ds| - 1] as int - '0' as int else 0)
  }

  /** The exponent `e[+-]digits` at position `j`, if one is there. */
  function ExponentAt(s: string, j: nat): int
    requires j <= |s|
  {
    if j < |s| && (s[j] == 'e' || s[j] == 'E') then
      var neg := j + 1 < |s| && s[j + 1] == '-';
      var k := if j + 1 < |s| && (s[j + 1] == '-' || s[j + 1] == '+') then j + 2 else j + 1;
      if k <= |s| then
        var m := DigitRun(s, k);
        if m == k then 0
        else if neg then -(DigitsValue(s[k..m]) as int) else DigitsValue(s[k..m]) as int
      else 0
    else 0
  }

  /** `v * 10^e`, one factor of ten at a time. */
  function Shift10(v: real, e: int): real
    decreases if e >= 0 then e else -e
  {
    if e == 0 then v
    else if e > 0 then 10.0 * Shift10(v, e - 1)
    else Shift10(v, e + 1) / 10.0
  }

  /** `parseFloat(s)`: skip leading white space, then read the longest prefix that
      is a signed decimal literal (with optional fraction and exponent) or
      `Infinity`; NaN when there is none. */
  function ParseFloat(s: string): (r: Number)
    ensures r.Infinity? ==> Contains(s, "Infinity")
  {
    var t := TrimStart(s);
    var neg := |t| > 0 && t[0] == '-';
    var u := if |t| > 0 && (t[0] == '-' || t[0] == '+') then t[1..] else t;
    if StartsWith(u, "Infinity") then
      assert OccursAt(s, "Infinity", |s| - |u|) by {
        assert s[|s| - |u|..] == u;
        assert s[|s| - |u|..|s| - |u| + 8] == u[..8];
      }
      Infinity(neg)
    else
      var i := DigitRun(u, 0);
      var hasDot := i < |u| && u[i] == '.';
      var j := if hasDot then DigitRun(u, i + 1) else i;
      if i == 0 && j <= i + 1 then NaN
      else
        // the digits before and after the point read as one integer, then
        // shifted by the exponent less the number of fraction digits
        var fraction := if hasDot then u[i + 1..j] else "";
        var v := Shift10(DigitsValue(u[..i] + fraction) as real, ExponentAt(u, j) - |fraction|);
        Finite(if neg then -v else v)
  }

  // ---------------------------------------------------------------------------
  // Number(s)

  /** Where the decimal literal that `parseFloat` reads from the front of the
      unsigned text `u` ends: after `Infinity`, or after the digits, the
      fraction and an exponent that has digits; -1 when there is none. */
  function DecimalLiteralEnd(u: string): (e: int)
    ensures -1 <= e <= |u|
  {
    if StartsWith(u, "Infinity") then 8
    else
      var i := DigitRun(u, 0);
      var hasDot := i < |u| && u[i] == '.';
      var j := if hasDot then DigitRun(u, i + 1) else i;
      if i == 0 && j <= i + 1 then -1
      else if j < |u| && (u[j] == 'e' || u[j] == 'E') then
        var k := if j + 1 < |u| && (u[j + 1] == '-' || u[j + 1] == '+') then j + 2 else j + 1;
        var m := DigitRun(u, k);
        if m == k then j else m
      else j
  }

  /** The value of digit `c` in base 16, or -1 when it is not a hexadecimal digit. */
  function HexDigit(c: char): (d: int)
    ensures -1 <= d < 16
  {
    if '0' <= c <= '9' then c as int - '0' as int
    else if 'a' <= c <= 'f' then c as int - 'a' as int + 10
    else if 'A' <= c <= 'F' then c as int - 'A' as int + 10
    else -1
  }

  /** Every character of `ds` is a digit of base `radix`. */
  predicate RadixDigits(ds: string, radix: nat) {
    forall i :: 0 <= i < |ds| ==> 0 <= HexDigit(ds[i]) < radix
  }

  /** The value of the digits `ds` in base `radix`. */
  function RadixValue(ds: string, radix: nat): nat
    requires RadixDigits(ds, radix)
    decreases |ds|
  {
    if ds == [] then 0
    else RadixValue(ds[..|ds| - 1], radix) * radix + HexDigit(ds[|ds| - 1])
  }

  /** The base a `0x`, `0o` or `0b` prefix announces, or 0 when there is none. */
  function RadixOf(t: string): (radix: nat)
    ensures radix in {0, 2, 8, 16}
  {
    if |t| < 2 || t[0] != '0' then 0
    else if t[1] == 'x' || t[1] == 'X' then 16
    else if t[1] == 'o' || t[1] == 'O' then 8
    else if t[1] == 'b' || t[1] == 'B' then 2
    else 0
  }

  /** `Number(s)` for a string, which is also how `-` and `*` convert a
      string operand: white space is trimmed, empty text is 0, and otherwise
      the whole text must be one numeric literal (a signed decimal literal or
      `Infinity`, or an unsigned `0x`, `0o` or `0b` integer); anything else
      is NaN. */
  function StringToNumber(s: string): Number {
    var t := Trim(s);
    if t == "" then Finite(0.0)
    else if RadixOf(t) != 0 then
      var ds := t[2..];
      if ds != "" && RadixDigits(ds, RadixOf(t)) then Finite(RadixValue(ds, RadixOf(t)) as real) else NaN
    else
      var u := if t[0] == '-' || t[0] == '+' then t[1..] else t;
      if DecimalLiteralEnd(u) == |u| then ParseFloat(t) else NaN
  }

  /** The digits of a natural number read back as that number. */
  lemma {:induction false} NatTextValue(n: nat)
    ensures DigitsValue(NatText(n)) == n
  {
    if n >= 10 {
      NatTextValue(n / 10);
      var t := NatText(n / 10);
      assert (t + [(n % 10 + '0' as int) as char])[..|t|] == t;
    }
  }

  /** `Number(String(n))` is `n` for every natural number `n`. */
  lemma NumberOfNatText(n: nat)
    ensures StringToNumber(NatText(n)) == Finite(n as real)
  {
    var t := NatText(n);
    assert Trim(t) == t by {
      assert !IsSpace(t[0]) && !IsSpace(t[|t| - 1]);
    }
    assert RadixOf(t) == 0 by {
      if |t| >= 2 {
        assert IsDigit(t[1]);
      }
    }
    DigitRunToEnd(t, 0);
    ReadDigits(t);
    NatTextValue(n);
  }

  /** A text of decimal digits is one whole decimal literal, read as its value. */
  lemma ReadDigits(t: string)
    requires t != [] && DigitRun(t, 0) == |t|
    ensures DecimalLiteralEnd(t) == |t|
    ensures ParseFloat(t) == Finite(DigitsValue(t) as real)
  {
    assert IsDigit(t[0]);
    NotInfinity(t);
    assert !IsSpace(t[0]);
    TrimStartNone(t);
    assert t[..|t|] + "" == t;
    assert ExponentAt(t, |t|) == 0;
  }

  /** A text that starts with a digit does not start with "Infinity". */
  lemma NotInfinity(t: string)
    requires t != [] && IsDigit(t[0])
    ensures !StartsWith(t, "Infinity")
    ensures t[0] != '-' && t[0] != '+'
  {
    if |t| >= 8 {
      assert t[..8][0] == t[0];
    }
  }

  /** A text of digits from `i` on is one digit run. */
  lemma {:induction false} DigitRunToEnd(s: string, i: nat)
    requires i <= |s|
    requires forall k :: i <= k < |s| ==> IsDigit(s[k])
    ensures DigitRun(s, i) == |s|
    decreases |s| - i
  {
    if i < |s| {
      DigitRunToEnd(s, i + 1);
    }
  }

  /** `Number` refuses text after the number, which `parseFloat` ignores. */
  lemma NumberRefusesTrailingText()
    ensures ParseFloat("0.5x") == Finite(0.5) && StringToNumber("0.5x") == NaN
  {
    var t := "0.5x";
    assert TrimStart(t) == t && Trim(t) == t;
    assert !StartsWith(t, "Infinity");
    assert DigitRun(t, 0) == 1 by { assert DigitRun(t, 1) == 1; }
    assert DigitRun(t, 2) == 3 by { assert DigitRun(t, 3) == 3; }
    assert t[..1] + t[2..3] == "05";
    assert DigitsValue("05") == 5 by { assert "05"[..1] == "0"; }
    assert ExponentAt(t, 3) == 0;
    assert DecimalLiteralEnd(t) == 3;
  }

  /** `Number` honours a hexadecimal prefix, where `parseFloat` stops at the `x`. */
  lemma NumberReadsHex()
    ensures ParseFloat("0x10") == Finite(0.0) && StringToNumber("0x10") == Finite(16.0)
  {
    var t := "0x10";
    assert TrimStart(t) == t && Trim(t) == t;
    assert !StartsWith(t, "Infinity");
    assert DigitRun(t, 0) == 1 by { assert DigitRun(t, 1) == 1; }
    assert t[..1] + "" == "0";
    assert ExponentAt(t, 1) == 0;
    assert RadixOf(t) == 16;
    assert t[2..] == "10";
    assert DigitsValue("0") == 0;
    assert RadixDigits("10", 16);
    assert RadixValue("1", 16) == 1 by { assert "1"[..0] == ""; }
    assert RadixValue("10", 16) == 16 by { assert "10"[..1] == "1"; }
  }

  /** `Number` refuses an exponent without digits, which `parseFloat` drops. */
  lemma NumberRefusesBareExponent()
    ensures ParseFloat("1e") == Finite(1.0) && StringToNumber("1e") == NaN
  {
    var t := "1e";
    assert TrimStart(t) == t && Trim(t) == t;
    assert !StartsWith(t, "Infinity");
    assert DigitRun(t, 0) == 1 by { assert DigitRun(t, 1) == 1; }
    assert DigitRun(t, 2) == 2;
    assert t[..1] + "" == "1";
    assert DigitsValue("1") == 1;
    assert ExponentAt(t, 1) == 0;
    assert RadixOf(t) == 0;
    assert DecimalLiteralEnd(t) == 1;
  }

  // ---------------------------------------------------------------------------
  // Number to text

  lemma DivModBounds(k: nat, p: nat)
    requires p >= 1
    ensures k / p >= 0 && 0 <= k % p < p
  {
  }

  /** `k / 10^d` written with exactly `d` decimals. */
  function FixedDigits(k: nat, d: nat): string {
    if d == 0 then NatText(k)
    else
      var p := Pow10(d);
      DivModBounds(k, p);
      NatText(k / p) + "." + PadStart(NatText(k % p), d, '0')
  }

  /** `n.toFixed(d)`: the value rounded to `d` decimals (halves away from zero),
      with a minus sign for every negative value. */
  function ToFixed(n: Number, d: nat): string {
    match n
    case NaN => "NaN"
    case Infinity(neg) => if neg then "-Infinity" else "Infinity"
    case Finite(x) =>
      var y := if x < 0.0 then -x else x;
      var k := RoundReal(y * Pow10(d) as real);
      (if x < 0.0 then "-" else "") + FixedDigits(if k < 0 then 0 else k, d)
  }

  /** The fewest decimals, at most 20, that write `x` exactly. */
  function DecimalsNeeded(x: real, d: nat): nat
    requires d <= 20
    decreases 20 - d
  {
    var scaled := x * Pow10(d) as real;
    if scaled == scaled.Floor as real || d == 20 then d else DecimalsNeeded(x, d + 1)
  }

  /** `String(n)` (and template-literal interpolation) for a number.  Values
      whose decimal expansion ends within 20 places are written exactly. */
  function NumberText(n: Number): string {
    match n
    case NaN => "NaN"
    case Infinity(neg) => if neg then "-Infinity" else "Infinity"
    case Finite(x) =>
      if x == x.Floor as real then IntText(x.Floor) else ToFixed(n, DecimalsNeeded(x, 0))
  }
}
