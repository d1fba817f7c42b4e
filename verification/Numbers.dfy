/** Numbers, with decimal fractions and exponents read as exact reals. */
module Numbers {
  import opened Results
  import opened Bytes

  predicate IsDigit(b: Byte) {
    48 <= b <= 57
  }

  /** What parse_number copies for strtod. */
  predicate IsNumberByte(b: Byte) {
    IsDigit(b) || b == PLUS || b == MINUS || b == POINT || IsE(b)
  }

  predicate IsE(b: Byte) {
    b == 69 || b == 101
  }

  predicate IsSign(b: Byte) {
    b == PLUS || b == MINUS
  }

  // ----- strtod on such bytes -----

  /** The end of the run of digits that starts at k. */
  function DigitsEnd(t: Text, k: nat): (e: nat)
    requires k <= |t|
    ensures k <= e <= |t|
    ensures forall j :: k <= j < e ==> IsDigit(t[j])
    ensures e < |t| ==> !IsDigit(t[e])
    decreases |t| - k
  {
    if k < |t| && IsDigit(t[k]) then DigitsEnd(t, k + 1) else k
  }

  function DigitsValue(t: Text): nat
    requires forall j :: 0 <= j < |t| ==> IsDigit(t[j])
  {
    if t == [] then 0
    else
      assert IsDigit(t[|t| - 1]);
      DigitsValue(t[..|t| - 1]) * 10 + (t[|t| - 1] as int - ZERO as int)
  }

  /** x times ten to the power e. */
  function Scale(x: real, e: int): real
    decreases if e < 0 then -e else e
  {
    if e == 0 then x else if e > 0 then Scale(x * 10.0, e - 1) else Scale(x / 10.0, e + 1)
  }

  /** Where the exponent part at k ends; k itself if there is none. */
  function ExponentEnd(t: Text, k: nat): (e: nat)
    requires k <= |t|
    ensures k <= e <= |t|
  {
    if k < |t| && IsE(t[k]) then
      var d := if k + 1 < |t| && IsSign(t[k + 1]) then k + 2 else k + 1;
      var e := DigitsEnd(t, d);
      if e > d then e else k
    else k
  }

  function Exponent(t: Text, k: nat): int
    requires k <= |t|
  {
    if ExponentEnd(t, k) == k then 0
    else
      var d := if IsSign(t[k + 1]) then k + 2 else k + 1;
      var v: int := DigitsValue(t[d..ExponentEnd(t, k)]);
      if t[k + 1] == MINUS then -v else v
  }

  datatype Conversion = Conversion(value: real, length: nat)

  /** strtod: the longest prefix that is a number. Length 0: there is none. */
  function Strtod(t: Text): (r: Conversion)
    ensures r.length <= |t|
  {
    var sign := if t != [] && IsSign(t[0]) then 1 else 0;
    var a := DigitsEnd(t, sign);
    var b := if a < |t| && t[a] == POINT then DigitsEnd(t, a + 1) else a;
    var fraction := if b > a then t[a + 1..b] else [];
    if a == sign && fraction == [] then Conversion(0.0, 0)
    else
      assert forall j :: 0 <= j < |fraction| ==> fraction[j] == t[a + 1 + j];
      var x := Scale(DigitsValue(t[sign..a] + fraction) as real, Exponent(t, b) - |fraction|);
      Conversion(if sign == 1 && t[0] == MINUS then -x else x, ExponentEnd(t, b))
  }

  /** parse_number looks at 63 bytes at most. */
  const LONGEST := 63

  function RunEnd(c: Text, i: nat, most: nat): (e: nat)
    requires i <= |c|
    ensures i <= e <= |c| && e <= i + most
    ensures forall j :: i <= j < e ==> IsNumberByte(c[j])
    decreases most
  {
    if most > 0 && i < |c| && IsNumberByte(c[i]) then RunEnd(c, i + 1, most - 1) else i
  }

  lemma RunGoesOn(c: Text, i: nat, most: nat)
    requires i <= |c|
    ensures RunEnd(c, i, most) == if most > 0 && i < |c| && IsNumberByte(c[i]) then RunEnd(c, i + 1, most - 1) else i
  {
  }

  // ----- %1.15g on integers of up to fifteen digits -----

  const TOO_LARGE := 1_000_000_000_000_000

  function Digits(n: nat): (t: Text)
    ensures |t| > 0 && forall j :: 0 <= j < |t| ==> IsDigit(t[j])
    ensures DigitsValue(t) == n
  {
    if n < 10 then
      var t: Text := [ZERO + n];
      assert t[..0] == [];
      t
    else
      var t: Text := Digits(n / 10);
      var last: Text := [ZERO + n % 10];
      assert (t + last)[..|t|] == t;
      t + last
  }

  function IntText(n: int): (t: Text)
    ensures |t| > 0
  {
    if n < 0 then [MINUS] + Digits(-n) else Digits(n)
  }

  lemma {:induction false} DigitsAreFew(n: nat, k: nat)
    requires k > 0 && n < Power(k)
    ensures |Digits(n)| <= k
    decreases k
  {
    assert Power(0) == 1;
    if n >= 10 {
      DigitsAreFew(n / 10, k - 1);
    }
  }

  function Power(k: nat): nat {
    if k == 0 then 1 else 10 * Power(k - 1)
  }

  lemma FifteenDigits()
    ensures Power(15) == TOO_LARGE
  {
    assert Power(5) == 100_000;
    assert Power(10) == 10_000_000_000;
  }

  /** No more than sixteen bytes. */
  lemma IntTextIsShort(n: int)
    requires -TOO_LARGE < n < TOO_LARGE
    ensures |IntText(n)| <= 16
  {
    FifteenDigits();
    DigitsAreFew(if n < 0 then -n else n, 15);
  }

  lemma RunIsText(c: Text, i: nat, k: nat, t: Text, most: nat)
    requires Has(c, i, t) && k <= |t| <= k + most && i + |t| < |c| && !IsNumberByte(c[i + |t|])
    requires forall j :: 0 <= j < |t| ==> IsNumberByte(t[j])
    ensures RunEnd(c, i + k, most) == i + |t|
    decreases |t| - k
  {
    if k < |t| {
      HasByte(c, i, t, k);
      RunIsText(c, i, k + 1, t, most - 1);
    }
  }

  /** The number at i, if strtod finds one in the bytes that are copied for it. */
  function NumberAt(c: Text, i: nat): (r: Option<Parsed<real>>)
    requires i <= |c|
    ensures r.Some? ==> i < r.value.next <= RunEnd(c, i, LONGEST)
  {
    var s := Strtod(c[i..RunEnd(c, i, LONGEST)]);
    if s.length == 0 then None else Some(Parsed(s.value, i + s.length))
  }

  /** What ends behind a text of number bytes is that text. */
  lemma NumberTextIsFound(c: Text, i: nat, t: Text)
    requires Has(c, i, t) && |t| <= LONGEST && i + |t| < |c| && !IsNumberByte(c[i + |t|])
    requires forall j :: 0 <= j < |t| ==> IsNumberByte(t[j])
    ensures NumberAt(c, i)
         == if Strtod(t).length == 0 then None else Some(Parsed(Strtod(t).value, i + Strtod(t).length))
  {
    hide RunEnd, Strtod, Has, IsNumberByte;
    HasIsSlice(c, i, t);
    RunIsText(c, i, 0, t, LONGEST);
  }
}
