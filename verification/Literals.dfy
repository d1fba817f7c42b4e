/**
 The parser reads every string and every number of the grammar as what it means.
 */
module Literals {
  import opened Results
  import opened Bytes
  import opened Utf
  import opened Strings
  import opened Numbers
  import opened Grammar

  // ----- Strings -----

  lemma {:induction false} PlainIsScanned(c: Text, i: nat, n: nat)
    requires i + n <= |c| && forall k :: i <= k < i + n ==> c[k] != QUOTE && c[k] != BACKSLASH
    ensures ScanEnd(c, i) == ScanEnd(c, i + n)
    decreases n
  {
    if n > 0 {
      PlainIsScanned(c, i + 1, n - 1);
    }
  }

  lemma HexDigitIs(v: nat, capital: bool)
    requires v < 16
    ensures Spells(HexDigit(v, capital), v)
    ensures HexDigit(v, capital) != QUOTE && HexDigit(v, capital) != BACKSLASH
  {
  }

  lemma QuadStands(c: Text, i: nat, q: Quad)
    requires Has(c, i, WrittenQuad(q))
    ensures IsQuad(c, i, q.w) && ScanEnd(c, i) == ScanEnd(c, i + 4)
  {
    hide Has, ScanEnd, Spells, HexDigit;
    HexDigitIs(q.w / 4096, q.capitals.0);
    HexDigitIs(q.w / 256 % 16, q.capitals.1);
    HexDigitIs(q.w / 16 % 16, q.capitals.2);
    HexDigitIs(q.w % 16, q.capitals.3);
    HasByte(c, i, WrittenQuad(q), 0);
    HasByte(c, i, WrittenQuad(q), 1);
    HasByte(c, i, WrittenQuad(q), 2);
    HasByte(c, i, WrittenQuad(q), 3);
    PlainIsScanned(c, i, 4);
  }

  lemma UnitStands(c: Text, i: nat, q: Quad, end: nat)
    requires Has(c, i, [92, 117] + WrittenQuad(q)) && i + 6 <= end < |c|
    ensures IsUnit(c, i, end, q.w) && ScanEnd(c, i) == ScanEnd(c, i + 6)
  {
    hide Has, IsQuad, WrittenQuad;
    HasParts(c, i, [92, 117], WrittenQuad(q));
    HasByte(c, i, [92, 117], 0);
    HasByte(c, i, [92, 117], 1);
    QuadStands(c, i + 2, q);
  }

  lemma ShortStands(c: Text, i: nat, letter: Byte, end: nat)
    requires Has(c, i, [92, letter]) && letter in SHORT_FORMS && i + 2 <= end < |c|
    ensures NextStep(c, i, end) == Step(2, [SHORT_FORMS[letter]]) && ScanEnd(c, i) == ScanEnd(c, i + 2)
  {
    hide Has, ReadLiteral, Utf8;
    HasByte(c, i, [92, letter], 0);
    HasByte(c, i, [92, letter], 1);
  }

  lemma OneUnitStep(c: Text, i: nat, q: Quad, octets: Text, end: nat)
    requires IsUnit(c, i, end, q.w) && i + 6 <= end < |c| && IsUtf8(octets, q.w)
    ensures NextStep(c, i, end) == Step(6, octets)
  {
    hide IsQuad, ReadLiteral, Utf8, IsSequence;
    OneUnitIsRead(c, i, end, q.w);
    Utf8MeetsTheStandard(q.w, octets);
  }

  lemma TwoUnitsStep(c: Text, i: nat, high: Quad, low: Quad, octets: Text, end: nat)
    requires IsUnit(c, i, end, high.w) && IsUnit(c, i + 6, end, low.w) && i + 12 <= end < |c|
    requires IsHighSurrogate(high.w) && IsLowSurrogate(low.w) && IsUtf8(octets, OfPair(high.w, low.w))
    ensures NextStep(c, i, end) == Step(12, octets)
  {
    hide IsQuad, ReadLiteral, Utf8, IsSequence;
    PairIsRead(c, i, end, high.w, low.w);
    Utf8MeetsTheStandard(OfPair(high.w, low.w), octets);
  }

  /** Both scans step over a piece, and the second writes what it stands for. */
  lemma PieceIsRead(c: Text, i: nat, p: Piece, end: nat)
    requires PieceOk(p) && Has(c, i, WrittenPiece(p)) && i + |WrittenPiece(p)| <= end < |c|
    ensures |WrittenPiece(p)| > 0 && NextStep(c, i, end) == Step(|WrittenPiece(p)|, PieceBytes(p))
    ensures ScanEnd(c, i) == ScanEnd(c, i + |WrittenPiece(p)|)
  {
    hide Has, NextStep, IsUnit, IsUtf8, WrittenQuad;
    match p
    case Plain(b) =>
      HasByte(c, i, [b], 0);
      PlainStep(c, i, end);
    case Short(letter) => ShortStands(c, i, letter, end);
    case Unit(quad, octets) =>
      UnitStands(c, i, quad, end);
      OneUnitStep(c, i, quad, octets, end);
    case Surrogates(high, low, octets) =>
      var first, second := [92, 117] + WrittenQuad(high), [92, 117] + WrittenQuad(low);
      assert WrittenPiece(p) == first + second;
      HasParts(c, i, first, second);
      UnitStands(c, i, high, end);
      UnitStands(c, i + 6, low, end);
      TwoUnitsStep(c, i, high, low, octets, end);
  }

  lemma PlainStep(c: Text, i: nat, end: nat)
    requires i < end < |c| && c[i] != BACKSLASH
    ensures NextStep(c, i, end) == Step(1, [c[i]])
  {
  }

  lemma DecodeStep(c: Text, i: nat, end: nat, s: Step)
    requires i < end < |c| && NextStep(c, i, end) == s && s.length > 0
    ensures Decode(c, i, end) == Prepend(s.output, Decode(c, i + s.length, end))
  {
  }

  lemma {:induction false} PiecesAreRead(c: Text, i: nat, ps: seq<Piece>)
    requires PiecesOk(ps) && Has(c, i, WrittenPieces(ps)) && Has(c, i + |WrittenPieces(ps)|, [34])
    ensures var end := i + |WrittenPieces(ps)|;
            end < |c| && ScanEnd(c, i) == Some(end) && Decode(c, i, end) == Some(StringBytes(ps))
    decreases |ps|
  {
    hide Has, WrittenPiece, PieceBytes, PieceOk, NextStep;
    var end := i + |WrittenPieces(ps)|;
    HasByte(c, end, [34], 0);
    if ps != [] {
      hide Decode, ScanEnd;
      var n := |WrittenPiece(ps[0])|;
      HasParts(c, i, WrittenPiece(ps[0]), WrittenPieces(ps[1..]));
      PiecesAreRead(c, i + n, ps[1..]);
      PieceIsRead(c, i, ps[0], end);
      DecodeStep(c, i, end, Step(n, PieceBytes(ps[0])));
    }
  }

  lemma StringIsRead(c: Text, i: nat, ps: seq<Piece>)
    requires PiecesOk(ps) && Has(c, i, WrittenString(ps))
    ensures StringAt(c, i) == Some(Parsed(CString(StringBytes(ps)), i + |WrittenString(ps)|))
    ensures i < |c| && c[i] == 34
  {
    hide Has, Decode, ScanEnd, WrittenPieces, StringBytes, PiecesOk;
    HasParts(c, i, [34] + WrittenPieces(ps), [34]);
    HasParts(c, i, [34], WrittenPieces(ps));
    HasByte(c, i, [34], 0);
    PiecesAreRead(c, i + 1, ps);
  }

  // ----- Numbers -----

  lemma {:induction false} ScaleUp(x: real, k: nat)
    ensures Scale(x, k) == x * TenTo(k)
    decreases k
  {
    if k > 0 {
      ScaleUp(x * 10.0, k - 1);
      assert x * 10.0 * TenTo(k - 1) == x * (10.0 * TenTo(k - 1));
    }
  }

  lemma {:induction false} ScaleDown(x: real, k: nat)
    ensures Scale(x, -(k as int)) == x / TenTo(k)
    decreases k
  {
    if k > 0 {
      ScaleDown(x / 10.0, k - 1);
      TwoDivisions(x, 10.0, TenTo(k - 1));
    }
  }

  lemma TwoDivisions(x: real, a: real, b: real)
    requires a > 0.0 && b > 0.0
    ensures a * b > 0.0 && x / a / b == x / (a * b)
  {
    var y := x / a / b;
    assert y * b == x / a;
    assert y * (a * b) == y * b * a == x;
  }

  lemma {:induction false} TenToSum(j: nat, k: nat)
    ensures TenTo(j + k) == TenTo(j) * TenTo(k)
    decreases j
  {
    if j > 0 {
      TenToSum(j - 1, k);
      assert 10.0 * (TenTo(j - 1) * TenTo(k)) == 10.0 * TenTo(j - 1) * TenTo(k);
    }
  }

  /** Scaling in one go, or first to the fraction. */
  lemma ScaleTwice(x: real, e: int, f: nat)
    ensures Scale(x, e - f) == if e >= 0 then x / TenTo(f) * TenTo(e) else x / TenTo(f) / TenTo(-e)
  {
    hide Scale, TenTo;
    if e < 0 {
      ScaleDown(x, f - e);
      TenToSum(f, -e);
      TwoDivisions(x, TenTo(f), TenTo(-e));
    } else if e < f {
      ScaleDown(x, f - e);
      TenToSum(f - e, e);
      SmallerShift(x, TenTo(f - e), TenTo(e));
    } else {
      ScaleUp(x, e - f);
      TenToSum(e - f, f);
      LargerShift(x, TenTo(e - f), TenTo(f));
    }
  }

  lemma SmallerShift(x: real, a: real, b: real)
    requires a > 0.0 && b > 0.0
    ensures a * b > 0.0 && x / (a * b) * b == x / a
  {
    TwoDivisions(x, a, b);
  }

  lemma LargerShift(x: real, a: real, b: real)
    requires a > 0.0 && b > 0.0
    ensures x / b * (a * b) == x * a
  {
    assert x / b * (a * b) == x / b * b * a;
  }

  lemma OneMoreDigit(a: real, t: real, b: real, sum: real, d: real)
    requires sum == a * t + b
    ensures sum * 10.0 + d == a * (10.0 * t) + (b * 10.0 + d)
  {
  }

  lemma LastDigit(ds: seq<Digit>)
    requires ds != []
    ensures Decimal(ds) as real == (Decimal(ds[..|ds| - 1]) as real) * 10.0 + (ds[|ds| - 1] as real)
    ensures TenTo(|ds|) == 10.0 * TenTo(|ds| - 1)
  {
  }

  /** The digits of a, and then those of b. */
  predicate Sums(a: seq<Digit>, b: seq<Digit>) {
    Decimal(a + b) as real == (Decimal(a) as real) * TenTo(|b|) + (Decimal(b) as real)
  }

  lemma SumsWithNone(a: seq<Digit>)
    ensures Sums(a, [])
  {
    assert a + [] == a;
    TenToNothing(Decimal(a) as real);
  }

  lemma SumsWithOneMore(a: seq<Digit>, b: seq<Digit>)
    requires b != [] && Sums(a, b[..|b| - 1])
    ensures Sums(a, b)
  {
    hide Decimal, TenTo;
    var rest, d := b[..|b| - 1], b[|b| - 1];
    assert (a + b)[..|a + b| - 1] == a + rest;
    LastDigit(a + b);
    LastDigit(b);
    OneMoreDigit(Decimal(a) as real, TenTo(|rest|), Decimal(rest) as real, Decimal(a + rest) as real, d as real);
  }

  lemma {:induction false} DecimalSum(a: seq<Digit>, b: seq<Digit>)
    ensures Sums(a, b)
    decreases |b|
  {
    if b == [] {
      SumsWithNone(a);
    } else {
      DecimalSum(a, b[..|b| - 1]);
      SumsWithOneMore(a, b);
    }
  }

  lemma {:induction false} DigitsAreRead(ds: seq<Digit>)
    ensures forall k :: 0 <= k < |ds| ==> IsDigit(WrittenDigits(ds)[k])
    ensures DigitsValue(WrittenDigits(ds)) == Decimal(ds)
    decreases |ds|
  {
    if ds != [] {
      DigitsAreRead(ds[..|ds| - 1]);
      assert WrittenDigits(ds)[..|ds| - 1] == WrittenDigits(ds[..|ds| - 1]);
    }
  }

  lemma {:induction false} DigitsEndIs(t: Text, k: nat, e: nat)
    requires k <= e <= |t| && (forall j :: k <= j < e ==> IsDigit(t[j])) && (e < |t| ==> !IsDigit(t[e]))
    ensures DigitsEnd(t, k) == e
    decreases e - k
  {
    if k < e {
      DigitsEndIs(t, k + 1, e);
    }
  }

  lemma DigitsStand(t: Text, k: nat, ds: seq<Digit>)
    requires Has(t, k, WrittenDigits(ds)) && (k + |ds| < |t| ==> !IsDigit(t[k + |ds|]))
    ensures DigitsEnd(t, k) == k + |ds| && t[k..k + |ds|] == WrittenDigits(ds)
  {
    hide Has;
    HasIsSlice(t, k, WrittenDigits(ds));
    DigitsAreRead(ds);
    forall j | k <= j < k + |ds|
      ensures IsDigit(t[j])
    {
      HasByte(t, k, WrittenDigits(ds), j - k);
    }
    DigitsEndIs(t, k, k + |ds|);
  }

  /** The exponent as an integer. */
  function Shift(e: Exponential): int {
    match e
    case NoExponent => 0
    case TimesTenTo(_, sign, digits) => if sign == [45] then -(Decimal(digits) as int) else Decimal(digits)
  }

  /** Where the digits of the exponent begin. */
  lemma ExponentBegins(t: Text, k: nat, letter: Byte, sign: Text, digits: seq<Digit>)
    requires Has(t, k, [letter] + sign + WrittenDigits(digits)) && (sign == [] || sign == [43] || sign == [45])
    requires digits != []
    ensures var d := k + 1 + |sign|;
            && d < |t| && t[k] == letter && Has(t, d, WrittenDigits(digits))
            && IsSign(t[k + 1]) == (sign != []) && (t[k + 1] == MINUS) == (sign == [45])
  {
    hide Has, WrittenDigits;
    HasParts(t, k, [letter] + sign, WrittenDigits(digits));
    HasParts(t, k, [letter], sign);
    HasByte(t, k, [letter], 0);
    DigitsAreRead(digits);
    HasByte(t, k + 1 + |sign|, WrittenDigits(digits), 0);
    if sign != [] {
      HasByte(t, k + 1, sign, 0);
    }
  }

  lemma ExponentIsRead(t: Text, k: nat, e: Exponential)
    requires ExponentialOk(e) && Has(t, k, WrittenExponential(e)) && k + |WrittenExponential(e)| == |t|
    ensures ExponentEnd(t, k) == |t| && Exponent(t, k) == Shift(e)
  {
    hide Has, WrittenDigits, Decimal, DigitsValue, DigitsEnd;
    match e
    case NoExponent =>
    case TimesTenTo(letter, sign, digits) =>
      var d := k + 1 + |sign|;
      ExponentBegins(t, k, letter, sign, digits);
      DigitsAreRead(digits);
      DigitsStand(t, d, digits);
      assert t[d..ExponentEnd(t, k)] == WrittenDigits(digits);
  }

  lemma FractionIsRead(t: Text, k: nat, ds: seq<Digit>)
    requires Has(t, k, WrittenFraction(ds))
    requires var e := k + |WrittenFraction(ds)|;
             e < |t| ==> !IsDigit(t[e]) && t[e] != POINT
    ensures var e := if k < |t| && t[k] == POINT then DigitsEnd(t, k + 1) else k;
            && e == k + |WrittenFraction(ds)|
            && (if e > k then t[k + 1..e] else []) == WrittenDigits(ds)
  {
    hide Has, DigitsEnd, WrittenDigits, IsDigit;
    if ds == [] {
      NoDigits();
    } else {
      HasParts(t, k, [46], WrittenDigits(ds));
      HasByte(t, k, [46], 0);
      DigitsStand(t, k + 1, ds);
    }
  }

  lemma NoDigits()
    ensures WrittenDigits([]) == []
  {
  }

  /** Where the parts of a numeral stand. */
  lemma FigureParts(f: Figure)
    requires FigureOk(f)
    ensures var t := WrittenFigure(f);
            var a := |WrittenMinus(f.minus)|;
            var b := a + |f.whole|;
            var e := b + |WrittenFraction(f.fraction)|;
            && a < b <= e <= |t| && e + |WrittenExponential(f.exponential)| == |t|
            && Has(t, a, WrittenDigits(f.whole)) && Has(t, b, WrittenFraction(f.fraction))
            && Has(t, e, WrittenExponential(f.exponential))
            && t[0] == (if f.minus then MINUS else t[0]) && (IsSign(t[0]) <==> f.minus)
  {
    hide Has, WrittenDigits, WrittenFraction, WrittenExponential;
    var t := WrittenFigure(f);
    var m, w, p, x := WrittenMinus(f.minus), WrittenDigits(f.whole), WrittenFraction(f.fraction),
        WrittenExponential(f.exponential);
    HasAll(t);
    HasParts(t, 0, m + w + p, x);
    HasParts(t, 0, m + w, p);
    HasParts(t, 0, m, w);
    DigitsAreRead(f.whole);
    HasByte(t, |m|, w, 0);
    if f.minus {
      HasByte(t, 0, m, 0);
    }
  }

  lemma HasAll(t: Text)
    ensures Has(t, 0, t)
  {
  }

  /** What ends the digits of the whole part, and those of the fraction. */
  lemma FractionBegins(t: Text, k: nat, f: Figure)
    requires FigureOk(f) && Has(t, k, WrittenFraction(f.fraction))
    requires var e := k + |WrittenFraction(f.fraction)|;
             Has(t, e, WrittenExponential(f.exponential)) && e + |WrittenExponential(f.exponential)| == |t|
    ensures k < |t| ==> !IsDigit(t[k])
    ensures var e := k + |WrittenFraction(f.fraction)|;
            e < |t| ==> !IsDigit(t[e]) && t[e] != POINT
  {
    hide Has, WrittenDigits;
    var e := k + |WrittenFraction(f.fraction)|;
    if f.fraction != [] {
      HasByte(t, k, WrittenFraction(f.fraction), 0);
    }
    if f.exponential.TimesTenTo? {
      HasByte(t, e, WrittenExponential(f.exponential), 0);
    }
  }

  lemma FigureScaled(f: Figure)
    ensures Scale(Decimal(f.whole + f.fraction) as real, Shift(f.exponential) - |f.fraction|) == Magnitude(f)
  {
    hide Scale, Decimal, TenTo;
    var n, ten := |f.fraction|, TenTo(|f.fraction|);
    var x, w, p := Decimal(f.whole + f.fraction) as real, Decimal(f.whole) as real, Decimal(f.fraction) as real;
    DecimalSum(f.whole, f.fraction);
    Parted(w, p, ten);
    var y := w + p / ten;
    assert x / ten == y;
    ScaleTwice(x, Shift(f.exponential), n);
    Shifted(f, y);
  }

  /** The exponent, or none, applied to y. */
  lemma Shifted(f: Figure, y: real)
    requires y == Decimal(f.whole) as real + Decimal(f.fraction) as real / TenTo(|f.fraction|)
    ensures var e := Shift(f.exponential);
            Magnitude(f) == if e >= 0 then y * TenTo(e) else y / TenTo(-e)
  {
    hide Decimal, TenTo;
    TenToNothing(y);
  }

  lemma TenToNothing(x: real)
    ensures TenTo(0) == 1.0 && x * TenTo(0) == x == x / TenTo(0)
  {
  }

  lemma Parted(w: real, p: real, ten: real)
    requires ten > 0.0
    ensures (w * ten + p) / ten == w + p / ten
  {
  }

  lemma WrittenTogether(a: seq<Digit>, b: seq<Digit>)
    ensures WrittenDigits(a) + WrittenDigits(b) == WrittenDigits(a + b)
  {
  }

  /** strtod takes the whole of a numeral, for the number it means. */
  lemma FigureIsConverted(f: Figure)
    requires FigureOk(f)
    ensures Strtod(WrittenFigure(f)) == Conversion(FigureValue(f), |WrittenFigure(f)|)
  {
    hide Has, WrittenFigure, WrittenDigits, WrittenFraction, WrittenExponential, DigitsEnd, ExponentEnd, Exponent,
        DigitsValue, Scale, Magnitude, Decimal, IsDigit, ExponentialOk, Shift;
    var t := WrittenFigure(f);
    var a := |WrittenMinus(f.minus)|;
    var b := a + |f.whole|;
    var e := b + |WrittenFraction(f.fraction)|;
    FigureParts(f);
    FractionBegins(t, b, f);
    DigitsStand(t, a, f.whole);
    FractionIsRead(t, b, f.fraction);
    WhatIsOk(f);
    ExponentIsRead(t, e, f.exponential);
    WrittenTogether(f.whole, f.fraction);
    DigitsAreRead(f.whole + f.fraction);
    FigureScaled(f);
  }

  lemma WhatIsOk(f: Figure)
    requires FigureOk(f)
    ensures f.whole != [] && ExponentialOk(f.exponential)
  {
  }

  lemma DigitBytes(ds: seq<Digit>)
    ensures forall k :: 0 <= k < |ds| ==> IsNumberByte(WrittenDigits(ds)[k])
  {
    DigitsAreRead(ds);
  }

  /** A numeral has nothing but bytes of numbers, and begins with a digit or the minus. */
  lemma FigureBytes(f: Figure)
    requires FigureOk(f)
    ensures var t := WrittenFigure(f);
            && t != [] && (t[0] == MINUS || IsDigit(t[0]))
            && forall k :: 0 <= k < |t| ==> IsNumberByte(t[k])
  {
    DigitBytes(f.whole);
    DigitBytes(f.fraction);
    if f.exponential.TimesTenTo? {
      DigitBytes(f.exponential.digits);
    }
    DigitsAreRead(f.whole);
    hide WrittenDigits, IsDigit;
  }

  /** A numeral of at most 63 bytes is read as the number it means; of a longer one, at most a
      part is. */
  lemma NumberIsRead(c: Text, i: nat, f: Figure)
    requires FigureOk(f) && Has(c, i, WrittenFigure(f))
    requires var end := i + |WrittenFigure(f)|;
             end < |c| && !IsNumberByte(c[end])
    ensures var end := i + |WrittenFigure(f)|;
            var n := NumberAt(c, i);
            if |WrittenFigure(f)| <= 63 then n == Some(Parsed(FigureValue(f), end))
            else n.None? || (n.value.next < end && IsNumberByte(c[n.value.next]))
  {
    hide Has, WrittenFigure, Strtod, RunEnd, IsNumberByte, NumberAt;
    var t := WrittenFigure(f);
    FigureBytes(f);
    if |t| <= 63 {
      FigureIsConverted(f);
      NumberTextIsFound(c, i, t);
    } else {
      LongRun(c, i);
      var n := NumberAt(c, i);
      if n.Some? {
        HasByte(c, i, t, n.value.next - i);
      }
    }
  }

  lemma LongRun(c: Text, i: nat)
    requires i <= |c|
    ensures NumberAt(c, i).Some? ==> i < NumberAt(c, i).value.next <= i + 63
  {
  }
}
