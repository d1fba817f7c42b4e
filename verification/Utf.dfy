/**
 The decoding of \uXXXX in worker/images/embedded-python/cJSON.c: UTF-16 in, UTF-8 out.
 The two standards come first, in their own terms.
 */
module Utf {
  import opened Bytes

  // ----- Section 2.2 of RFC 2781 -----

  predicate IsHighSurrogate(w: int) {
    0xD800 <= w <= 0xDBFF
  }

  predicate IsLowSurrogate(w: int) {
    0xDC00 <= w <= 0xDFFF
  }

  /** The character number of a surrogate pair. */
  function OfPair(w1: int, w2: int): int
    requires IsHighSurrogate(w1) && IsLowSurrogate(w2)
  {
    0x10000 + (w1 - 0xD800) * 0x400 + (w2 - 0xDC00)
  }

  // ----- Section 3 of RFC 3629 -----

  predicate IsTail(b: Byte) {
    0x80 <= b <= 0xBF
  }

  /** The octets b are the UTF-8 form of character number u. Surrogates have none. */
  predicate IsUtf8(b: Text, u: int) {
    && !IsHighSurrogate(u)
    && !IsLowSurrogate(u)
    && IsSequence(b, u)
  }

  /** The four forms, each with its range of character numbers. */
  predicate IsSequence(b: Text, u: int) {
    || (|b| == 1 && u == b[0] && 0 <= u <= 0x7F)
    || (|b| == 2 && 0xC0 <= b[0] <= 0xDF && IsTail(b[1]) && u == More(b[0] as int - 0xC0, b[1]) && 0x80 <= u <= 0x7FF)
    || (|b| == 3 && 0xE0 <= b[0] <= 0xEF && IsTail(b[1]) && IsTail(b[2])
        && u == More(More(b[0] as int - 0xE0, b[1]), b[2]) && 0x800 <= u <= 0xFFFF)
    || (|b| == 4 && 0xF0 <= b[0] <= 0xF7 && IsTail(b[1]) && IsTail(b[2]) && IsTail(b[3])
        && u == More(More(More(b[0] as int - 0xF0, b[1]), b[2]), b[3]) && 0x10000 <= u <= 0x10FFFF)
  }

  /** The bits so far, and the six bits of the next octet. */
  function More(u: int, tail: Byte): int {
    u * 64 + (tail as int - 0x80)
  }

  // ----- Section 7 of RFC 8259 -----

  const DECIMALS: Text := [48, 49, 50, 51, 52, 53, 54, 55, 56, 57]
  const CAPITALS: Text := [65, 66, 67, 68, 69, 70]
  const SMALL_LETTERS: Text := [97, 98, 99, 100, 101, 102]

  /** The hexadecimal digit of value v. */
  function HexDigit(v: nat, capital: bool): Byte
    requires v < 16
  {
    if v < 10 then DECIMALS[v] else if capital then CAPITALS[v - 10] else SMALL_LETTERS[v - 10]
  }

  predicate Spells(b: Byte, v: nat)
    requires v < 16
  {
    b == HexDigit(v, true) || b == HexDigit(v, false)
  }

  /** The four digits at p are those of w, the most significant first. */
  predicate IsQuad(c: Text, p: nat, w: nat) {
    && p + 4 <= |c| && w < 0x10000
    && Spells(c[p], w / 4096) && Spells(c[p + 1], w / 256 % 16)
    && Spells(c[p + 2], w / 16 % 16) && Spells(c[p + 3], w % 16)
  }

  /** The escape sequence uXXXX of value w, ending by end. */
  predicate IsUnit(c: Text, p: nat, end: nat, w: nat) {
    p + 6 <= end <= |c| && c[p] == 92 && c[p + 1] == 117 && IsQuad(c, p + 2, w)
  }

  // ----- Four hexadecimal digits -----

  predicate IsHexDigit(b: Byte) {
    48 <= b <= 57 || 65 <= b <= 70 || 97 <= b <= 102
  }

  function HexValue(b: Byte): (v: nat)
    requires IsHexDigit(b)
    ensures v < 16
  {
    if b <= 57 then b - 48 else if b <= 70 then b - 55 else b - 87
  }

  predicate IsHex4(c: Text, p: nat) {
    p + 4 <= |c| && IsHexDigit(c[p]) && IsHexDigit(c[p + 1]) && IsHexDigit(c[p + 2]) && IsHexDigit(c[p + 3])
  }

  /** Their value, or 0 if one of them is not a digit. */
  function Hex4(c: Text, p: nat): (v: nat)
    requires p + 4 <= |c|
    ensures v < 0x10000
  {
    if IsHex4(c, p) then
      ((HexValue(c[p]) * 16 + HexValue(c[p + 1])) * 16 + HexValue(c[p + 2])) * 16 + HexValue(c[p + 3])
    else 0
  }

  lemma DigitSpells(b: Byte, v: nat)
    requires v < 16
    ensures Spells(b, v) <==> IsHexDigit(b) && HexValue(b) == v
  {
  }

  lemma FourDigits(w: nat, a: nat, b: nat, c: nat, d: nat)
    requires w < 0x10000 && a < 16 && b < 16 && c < 16 && d < 16
    ensures w == ((a * 16 + b) * 16 + c) * 16 + d
       <==> a == w / 4096 && b == w / 256 % 16 && c == w / 16 % 16 && d == w % 16
  {
    assert w == (w / 16) * 16 + w % 16;
    assert w / 16 == (w / 256) * 16 + w / 16 % 16;
    assert w / 256 == (w / 4096) * 16 + w / 256 % 16;
  }

  /** Digits of w are read as w, and only they are. */
  lemma QuadIsRead(c: Text, p: nat, w: nat)
    requires p + 4 <= |c| && w < 0x10000
    ensures IsQuad(c, p, w) <==> IsHex4(c, p) && Hex4(c, p) == w
  {
    DigitSpells(c[p], w / 4096);
    DigitSpells(c[p + 1], w / 256 % 16);
    DigitSpells(c[p + 2], w / 16 % 16);
    DigitSpells(c[p + 3], w % 16);
    hide Spells, IsHexDigit, HexValue;
    if IsHex4(c, p) {
      FourDigits(w, HexValue(c[p]), HexValue(c[p + 1]), HexValue(c[p + 2]), HexValue(c[p + 3]));
    }
  }

  lemma QuadsAreRead(c: Text, p: nat)
    requires p + 4 <= |c|
    ensures forall w :: IsQuad(c, p, w) ==> Hex4(c, p) == w
    ensures (forall w :: !IsQuad(c, p, w)) ==> Hex4(c, p) == 0
  {
    forall w | IsQuad(c, p, w)
      ensures Hex4(c, p) == w
    {
      QuadIsRead(c, p, w);
    }
    QuadIsRead(c, p, Hex4(c, p));
    hide IsQuad, IsHexDigit, HexValue;
  }

  /** The number that the four digits at p spell, or 0 if there are none. */
  method ParseHex4(c: Text, p: nat) returns (h: nat)
    requires p + 4 <= |c|
    ensures h == Hex4(c, p)
    ensures forall w :: IsQuad(c, p, w) ==> h == w
    ensures (forall w :: !IsQuad(c, p, w)) ==> h == 0
  {
    hide IsQuad, Spells, HexDigit;
    QuadsAreRead(c, p);
    h := 0;
    var i := 0;
    while i < 4
      invariant 0 <= i <= 4
      invariant i >= 1 ==> IsHexDigit(c[p])
      invariant i >= 2 ==> IsHexDigit(c[p + 1])
      invariant i >= 3 ==> IsHexDigit(c[p + 2])
      invariant i >= 4 ==> IsHexDigit(c[p + 3])
      invariant i == 0 ==> h == 0
      invariant i == 1 ==> h == HexValue(c[p]) * 16
      invariant i == 2 ==> h == (HexValue(c[p]) * 16 + HexValue(c[p + 1])) * 16
      invariant i == 3 ==> h == ((HexValue(c[p]) * 16 + HexValue(c[p + 1])) * 16 + HexValue(c[p + 2])) * 16
      invariant i == 4 ==>
                  h == ((HexValue(c[p]) * 16 + HexValue(c[p + 1])) * 16 + HexValue(c[p + 2])) * 16 + HexValue(c[p + 3])
    {
      var b := c[p + i];
      if 48 <= b <= 57 {
        h := h + b - 48;
      } else if 65 <= b <= 70 {
        h := h + 10 + b - 65;
      } else if 97 <= b <= 102 {
        h := h + 10 + b - 97;
      } else {
        return 0;
      }
      if i < 3 {
        h := h * 16;
      }
      i := i + 1;
    }
  }

  // ----- One literal -----

  /** length 0: rejected. */
  datatype Literal = Literal(length: nat, codepoint: nat)
  const REJECTED := Literal(0, 0)

  function ReadLiteral(c: Text, p: nat, end: nat): (l: Literal)
    requires end <= |c|
    ensures l.length == 0 || l.length == 6 || l.length == 12
    ensures l.length > 0 ==> p + l.length <= end && l.codepoint <= 0x10FFFF
    ensures !IsHighSurrogate(l.codepoint) && !IsLowSurrogate(l.codepoint)
    ensures l.length == 12 ==> l.codepoint >= 0x10000
    ensures l.length == 6 ==> l.codepoint < 0x10000
  {
    if end < p + 6 then REJECTED
    else
      var first := Hex4(c, p + 2);
      if IsLowSurrogate(first) then REJECTED
      else if IsHighSurrogate(first) then
        if end < p + 12 then REJECTED
        else if c[p + 6] != BACKSLASH || c[p + 7] != 117 then REJECTED
        else
          var second := Hex4(c, p + 8);
          if !IsLowSurrogate(second) then REJECTED
          else Literal(12, 0x10000 + (first % 1024) * 1024 + second % 1024)
      else Literal(6, first)
  }

  lemma UnitIsRead(c: Text, p: nat, end: nat, w: nat)
    requires IsUnit(c, p, end, w)
    ensures p + 6 <= end <= |c| && c[p] == BACKSLASH && c[p + 1] == 117 && Hex4(c, p + 2) == w < 0x10000
  {
    QuadIsRead(c, p + 2, w);
  }

  lemma OneUnitIsRead(c: Text, p: nat, end: nat, w: nat)
    requires IsUnit(c, p, end, w) && !IsHighSurrogate(w)
    ensures ReadLiteral(c, p, end) == if IsLowSurrogate(w) then REJECTED else Literal(6, w)
  {
    hide Hex4, IsHex4, IsQuad, IsUnit;
    UnitIsRead(c, p, end, w);
  }

  lemma PairIsRead(c: Text, p: nat, end: nat, w: nat, v: nat)
    requires IsUnit(c, p, end, w) && IsUnit(c, p + 6, end, v) && IsHighSurrogate(w) && IsLowSurrogate(v)
    ensures ReadLiteral(c, p, end) == Literal(12, OfPair(w, v))
  {
    hide Hex4, IsHex4, IsQuad, IsUnit;
    UnitIsRead(c, p, end, w);
    UnitIsRead(c, p + 6, end, v);
    assert w % 1024 == w - 0xD800 && v % 1024 == v - 0xDC00;
  }

  lemma LowIsAUnit(c: Text, p: nat, end: nat)
    requires p + 6 <= end <= |c| && c[p] == BACKSLASH && c[p + 1] == 117 && IsLowSurrogate(Hex4(c, p + 2))
    ensures IsUnit(c, p, end, Hex4(c, p + 2))
  {
    QuadIsRead(c, p + 2, Hex4(c, p + 2));
    hide IsQuad, Spells, IsHexDigit, HexValue;
  }

  lemma HighIsFollowed(c: Text, p: nat, end: nat, w: nat)
    requires IsUnit(c, p, end, w) && IsHighSurrogate(w) && ReadLiteral(c, p, end).length > 0
    ensures exists v :: IsLowSurrogate(v) && IsUnit(c, p + 6, end, v)
  {
    hide Hex4, IsHex4, IsQuad, IsUnit;
    UnitIsRead(c, p, end, w);
    LowIsAUnit(c, p + 6, end);
  }

  /** A well-formed unit is taken for itself; a pair of surrogates for the character they stand
      for, whatever follows; a surrogate without its partner is rejected. */
  lemma LiteralMeetsTheStandard(c: Text, p: nat, end: nat, w: nat)
    requires IsUnit(c, p, end, w)
    ensures var l := ReadLiteral(c, p, end);
            && (!IsHighSurrogate(w) && !IsLowSurrogate(w) ==> l == Literal(6, w))
            && (IsLowSurrogate(w) ==> l.length == 0)
            && (IsHighSurrogate(w) ==>
                  && (forall v :: IsLowSurrogate(v) && IsUnit(c, p + 6, end, v) ==> l == Literal(12, OfPair(w, v)))
                  && ((forall v :: IsLowSurrogate(v) ==> !IsUnit(c, p + 6, end, v)) ==> l.length == 0))
  {
    if IsHighSurrogate(w) {
      forall v | IsLowSurrogate(v) && IsUnit(c, p + 6, end, v)
        ensures ReadLiteral(c, p, end) == Literal(12, OfPair(w, v))
      {
        PairIsRead(c, p, end, w, v);
      }
      if ReadLiteral(c, p, end).length > 0 {
        HighIsFollowed(c, p, end, w);
      }
      hide IsUnit, ReadLiteral;
    } else {
      OneUnitIsRead(c, p, end, w);
    }
  }

  /** The octets of a character number. */
  function Utf8(u: nat): (b: Text)
    requires u <= 0x10FFFF
    ensures |b| == Utf8Length(u)
  {
    if u < 0x80 then [u]
    else if u < 0x800 then [0xC0 + u / 64, 0x80 + u % 64]
    else if u < 0x10000 then [0xE0 + u / 64 / 64, 0x80 + u / 64 % 64, 0x80 + u % 64]
    else [0xF0 + u / 64 / 64 / 64, 0x80 + u / 64 / 64 % 64, 0x80 + u / 64 % 64, 0x80 + u % 64]
  }

  function Utf8Length(u: nat): nat
    requires u <= 0x10FFFF
  {
    if u < 0x80 then 1 else if u < 0x800 then 2 else if u < 0x10000 then 3 else 4
  }

  lemma MoreIsUndone(u: int, tail: Byte)
    requires IsTail(tail)
    ensures More(u, tail) / 64 == u && More(u, tail) % 64 == tail as int - 0x80
  {
  }

  lemma TwoOctets(b: Text)
    requires |b| == 2 && 0xC0 <= b[0] <= 0xDF && IsTail(b[1])
    ensures var u := More(b[0] as int - 0xC0, b[1]);
            0x80 <= u <= 0x7FF ==> b == Utf8(u)
  {
    var v := b[0] as int - 0xC0;
    assert 0 <= v < 64;
    MoreIsUndone(v, b[1]);
    hide More;
    assert b == [b[0], b[1]];
  }

  lemma ThreeOctets(b: Text)
    requires |b| == 3 && 0xE0 <= b[0] <= 0xEF && IsTail(b[1]) && IsTail(b[2])
    ensures var u := More(More(b[0] as int - 0xE0, b[1]), b[2]);
            0x800 <= u <= 0xFFFF ==> b == Utf8(u)
  {
    var v := More(b[0] as int - 0xE0, b[1]);
    MoreIsUndone(b[0] as int - 0xE0, b[1]);
    MoreIsUndone(v, b[2]);
    hide More;
    assert b == [b[0], b[1], b[2]];
  }

  lemma FourOctets(b: Text)
    requires |b| == 4 && 0xF0 <= b[0] <= 0xF7 && IsTail(b[1]) && IsTail(b[2]) && IsTail(b[3])
    ensures var u := More(More(More(b[0] as int - 0xF0, b[1]), b[2]), b[3]);
            0x10000 <= u <= 0x10FFFF ==> b == Utf8(u)
  {
    var v := More(b[0] as int - 0xF0, b[1]);
    var w := More(v, b[2]);
    MoreIsUndone(b[0] as int - 0xF0, b[1]);
    MoreIsUndone(v, b[2]);
    MoreIsUndone(w, b[3]);
    hide More;
    assert b == [b[0], b[1], b[2], b[3]];
  }

  lemma OneForm(u: nat, b: Text)
    requires u <= 0x10FFFF && IsSequence(b, u)
    ensures b == Utf8(u)
  {
    if |b| == 1 {
      assert b == [b[0]];
    } else if |b| == 2 {
      TwoOctets(b);
    } else if |b| == 3 {
      ThreeOctets(b);
    } else {
      FourOctets(b);
    }
    hide More, Utf8;
  }

  lemma IsOfTheForm(u: nat)
    requires u <= 0x10FFFF
    ensures IsSequence(Utf8(u), u)
  {
  }

  /** They are the UTF-8 form of every character number, and no others are. */
  lemma Utf8MeetsTheStandard(u: nat, b: Text)
    requires u <= 0x10FFFF
    ensures IsUtf8(b, u) <==> b == Utf8(u) && !IsHighSurrogate(u) && !IsLowSurrogate(u)
  {
    if IsSequence(b, u) {
      OneForm(u, b);
    }
    IsOfTheForm(u);
    hide Utf8, IsSequence;
  }

  /** Writes the octets from the last to the first, as the original does. */
  method Utf16LiteralToUtf8(c: Text, p: nat, end: nat, output: array<Byte>, at: nat)
      returns (sequenceLength: nat, next: nat)
    requires end <= |c|
    requires var l := ReadLiteral(c, p, end);
             l.length > 0 ==> at + Utf8Length(l.codepoint) <= output.Length
    requires at <= output.Length
    modifies output
    ensures sequenceLength == ReadLiteral(c, p, end).length
    ensures sequenceLength == 0 ==> next == at && output[..] == old(output[..])
    ensures sequenceLength > 0 ==>
              var b := Utf8(ReadLiteral(c, p, end).codepoint);
              next == at + |b| && output[..next] == old(output[..at]) + b && output[next..] == old(output[next..])
  {
    hide IsQuad, IsHex4, Hex4, Utf8;
    sequenceLength, next := 0, at;
    if end < p + 6 {
      return;
    }
    var firstCode := ParseHex4(c, p + 2);
    if 0xDC00 <= firstCode <= 0xDFFF {
      return;
    }
    var codepoint: nat;
    if 0xD800 <= firstCode <= 0xDBFF {
      if end < p + 12 {
        return;
      }
      if c[p + 6] != BACKSLASH || c[p + 7] != 117 {
        return;
      }
      var secondCode := ParseHex4(c, p + 8);
      if secondCode < 0xDC00 || secondCode > 0xDFFF {
        return;
      }
      sequenceLength := 12;
      codepoint := 0x10000 + (firstCode % 1024) * 1024 + secondCode % 1024;
    } else {
      sequenceLength := 6;
      codepoint := firstCode;
    }
    next := EncodeUtf8(codepoint, output, at);
  }

  method EncodeUtf8(u: nat, output: array<Byte>, at: nat) returns (next: nat)
    requires u <= 0x10FFFF && at + Utf8Length(u) <= output.Length
    modifies output
    ensures next == at + Utf8Length(u)
    ensures output[..next] == old(output[..at]) + Utf8(u) && output[next..] == old(output[next..])
  {
    var codepoint := u;
    var utf8Length := 4;
    var firstByteMark := 0xF0;
    if codepoint < 0x80 {
      utf8Length, firstByteMark := 1, 0;
    } else if codepoint < 0x800 {
      utf8Length, firstByteMark := 2, 0xC0;
    } else if codepoint < 0x10000 {
      utf8Length, firstByteMark := 3, 0xE0;
    }
    ghost var b := Utf8(u);
    var utf8Position := utf8Length - 1;
    while utf8Position > 0
      invariant 0 <= utf8Position < utf8Length == |b|
      invariant utf8Position == utf8Length - 1 ==> codepoint == u
      invariant utf8Position == utf8Length - 2 ==> codepoint == u / 64
      invariant utf8Position == utf8Length - 3 ==> codepoint == u / 64 / 64
      invariant utf8Position == utf8Length - 4 ==> codepoint == u / 64 / 64 / 64
      invariant forall k {:trigger output[k]} :: at + utf8Position < k < at + utf8Length ==> output[k] == b[k - at]
      invariant forall k :: 0 <= k <= at ==> output[k] == old(output[k])
      invariant forall k :: at + utf8Length <= k < output.Length ==> output[k] == old(output[k])
    {
      output[at + utf8Position] := 0x80 + codepoint % 64;
      codepoint := codepoint / 64;
      utf8Position := utf8Position - 1;
    }
    assert firstByteMark + codepoint == b[0] as int;
    output[at] := firstByteMark + codepoint;
    next := at + utf8Length;
    hide Utf8, Utf8Length;
    assert forall k :: at <= k < next ==> output[k] == b[k - at];
    InPlace(output[..], old(output[..]), at, b);
    assert output[..][..next] == output[..next] && output[..][next..] == output[next..];
    assert old(output[..])[..at] == old(output[..at]) && old(output[..])[next..] == old(output[next..]);
  }

  /** b stands in the bytes at index at, and elsewhere nothing has changed. */
  lemma InPlace(now: Text, before: Text, at: nat, b: Text)
    requires at + |b| <= |now| == |before|
    requires forall k :: 0 <= k < at ==> now[k] == before[k]
    requires forall k :: at <= k < at + |b| ==> now[k] == b[k - at]
    requires forall k :: at + |b| <= k < |now| ==> now[k] == before[k]
    ensures now[..at + |b|] == before[..at] + b && now[at + |b|..] == before[at + |b|..]
  {
  }

  /** What the original writes with masks and shifts, on its 32 and 64 bit words. */
  lemma MasksAndShifts(x: bv32, y: bv32)
    ensures ((x | 0x80) & 0xBF) & 0xFF == 0x80 + x % 64 && x >> 6 == x / 64
    ensures ((x & 0x3FF) << 10) | (y & 0x3FF) == (x % 1024) * 1024 + y % 1024
    ensures x < 0x20 ==> (x | 0xC0) & 0xFF == 0xC0 + x
    ensures x < 0x10 ==> (x | 0xE0) & 0xFF == 0xE0 + x
    ensures x < 0x08 ==> (x | 0xF0) & 0xFF == 0xF0 + x
    ensures x < 0x80 ==> x & 0x7F == x
    ensures x < 0x1000 ==> x << 4 == x * 16
  {
  }
}
