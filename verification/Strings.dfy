/**
 String literals: how parse_string of worker/images/embedded-python/cJSON.c reads them and
 print_string_ptr writes them.
 */
module Strings {
  import opened Results
  import opened Bytes
  import opened Utf

  // ----- Reading -----

  /** The first scan: where the closing quote is. */
  function ScanEnd(c: Text, p: nat): (r: Option<nat>)
    ensures r.Some? ==> p <= r.value < |c| && c[r.value] == QUOTE
    decreases |c| - p
  {
    if p >= |c| then None
    else if c[p] == QUOTE then Some(p)
    else if c[p] == BACKSLASH then if p + 1 >= |c| then None else ScanEnd(c, p + 2)
    else ScanEnd(c, p + 1)
  }

  /** How many of the two-byte steps of the first scan, between p and end, start before q. */
  function Pairs(c: Text, p: nat, end: nat, q: nat): nat
    requires end <= |c|
    decreases end - p
  {
    if p >= end then 0
    else if c[p] == BACKSLASH then (if p < q then 1 else 0) + Pairs(c, p + 2, end, q)
    else Pairs(c, p + 1, end, q)
  }

  /** The byte that an escape sequence of one letter stands for. */
  function Unescape(e: Byte): Option<Byte> {
    if e == 98 then Some(BACKSPACE)
    else if e == 102 then Some(FORMFEED)
    else if e == 110 then Some(NEWLINE)
    else if e == 114 then Some(RETURN)
    else if e == 116 then Some(TAB)
    else if e == QUOTE || e == BACKSLASH || e == SLASH then Some(e)
    else None
  }

  function Prepend(a: Text, r: Option<Text>): Option<Text> {
    if r.None? then None else Some(a + r.value)
  }

  lemma PrependTwice(a: Text, b: Text, r: Option<Text>)
    ensures Prepend(a, Prepend(b, r)) == Prepend(a + b, r)
    ensures Prepend([], r) == r && Prepend(a, Some([])) == Some(a)
  {
    if r.Some? {
      assert a + (b + r.value) == a + b + r.value;
      assert [] + r.value == r.value;
    }
    assert a + [] == a;
  }

  /** One step of the second scan: the bytes it reads, none when it gives up, and those it writes. */
  datatype Step = Step(length: nat, output: Text)
  const NO_STEP := Step(0, [])

  function NextStep(c: Text, p: nat, end: nat): (s: Step)
    requires p < end < |c|
    ensures p + s.length <= end + 1 && (s.length == 0 ==> s.output == [])
  {
    if c[p] != BACKSLASH then Step(1, [c[p]])
    else if Unescape(c[p + 1]).Some? then Step(2, [Unescape(c[p + 1]).value])
    else if c[p + 1] == 117 then
      var l := ReadLiteral(c, p, end);
      if l.length == 0 then NO_STEP else Step(l.length, Utf8(l.codepoint))
    else NO_STEP
  }

  /** What the second scan makes of the literal. Where an escape sequence that is no such thing put
      it out of step with the first, it may pass end by one. */
  function Decode(c: Text, p: nat, end: nat): Option<Text>
    requires end < |c|
    decreases end - p
  {
    if p >= end then Some([])
    else
      var s := NextStep(c, p, end);
      if s.length == 0 then None else Prepend(s.output, Decode(c, p + s.length, end))
  }

  /** What it has written when it stops, at the end or where it gives up. */
  function Output(c: Text, p: nat, end: nat): Text
    requires end < |c|
    decreases end - p
  {
    if p >= end then []
    else
      var s := NextStep(c, p, end);
      if s.length == 0 then [] else s.output + Output(c, p + s.length, end)
  }

  lemma {:induction false} DecodedIsOutput(c: Text, p: nat, end: nat)
    requires end < |c|
    ensures Decode(c, p, end).Some? ==> Decode(c, p, end).value == Output(c, p, end)
    decreases end - p
  {
    if p < end && NextStep(c, p, end).length > 0 {
      DecodedIsOutput(c, p + NextStep(c, p, end).length, end);
    }
    hide NextStep;
  }

  /** The string literal at i: its value, as a C string, and the index behind it. */
  function StringAt(c: Text, i: nat): Option<Parsed<Text>> {
    if i >= |c| || c[i] != QUOTE then None
    else
      var end := ScanEnd(c, i + 1);
      if end.None? then None
      else
        var s := Decode(c, i + 1, end.value);
        if s.None? then None else Some(Parsed(CString(s.value), end.value + 1))
  }

  // ----- The estimate of the first scan -----

  lemma {:induction false} PairsGrow(c: Text, p: nat, end: nat, q: nat, n: nat)
    requires end <= |c|
    ensures Pairs(c, p, end, q) <= Pairs(c, p, end, q + n)
    ensures q <= p <= q + n + 1 ==> 2 * (Pairs(c, p, end, q + n) - Pairs(c, p, end, q)) <= q + n - p + 1
    ensures 2 * (Pairs(c, p, end, q + n) - Pairs(c, p, end, q)) <= n + 1
    ensures p >= q + n ==> Pairs(c, p, end, q + n) == 0 == Pairs(c, p, end, q)
    decreases end - p
  {
    if p < end {
      PairsGrow(c, if c[p] == BACKSLASH then p + 2 else p + 1, end, q, n);
    }
  }

  lemma {:induction false} NoPairAtPlainByte(c: Text, p: nat, end: nat, q: nat)
    requires end <= |c| && q < end && c[q] != BACKSLASH
    ensures Pairs(c, p, end, q + 1) == Pairs(c, p, end, q)
    decreases end - p
  {
    if p < end {
      NoPairAtPlainByte(c, if c[p] == BACKSLASH then p + 2 else p + 1, end, q);
    }
  }

  /** The closing quote is no part of a pair. */
  lemma {:induction false} NoPairAtEnd(c: Text, p: nat, end: nat)
    requires ScanEnd(c, p) == Some(end) && p < end
    ensures Pairs(c, p, end, end) == Pairs(c, p, end, end - 1)
    decreases end - p
  {
    if c[p] == BACKSLASH {
      if p + 2 < end { NoPairAtEnd(c, p + 2, end); }
    } else if p + 1 < end {
      NoPairAtEnd(c, p + 1, end);
    }
  }

  /** What the output may take from position q of the second scan on. */
  function Room(c: Text, p: nat, end: nat, q: nat): int
    requires end <= |c|
  {
    if q >= end then 0 else end - q - (Pairs(c, p, end, end) - Pairs(c, p, end, q))
  }

  /** A step of the second scan that puts out n bytes uses up at least as much room. */
  lemma RoomForStep(c: Text, p: nat, end: nat, q: nat, step: nat, n: nat)
    requires ScanEnd(c, p) == Some(end) && p <= q < end
    requires || (step == 1 && n == 1 && c[q] != BACKSLASH)
             || (step == 2 && n == 1)
             || (step == 6 && n <= 3 && q + 6 <= end)
             || (step == 12 && n <= 4 && q + 12 <= end)
    ensures n + Room(c, p, end, q + step) <= Room(c, p, end, q)
    ensures Room(c, p, end, q + step) >= 0
  {
    PairsGrow(c, p, end, q, step);
    if q + step < end {
      PairsGrow(c, p, end, q + step, end - q - step);
    }
    if step == 1 {
      NoPairAtPlainByte(c, p, end, q);
    }
    if q == end - 1 {
      NoPairAtEnd(c, p, end);
    }
  }

  lemma StepFits(c: Text, p: nat, end: nat, q: nat)
    requires ScanEnd(c, p) == Some(end) && p <= q < end
    ensures var s := NextStep(c, q, end);
            s.length > 0 ==> |s.output| + Room(c, p, end, q + s.length) <= Room(c, p, end, q)
  {
    var s := NextStep(c, q, end);
    if s.length > 0 {
      RoomForStep(c, p, end, q, s.length, |s.output|);
    }
  }

  lemma {:induction false} OutputFits(c: Text, p: nat, end: nat, q: nat)
    requires ScanEnd(c, p) == Some(end) && p <= q
    ensures |Output(c, q, end)| <= Room(c, p, end, q)
    decreases end - q
  {
    hide NextStep, ScanEnd, Pairs;
    if q < end {
      StepFits(c, p, end, q);
      PairsGrow(c, p, end, q, end - q);
      var n := NextStep(c, q, end).length;
      if n > 0 {
        OutputFits(c, p, end, q + n);
      }
    }
  }

  /** What the first scan allots for the literal that opens at i and ends at end. */
  function Allotted(c: Text, i: nat, end: nat): int
    requires end <= |c|
  {
    end - i - Pairs(c, i + 1, end, end)
  }

  /** Whatever the literal holds and however its decoding ends, what is written and its
      terminator fit in the estimate; and a literal that is decoded is what is written. */
  lemma TwoScansAgree(c: Text, i: nat, end: nat)
    requires i < |c| && ScanEnd(c, i + 1) == Some(end)
    ensures |Output(c, i + 1, end)| + 1 <= Allotted(c, i, end)
    ensures Decode(c, i + 1, end).Some? ==> Decode(c, i + 1, end).value == Output(c, i + 1, end)
  {
    OutputFits(c, i + 1, end, i + 1);
    DecodedIsOutput(c, i + 1, end);
    PairsGrow(c, i + 1, end, 0, i + 1);
  }

  // ----- Writing -----

  predicate NeedsEscape(b: Byte) {
    b < 32 || b == QUOTE || b == BACKSLASH
  }

  /** The letter of the escape sequences that take one. */
  function EscapeLetter(b: Byte): Option<Byte> {
    if b == QUOTE || b == BACKSLASH then Some(b)
    else if b == BACKSPACE then Some(98)
    else if b == FORMFEED then Some(102)
    else if b == NEWLINE then Some(110)
    else if b == RETURN then Some(114)
    else if b == TAB then Some(116)
    else None
  }

  function LowerHex(v: nat): Byte
    requires v < 16
  {
    if v < 10 then 48 + v else 87 + v
  }

  function EscapedByte(b: Byte): (r: Text)
    ensures |r| == 1 || |r| == 2 || |r| == 6
  {
    if !NeedsEscape(b) then [b]
    else if EscapeLetter(b).Some? then [BACKSLASH, EscapeLetter(b).value]
    else [BACKSLASH, 117, ZERO, ZERO, LowerHex(b / 16), LowerHex(b % 16)]
  }

  function Escaped(s: Text): Text {
    if s == [] then [] else EscapedByte(s[0]) + Escaped(s[1..])
  }

  function StringText(s: Text): (r: Text)
    ensures |r| == |Escaped(s)| + 2
  {
    [QUOTE] + Escaped(s) + [QUOTE]
  }
}
