/**
 What the printer writes is a text of the grammar that means the value: compact, or laid out in
 lines, with no escape sequence that need not be there.
 */
module Printing {
  import opened Bytes
  import opened Utf
  import opened Strings
  import opened Numbers
  import opened Json
  import opened Grammar

  // ----- Strings -----

  const LETTERS: map<Byte, Byte> := map[8 := 98, 9 := 116, 10 := 110, 12 := 102, 13 := 114, 34 := 34, 92 := 92]

  /** The piece that stands for a byte. */
  function Spelling(b: Byte): Piece {
    if b in LETTERS then Short(LETTERS[b])
    else if b < 32 then Unit(Quad(b, (false, false, false, false)), [b])
    else Plain(b)
  }

  function Spelled(s: Text): (ps: seq<Piece>)
    ensures |ps| == |s|
  {
    seq(|s|, i requires 0 <= i < |s| => Spelling(s[i]))
  }

  /** p is a sparing piece for b, and is what the printer writes for it. */
  predicate SpellsOut(p: Piece, b: Byte) {
    PieceOk(p) && Sparing(p) && PieceBytes(p) == [b] && WrittenPiece(p) == EscapedByte(b)
  }

  lemma ShortSpelling(b: Byte)
    requires b in LETTERS
    ensures SpellsOut(Spelling(b), b)
  {
    assert b in {8, 9, 10, 12, 13, 34, 92};
  }

  lemma PlainSpelling(b: Byte)
    requires b !in LETTERS && b >= 32
    ensures SpellsOut(Spelling(b), b)
  {
    hide IsUtf8, WrittenQuad;
  }

  lemma UnitSpelling(b: Byte)
    requires b !in LETTERS && 0 < b < 32
    ensures SpellsOut(Spelling(b), b)
  {
    hide HexDigit, IsUtf8, LowerHex;
    SmallHex(b);
    OneOctet(b);
  }

  lemma OneOctet(b: Byte)
    requires b < 128
    ensures IsUtf8([b], b)
  {
  }

  lemma SmallHex(b: Byte)
    requires b < 32
    ensures HexDigit(0, false) == ZERO && HexDigit(b / 16, false) == LowerHex(b / 16)
    ensures HexDigit(b % 16, false) == LowerHex(b % 16)
  {
  }

  lemma SpellingIsGood(b: Byte)
    requires b != 0
    ensures SpellsOut(Spelling(b), b)
  {
    hide SpellsOut, Spelling;
    if b in LETTERS {
      ShortSpelling(b);
    } else if b < 32 {
      UnitSpelling(b);
    } else {
      PlainSpelling(b);
    }
  }

  lemma {:induction false} SpelledIsGood(s: Text)
    requires NulFree(s)
    ensures var ps := Spelled(s);
            PiecesOk(ps) && AllSparing(ps) && StringBytes(ps) == s && WrittenPieces(ps) == Escaped(s)
    decreases |s|
  {
    hide Spelling, PieceOk, Sparing, PieceBytes, WrittenPiece, EscapedByte;
    if s != [] {
      SpellingIsGood(s[0]);
      SpelledIsGood(s[1..]);
      assert Spelled(s) == [Spelling(s[0])] + Spelled(s[1..]);
      assert [s[0]] + s[1..] == s;
    }
  }

  /** A printed string is a string of the grammar. */
  lemma StringIsSpelled(s: Text)
    requires NulFree(s)
    ensures var ps := Spelled(s);
            PiecesOk(ps) && AllSparing(ps) && CString(StringBytes(ps)) == s && WrittenString(ps) == StringText(s)
  {
    hide PiecesOk, AllSparing, StringBytes, WrittenPieces, Escaped, Spelled;
    SpelledIsGood(s);
    CStringOfNulFree(s);
  }

  // ----- Numbers -----

  function DigitsOf(n: nat): (ds: seq<Digit>)
    ensures |ds| > 0
  {
    if n < 10 then [n] else DigitsOf(n / 10) + [n % 10]
  }

  function FigureOf(n: int): Figure {
    Figure(n < 0, DigitsOf(if n < 0 then -n else n), [], NoExponent)
  }

  lemma DigitsOfStep(n: nat)
    requires n >= 10
    ensures var ds, last: Digit := DigitsOf(n / 10), n % 10;
            && DigitsOf(n) == ds + [last] && Decimal(ds + [last]) == Decimal(ds) * 10 + last
            && WrittenDigits(ds + [last]) == WrittenDigits(ds) + [ZERO + last]
            && Digits(n) == Digits(n / 10) + [ZERO + last]
  {
    hide DigitsValue;
    var ds, last: Digit := DigitsOf(n / 10), n % 10;
    assert (ds + [last])[..|ds|] == ds;
  }

  lemma OneDigit(n: nat)
    requires n < 10
    ensures Decimal([n]) == n && WrittenDigits([n]) == [ZERO + n] == Digits(n)
  {
    assert [n as Digit][..0] == [];
  }

  lemma {:induction false} DigitsOfIsGood(n: nat)
    ensures var ds := DigitsOf(n);
            Decimal(ds) == n && (n > 0 ==> ds[0] != 0) && WrittenDigits(ds) == Digits(n)
    decreases n
  {
    hide Decimal, WrittenDigits, Digits;
    if n < 10 {
      OneDigit(n);
    } else {
      DigitsOfIsGood(n / 10);
      DigitsOfStep(n);
    }
  }

  lemma SmallDigits(n: nat)
    ensures n == 0 ==> |DigitsOf(n)| == 1
  {
  }

  /** A printed integer is a number of the grammar. */
  lemma IntegerIsSpelled(n: int)
    ensures var f := FigureOf(n);
            FigureOk(f) && IsPlainInteger(f) && FigureValue(f) == n as real && WrittenFigure(f) == IntText(n)
  {
    var m := if n < 0 then -n else n;
    DigitsOfIsGood(m);
    SmallDigits(m);
    hide DigitsOf, Digits;
    var f := FigureOf(n);
    assert Decimal([]) == 0 && TenTo(0) == 1.0;
    assert WrittenFigure(f) == WrittenMinus(f.minus) + WrittenDigits(f.whole);
  }

  // ----- Values -----

  function NewLine(fmt: bool, n: nat): Gap {
    if fmt then [Blank(10)] + seq(n, i => Blank(9)) else []
  }

  function BlankIf(fmt: bool, b: Byte): Gap {
    if fmt then [Blank(b)] else []
  }

  /** The text that is printed, as a tree. */
  function Printed(v: Value, fmt: bool, depth: nat): Tree
    decreases v
  {
    match v
    case Number(x) => Numeral(FigureOf(x.Floor))
    case String(s) => Quoted(Spelled(s))
    case Array(items) => List([], PrintedItems(items, fmt, depth + 1, true))
    case Object(members) => Record(NewLine(fmt, depth), PrintedPairs(members, fmt, depth + 1))
    case _ => Word(v)
  }

  function PrintedItems(items: seq<Value>, fmt: bool, depth: nat, first: bool): (ts: seq<Item>)
    ensures |ts| == |items|
    decreases items
  {
    if items == [] then []
    else
      [Item(BlankIf(fmt && !first, 32), Printed(items[0], fmt, depth), [])]
      + PrintedItems(items[1..], fmt, depth, false)
  }

  function PrintedPairs(members: seq<Member>, fmt: bool, depth: nat): (ps: seq<Pair>)
    requires depth > 0
    ensures |ps| == |members|
    decreases members
  {
    if members == [] then []
    else
      [PrintedPair(members[0], fmt, depth, |members| == 1)] + PrintedPairs(members[1..], fmt, depth)
  }

  function PrintedPair(m: Member, fmt: bool, depth: nat, last: bool): Pair
    requires depth > 0
    decreases m
  {
    Pair(NewLine(fmt, depth), Spelled(m.key), [],
         Item(BlankIf(fmt, 9), Printed(m.value, fmt, depth), if last then NewLine(fmt, depth - 1) else []))
  }

  lemma GapsAreGood(fmt: bool, b: Byte, n: nat)
    requires b == 32 || b == 9
    ensures GapOk(NewLine(fmt, n), false) && GapOk(BlankIf(fmt, b), false) && GapOk([], false)
    ensures GapOk(NewLine(fmt, n), true) && GapOk(BlankIf(fmt, b), true) && GapOk([], true)
    ensures IsLine(NewLine(true, n), n) && WrittenGap(BlankIf(fmt, b)) == if fmt then [b] else []
    ensures WrittenGap(NewLine(fmt, n)) == if fmt then [NEWLINE] + Tabs(n) else []
  {
    if fmt {
      TabsAreWritten(n);
      assert NewLine(true, n)[1..] == seq(n, i => Blank(9));
    }
    TabsAreWritten(n);
    assert NewLine(true, n)[1..] == seq(n, i => Blank(9));
    assert [Blank(b)][1..] == [];
  }

  lemma {:induction false} TabsAreWritten(n: nat)
    ensures WrittenGap(seq(n, i => Blank(9))) == Tabs(n)
    decreases n
  {
    if n > 0 {
      TabsAreWritten(n - 1);
      assert seq(n, i => Blank(9))[1..] == seq(n - 1, i => Blank(9));
      assert [9] + Tabs(n - 1) == Tabs(n);
    }
  }

  /** t is a good tree of v, with or without comments allowed, and fits where v does. */
  ghost predicate Stands(t: Tree, v: Value) {
    && TreeOk(t, false) && TreeOk(t, true) && Meaning(t) == v && Terse(t)
    && (forall room: nat :: Fits(t, room) <==> Nesting(v) <= room)
  }

  ghost predicate ItemsStand(ts: seq<Item>, items: seq<Value>) {
    && |ts| == |items| && ItemsOk(ts, false) && ItemsOk(ts, true) && ItemsMeaning(ts) == items
    && (forall k :: 0 <= k < |ts| ==> Terse(ts[k].tree))
    && (forall room: nat :: ItemsFit(ts, room) <==> ItemsNesting(items) <= room)
  }

  ghost predicate PairsStand(ps: seq<Pair>, members: seq<Member>) {
    && |ps| == |members| && PairsOk(ps, false) && PairsOk(ps, true) && PairsMeaning(ps) == members
    && (forall k :: 0 <= k < |ps| ==> AllSparing(ps[k].key) && Terse(ps[k].item.tree))
    && (forall room: nat :: PairsFit(ps, room) <==> MembersNesting(members) <= room)
  }

  lemma NumberStands(x: real)
    requires IsInteger(x)
    ensures Stands(Numeral(FigureOf(x.Floor)), Number(x))
  {
    IntegerIsSpelled(x.Floor);
    IntTextIsShort(x.Floor);
    hide FigureOf, IntText, WrittenFigure;
  }

  lemma StringStands(s: Text)
    requires NulFree(s)
    ensures Stands(Quoted(Spelled(s)), String(s))
  {
    StringIsSpelled(s);
    hide Spelled, StringText;
  }

  lemma NothingStands()
    ensures ItemsStand([], []) && PairsStand([], [])
  {
  }

  lemma {:induction false} ValueStands(v: Value, fmt: bool, depth: nat)
    requires Printable(v)
    ensures Stands(Printed(v, fmt, depth), v)
    decreases v
  {
    hide IsInteger, NulFree, AllPrintable, MembersPrintable, PrintedItems, PrintedPairs, NewLine;
    match v
    case Number(x) => NumberStands(x);
    case String(s) => StringStands(s);
    case Array(items) =>
      ItemsOfValueStand(items, fmt, depth + 1, true);
      ListStands(PrintedItems(items, fmt, depth + 1, true), items);
    case Object(members) =>
      PairsOfValueStand(members, fmt, depth + 1);
      RecordStands(PrintedPairs(members, fmt, depth + 1), members, fmt, depth);
    case _ =>
  }

  lemma ListStands(ts: seq<Item>, items: seq<Value>)
    requires ItemsStand(ts, items)
    ensures Stands(List([], ts), Array(items))
  {
    hide ItemsOk, ItemsMeaning, ItemsFit, ItemsNesting;
    GapsAreGood(false, 32, 0);
    forall room: nat
      ensures Fits(List([], ts), room) <==> Nesting(Array(items)) <= room
    {
      assert room > 0 ==> (ItemsFit(ts, room - 1) <==> ItemsNesting(items) <= room - 1);
    }
  }

  lemma RecordStands(ps: seq<Pair>, members: seq<Member>, fmt: bool, depth: nat)
    requires PairsStand(ps, members)
    ensures Stands(Record(NewLine(fmt, depth), ps), Object(members))
  {
    hide PairsOk, PairsMeaning, PairsFit, MembersNesting, NewLine;
    GapsAreGood(fmt, 32, depth);
    forall room: nat
      ensures Fits(Record(NewLine(fmt, depth), ps), room) <==> Nesting(Object(members)) <= room
    {
      assert room > 0 ==> (PairsFit(ps, room - 1) <==> MembersNesting(members) <= room - 1);
    }
  }

  lemma {:induction false} ItemsOfValueStand(items: seq<Value>, fmt: bool, depth: nat, first: bool)
    requires AllPrintable(items)
    ensures ItemsStand(PrintedItems(items, fmt, depth, first), items)
    decreases items
  {
    hide Printable, Stands, ItemStands, ItemsStand, Printed, BlankIf;
    if items == [] {
      NothingStands();
    } else {
      ValueStands(items[0], fmt, depth);
      ItemsOfValueStand(items[1..], fmt, depth, false);
      var item := Item(BlankIf(fmt && !first, 32), Printed(items[0], fmt, depth), []);
      SpacedStands(item, items[0], fmt && !first);
      OneMoreItem(item, items[0], PrintedItems(items[1..], fmt, depth, false), items[1..]);
      assert [items[0]] + items[1..] == items;
    }
  }

  ghost predicate ItemStands(item: Item, v: Value) {
    && ItemOk(item, false) && ItemOk(item, true) && Meaning(item.tree) == v && Terse(item.tree)
    && (forall room: nat :: Fits(item.tree, room) <==> Nesting(v) <= room)
  }

  lemma SpacedStands(item: Item, v: Value, fmt: bool)
    requires Stands(item.tree, v) && item.before == BlankIf(fmt, 32) && item.after == []
    ensures ItemStands(item, v)
  {
    hide TreeOk, Meaning, Terse, Fits, Nesting, BlankIf, GapOk;
    GapsAreGood(fmt, 32, 0);
  }

  lemma OneMoreItem(item: Item, v: Value, ts: seq<Item>, items: seq<Value>)
    requires ItemStands(item, v) && ItemsStand(ts, items)
    ensures ItemsStand([item] + ts, [v] + items)
  {
    hide ItemOk, Meaning, Terse, Fits, Nesting;
    var all := [item] + ts;
    assert all[1..] == ts && ([v] + items)[1..] == items;
    forall room: nat
      ensures ItemsFit(all, room) <==> ItemsNesting([v] + items) <= room
    {
      assert ItemsFit(ts, room) <==> ItemsNesting(items) <= room;
    }
    assert ItemsOk(all, false) && ItemsOk(all, true) && ItemsMeaning(all) == [v] + items;
    assert all[0] == item && forall k :: 0 < k < |all| ==> all[k] == ts[k - 1];
  }

  lemma {:induction false} PairsOfValueStand(members: seq<Member>, fmt: bool, depth: nat)
    requires MembersPrintable(members) && depth > 0
    ensures PairsStand(PrintedPairs(members, fmt, depth), members)
    decreases members
  {
    hide Printable, Stands, PairStands, PairsStand, PrintedPair, NulFree;
    if members == [] {
      NothingStands();
    } else {
      var m, last := members[0], |members| == 1;
      ValueStands(m.value, fmt, depth);
      PairsOfValueStand(members[1..], fmt, depth);
      MemberStands(m, fmt, depth, last);
      OneMorePair(PrintedPair(m, fmt, depth, last), m, PrintedPairs(members[1..], fmt, depth), members[1..]);
      assert [m] + members[1..] == members;
    }
  }

  ghost predicate PairStands(p: Pair, m: Member) {
    && PairOk(p, false) && PairOk(p, true) && PairMeaning(p) == m && AllSparing(p.key) && Terse(p.item.tree)
    && (forall room: nat :: Fits(p.item.tree, room) <==> Nesting(m.value) <= room)
  }

  lemma MemberStands(m: Member, fmt: bool, depth: nat, last: bool)
    requires Stands(Printed(m.value, fmt, depth), m.value) && NulFree(m.key) && depth > 0
    ensures PairStands(PrintedPair(m, fmt, depth, last), m)
  {
    hide TreeOk, Meaning, Terse, Fits, Nesting, BlankIf, NewLine, GapOk, PiecesOk, AllSparing, StringBytes, Printed,
        Spelled, StringText, NulFree;
    StringIsSpelled(m.key);
    GapsAreGood(fmt, 9, depth);
    GapsAreGood(fmt, 9, depth - 1);
    var p := PrintedPair(m, fmt, depth, last);
    assert ItemOk(p.item, false) && ItemOk(p.item, true);
  }

  lemma OneMorePair(p: Pair, m: Member, ps: seq<Pair>, members: seq<Member>)
    requires PairStands(p, m) && PairsStand(ps, members)
    ensures PairsStand([p] + ps, [m] + members)
  {
    hide PairOk, PairMeaning, AllSparing, Terse, Fits, Nesting;
    var all := [p] + ps;
    assert all[1..] == ps && ([m] + members)[1..] == members;
    forall room: nat
      ensures PairsFit(all, room) <==> MembersNesting([m] + members) <= room
    {
      assert PairsFit(ps, room) <==> MembersNesting(members) <= room;
    }
    assert PairsOk(all, false) && PairsOk(all, true) && PairsMeaning(all) == [m] + members;
    assert all[0] == p && forall k :: 0 < k < |all| ==> all[k] == ps[k - 1];
  }

  // ----- The text -----

  function NewLineText(fmt: bool): Text {
    if fmt then [NEWLINE] else []
  }

  lemma GapTexts(fmt: bool, b: Byte, n: nat)
    requires b == 32 || b == 9
    ensures WrittenGap(NewLine(fmt, n)) == NewLineText(fmt) + Indent(fmt, n)
    ensures WrittenGap(BlankIf(fmt, b)) == (if fmt then [b] else []) && WrittenGap([]) == []
  {
    GapsAreGood(fmt, b, n);
  }

  lemma ListIsWritten(items: seq<Value>, ts: seq<Item>, fmt: bool, depth: nat)
    requires |ts| == |items| && WrittenItems(ts) == ItemsText(items, fmt, depth + 1)
    ensures Written(List([], ts)) == ValueText(Array(items), fmt, depth)
  {
    hide WrittenItems, ItemsText;
    GapTexts(fmt, 9, depth);
    EmptyLists(fmt, depth + 1);
  }

  lemma RecordIsWritten(members: seq<Member>, ps: seq<Pair>, fmt: bool, depth: nat)
    requires |ps| == |members|
    requires WrittenPairs(ps)
          == if members == [] then [] else NewLineText(fmt) + MembersText(members, fmt, depth + 1) + Indent(fmt, depth)
    ensures Written(Record(NewLine(fmt, depth), ps)) == ValueText(Object(members), fmt, depth)
  {
    hide WrittenPairs, MembersText, NewLine, WrittenGap, Indent;
    GapTexts(fmt, 9, depth);
    EmptyLists(fmt, depth + 1);
    var n, m, i := NewLineText(fmt), MembersText(members, fmt, depth + 1), Indent(fmt, depth);
    assert OpenObject(fmt) == [OPEN_BRACE] + n;
    assert members == [] ==> m == [];
    assert ValueText(Object(members), fmt, depth) == ([OPEN_BRACE] + n) + m + i + [CLOSE_BRACE];
    assert Written(Record(NewLine(fmt, depth), ps))
        == [OPEN_BRACE] + (if members == [] then n + i else n + m + i) + [CLOSE_BRACE];
    hide *;
    BracesJoined(n, m, i);
  }

  lemma BracesJoined(n: Text, m: Text, i: Text)
    ensures [OPEN_BRACE] + (n + m + i) + [CLOSE_BRACE] == ([OPEN_BRACE] + n) + m + i + [CLOSE_BRACE]
    ensures m == [] ==> [OPEN_BRACE] + (n + i) + [CLOSE_BRACE] == ([OPEN_BRACE] + n) + m + i + [CLOSE_BRACE]
  {
  }

  lemma ScalarIsWritten(v: Value, fmt: bool, depth: nat)
    requires Printable(v) && !v.Array? && !v.Object?
    ensures Written(Printed(v, fmt, depth)) == ValueText(v, fmt, depth)
  {
    hide IsInteger, NulFree, WrittenFigure, WrittenString, IntText, StringText, FigureOf, Spelled;
    match v
    case Number(x) => IntegerIsSpelled(x.Floor);
    case String(s) => StringIsSpelled(s);
    case _ =>
  }

  lemma {:induction false} ValueIsWritten(v: Value, fmt: bool, depth: nat)
    requires Printable(v)
    ensures Written(Printed(v, fmt, depth)) == ValueText(v, fmt, depth)
    decreases v
  {
    hide AllPrintable, MembersPrintable, PrintedItems, PrintedPairs, NewLine, Indent, WrittenItems, WrittenPairs,
        ItemsText, MembersText, Written, ValueText;
    match v
    case Array(items) =>
      ItemsOfValueAreWritten(items, fmt, depth + 1, true);
      assert [] + ItemsText(items, fmt, depth + 1) == ItemsText(items, fmt, depth + 1);
      ListIsWritten(items, PrintedItems(items, fmt, depth + 1, true), fmt, depth);
    case Object(members) =>
      PairsOfValueAreWritten(members, fmt, depth + 1);
      RecordIsWritten(members, PrintedPairs(members, fmt, depth + 1), fmt, depth);
    case _ => ScalarIsWritten(v, fmt, depth);
  }

  lemma EmptyLists(fmt: bool, depth: nat)
    ensures WrittenItems([]) == [] == WrittenPairs([]) && ItemsText([], fmt, depth) == [] == MembersText([], fmt, depth)
  {
  }

  lemma {:induction false} ItemsOfValueAreWritten(items: seq<Value>, fmt: bool, depth: nat, first: bool)
    requires AllPrintable(items)
    ensures WrittenItems(PrintedItems(items, fmt, depth, first))
         == (if fmt && !first && items != [] then [SPACE] else []) + ItemsText(items, fmt, depth)
    decreases items
  {
    hide Printable, Written, ValueText, BlankIf, WrittenGap, Printed;
    if items != [] {
      GapTexts(fmt && !first, 32, 0);
      ValueIsWritten(items[0], fmt, depth);
      ItemsOfValueAreWritten(items[1..], fmt, depth, false);
      var ts := PrintedItems(items, fmt, depth, first);
      assert ts[1..] == PrintedItems(items[1..], fmt, depth, false);
      var b, t, rest := if fmt && !first then [SPACE] else [], ValueText(items[0], fmt, depth),
          ItemsText(items[1..], fmt, depth);
      ItemsJoined(b, t, if fmt then [SPACE] else [], rest);
    }
  }

  lemma ItemsJoined(b: Text, t: Text, n: Text, rest: Text)
    ensures (b + t + []) + ([COMMA] + (n + rest)) == b + (t + (([COMMA] + n) + rest))
    ensures (b + t + []) + [] == b + (t + [])
  {
  }

  lemma {:induction false} PairsOfValueAreWritten(members: seq<Member>, fmt: bool, depth: nat)
    requires MembersPrintable(members) && depth > 0
    ensures WrittenPairs(PrintedPairs(members, fmt, depth))
         == if members == [] then [] else NewLineText(fmt) + MembersText(members, fmt, depth) + Indent(fmt, depth - 1)
    decreases members
  {
    hide Printable, PrintedPair, WrittenPair, MemberText, Indent, NulFree;
    if members != [] {
      var m, last := members[0], |members| == 1;
      ValueIsWritten(m.value, fmt, depth);
      PairsOfValueAreWritten(members[1..], fmt, depth);
      PairIsWritten(m, fmt, depth, last);
      var ps := PrintedPairs(members, fmt, depth);
      assert ps[1..] == PrintedPairs(members[1..], fmt, depth);
      var n, i, rest := NewLineText(fmt), Indent(fmt, depth - 1), MembersText(members[1..], fmt, depth);
      MembersJoined(n, MemberText(m, fmt, depth), rest, i);
    }
  }

  function TabIf(fmt: bool): Text {
    if fmt then [TAB] else []
  }

  lemma MemberTextIs(m: Member, fmt: bool, depth: nat)
    ensures MemberText(m, fmt, depth)
         == Indent(fmt, depth) + StringText(m.key) + ([COLON] + TabIf(fmt)) + ValueText(m.value, fmt, depth)
  {
    hide Indent, StringText, ValueText;
    assert AfterColon(fmt) == [COLON] + TabIf(fmt);
  }

  /** What stands behind the value of a member: the closing brace's line behind the last one. */
  function LastLine(fmt: bool, depth: nat, last: bool): Text {
    if last then NewLineText(fmt) + Indent(fmt, depth) else []
  }

  lemma PairTextIs(m: Member, fmt: bool, depth: nat, last: bool)
    requires NulFree(m.key) && depth > 0
    requires Written(Printed(m.value, fmt, depth)) == ValueText(m.value, fmt, depth)
    ensures WrittenPair(PrintedPair(m, fmt, depth, last))
         == (NewLineText(fmt) + Indent(fmt, depth)) + StringText(m.key) + [] + [COLON]
            + (TabIf(fmt) + ValueText(m.value, fmt, depth) + LastLine(fmt, depth - 1, last))
  {
    hide Written, Printed, ValueText, NewLine, BlankIf, WrittenGap, WrittenString, StringText, Spelled, Indent, NulFree,
        NewLineText;
    GapTexts(fmt, 9, depth);
    GapTexts(fmt, 9, depth - 1);
    StringIsSpelled(m.key);
  }

  lemma PairIsWritten(m: Member, fmt: bool, depth: nat, last: bool)
    requires NulFree(m.key) && depth > 0
    requires Written(Printed(m.value, fmt, depth)) == ValueText(m.value, fmt, depth)
    ensures WrittenPair(PrintedPair(m, fmt, depth, last))
         == NewLineText(fmt) + MemberText(m, fmt, depth) + LastLine(fmt, depth - 1, last)
  {
    hide *;
    MemberTextIs(m, fmt, depth);
    PairTextIs(m, fmt, depth, last);
    MemberJoined(NewLineText(fmt), Indent(fmt, depth), StringText(m.key), TabIf(fmt), ValueText(m.value, fmt, depth),
      LastLine(fmt, depth - 1, last));
  }

  lemma MembersJoined(n: Text, m: Text, rest: Text, i: Text)
    ensures (n + m + []) + ([COMMA] + (n + rest + i)) == n + (m + ([COMMA] + n) + rest) + i
    ensures n + m + (n + i) == n + (m + ([] + n) + []) + i
  {
  }

  lemma MemberJoined(n: Text, i: Text, k: Text, t: Text, v: Text, e: Text)
    ensures (n + i) + k + [] + [COLON] + (t + v + e) == n + (i + k + ([COLON] + t) + v) + e
  {
  }

  // ----- The layout -----

  predicate TreeLaid(t: Tree, fmt: bool, depth: nat) {
    if fmt then Laid(t, depth) else Compact(t)
  }

  /** Of an item that follows others when first does not hold. */
  predicate ItemLaid(t: Item, fmt: bool, depth: nat, first: bool) {
    && WrittenGap(t.before) == (if fmt && !first then [32] else []) && (!fmt ==> t.before == [])
    && t.after == [] && TreeLaid(t.tree, fmt, depth)
  }

  predicate ItemsLaid(ts: seq<Item>, fmt: bool, depth: nat, first: bool) {
    forall k :: 0 <= k < |ts| ==> ItemLaid(ts[k], fmt, depth, first && k == 0)
  }

  predicate PairLaid(p: Pair, fmt: bool, depth: nat, last: bool)
    requires depth > 0
  {
    if fmt then
      && IsLine(p.before, depth) && p.middle == [] && WrittenGap(p.item.before) == [9]
      && (if last then IsLine(p.item.after, depth - 1) else p.item.after == []) && Laid(p.item.tree, depth)
    else p.before == [] == p.middle && CompactItem(p.item)
  }

  predicate PairsLaid(ps: seq<Pair>, fmt: bool, depth: nat)
    requires depth > 0
  {
    forall k :: 0 <= k < |ps| ==> PairLaid(ps[k], fmt, depth, k == |ps| - 1)
  }

  lemma NoLine(n: nat)
    ensures NewLine(false, n) == [] && BlankIf(false, 9) == [] && BlankIf(false, 32) == []
  {
  }

  lemma {:induction false} ValueIsLaid(v: Value, fmt: bool, depth: nat)
    ensures TreeLaid(Printed(v, fmt, depth), fmt, depth)
    decreases v
  {
    hide NewLine, ItemsLaid, PairsLaid, PrintedItems, PrintedPairs;
    match v
    case Array(items) =>
      ItemsAreLaid(items, fmt, depth + 1, true);
      ListIsLaid(PrintedItems(items, fmt, depth + 1, true), fmt, depth);
    case Object(members) =>
      PairsAreLaid(members, fmt, depth + 1);
      RecordIsLaid(PrintedPairs(members, fmt, depth + 1), fmt, depth);
    case _ =>
  }

  lemma ListIsLaid(ts: seq<Item>, fmt: bool, depth: nat)
    requires ItemsLaid(ts, fmt, depth + 1, true)
    ensures TreeLaid(List([], ts), fmt, depth)
  {
    hide WrittenGap;
    var t := List([], ts);
    forall k | 0 <= k < |ts|
      ensures ItemLaid(ts[k], fmt, depth + 1, k == 0)
    {
      assert ItemLaid(ts[k], fmt, depth + 1, true && k == 0);
    }
    assert if fmt then Laid(t, depth) else Compact(t);
  }

  lemma RecordIsLaid(ps: seq<Pair>, fmt: bool, depth: nat)
    requires PairsLaid(ps, fmt, depth + 1)
    ensures TreeLaid(Record(NewLine(fmt, depth), ps), fmt, depth)
  {
    GapsAreGood(fmt, 32, depth);
    NoLine(depth);
    hide NewLine, WrittenGap, IsLine;
  }

  lemma {:induction false} ItemsAreLaid(items: seq<Value>, fmt: bool, depth: nat, first: bool)
    ensures ItemsLaid(PrintedItems(items, fmt, depth, first), fmt, depth, first)
    decreases items
  {
    hide Printed, ItemLaid, BlankIf, TreeLaid;
    if items != [] {
      ValueIsLaid(items[0], fmt, depth);
      ItemIsLaid(items[0], fmt, depth, first);
      ItemsAreLaid(items[1..], fmt, depth, false);
    }
  }

  lemma ItemIsLaid(v: Value, fmt: bool, depth: nat, first: bool)
    requires TreeLaid(Printed(v, fmt, depth), fmt, depth)
    ensures ItemLaid(Item(BlankIf(fmt && !first, 32), Printed(v, fmt, depth), []), fmt, depth, first)
  {
    GapTexts(fmt && !first, 32, 0);
    hide Printed, TreeLaid, WrittenGap;
  }

  lemma {:induction false} PairsAreLaid(members: seq<Member>, fmt: bool, depth: nat)
    requires depth > 0
    ensures PairsLaid(PrintedPairs(members, fmt, depth), fmt, depth)
    decreases members
  {
    hide PairLaid, TreeLaid, PrintedPair;
    if members != [] {
      ValueIsLaid(members[0].value, fmt, depth);
      PairIsLaid(members[0], fmt, depth, |members| == 1);
      PairsAreLaid(members[1..], fmt, depth);
    }
  }

  lemma PairIsLaid(m: Member, fmt: bool, depth: nat, last: bool)
    requires depth > 0 && TreeLaid(Printed(m.value, fmt, depth), fmt, depth)
    ensures PairLaid(PrintedPair(m, fmt, depth, last), fmt, depth, last)
  {
    GapsAreGood(fmt, 9, depth);
    GapsAreGood(fmt, 9, depth - 1);
    NoLine(depth);
    NoLine(depth - 1);
    hide BlankIf, NewLine, WrittenGap, IsLine, Spelled, Printed;
  }

  /** What the printer writes for a value is a text of the grammar that means this value. It has
      no escape sequence that it does not need and plain integers; formatted it is laid out in
      lines, otherwise it has no white space. */
  lemma PrintWritesTheGrammar(v: Value, fmt: bool, depth: nat)
    requires Printable(v)
    ensures exists t: Tree ::
              && Written(t) == ValueText(v, fmt, depth) && TreeOk(t, false) && Meaning(t) == v && Terse(t)
              && if fmt then Laid(t, depth) else Compact(t)
  {
    ValueStands(v, fmt, depth);
    ValueIsWritten(v, fmt, depth);
    ValueIsLaid(v, fmt, depth);
    hide ValueText, TreeOk, Meaning, Terse, Laid, Compact, Printed, Fits, Nesting;
  }

  /** The same for a string. */
  lemma PrintWritesAString(s: Text)
    requires NulFree(s)
    ensures exists ps: seq<Piece> ::
              WrittenString(ps) == StringText(s) && PiecesOk(ps) && StringBytes(ps) == s && AllSparing(ps)
  {
    SpelledIsGood(s);
    StringIsSpelled(s);
    hide WrittenString, PiecesOk, StringBytes, AllSparing, StringText, Spelled;
  }
}
