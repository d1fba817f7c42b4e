/**
 Which bytes the texts of the grammar have: never a NUL, and nothing below the space where there
 is no white space.
 */
module Shown {
  import opened Bytes
  import opened Utf
  import opened Json
  import opened Grammar
  import opened Literals

  predicate Above(t: Text, low: Byte) {
    forall k :: 0 <= k < |t| ==> t[k] >= low
  }

  lemma AboveParts(a: Text, b: Text, low: Byte)
    ensures Above(a + b, low) <==> Above(a, low) && Above(b, low)
  {
    if Above(a + b, low) {
      assert forall k :: 0 <= k < |a| ==> a[k] == (a + b)[k];
      assert forall k :: 0 <= k < |b| ==> b[k] == (a + b)[|a| + k];
    }
  }

  lemma AboveOne(b: Byte, low: Byte)
    ensures Above([], low) && (b >= low ==> Above([b], low))
  {
  }

  /** With low 1: no NUL. With low 32: nothing below the space either. */
  predicate GapAbove(g: Gap, comments: bool, low: Byte) {
    GapOk(g, comments) && (low == 1 || (low == 32 && g == []))
  }

  lemma {:induction false} GapBytes(g: Gap, comments: bool, low: Byte)
    requires GapAbove(g, comments, low)
    ensures Above(WrittenGap(g), low)
    decreases |g|
  {
    if g != [] {
      assert g[0] in g && forall f :: f in g[1..] ==> f in g;
      GapBytes(g[1..], comments, low);
      FillerBytes(g[0], comments);
      AboveParts(WrittenFiller(g[0]), WrittenGap(g[1..]), low);
    }
  }

  lemma FillerBytes(f: Filler, comments: bool)
    requires if comments then FillerOk(f) else f.Blank? && 1 <= f.b <= 32
    ensures Above(WrittenFiller(f), 1)
  {
  }

  lemma HexDigitIsShown(v: nat, capital: bool)
    requires v < 16
    ensures HexDigit(v, capital) >= 32
  {
  }

  lemma QuadBytes(q: Quad, low: Byte)
    requires low <= 32
    ensures Above([92, 117] + WrittenQuad(q), low)
  {
    hide HexDigit;
    HexDigitIsShown(q.w / 4096, q.capitals.0);
    HexDigitIsShown(q.w / 256 % 16, q.capitals.1);
    HexDigitIsShown(q.w / 16 % 16, q.capitals.2);
    HexDigitIsShown(q.w % 16, q.capitals.3);
  }

  lemma PieceBytesAbove(p: Piece, low: Byte)
    requires PieceOk(p) && (low == 1 || (low == 32 && Sparing(p)))
    ensures Above(WrittenPiece(p), low)
  {
    match p
    case Unit(quad, _) => QuadBytes(quad, low);
    case Surrogates(first, second, _) =>
      QuadBytes(first, low);
      QuadBytes(second, low);
      hide WrittenQuad;
      assert WrittenPiece(p) == ([92, 117] + WrittenQuad(first)) + ([92, 117] + WrittenQuad(second));
      AboveParts([92, 117] + WrittenQuad(first), [92, 117] + WrittenQuad(second), low);
    case _ =>
  }

  predicate StringAbove(ps: seq<Piece>, low: Byte) {
    PiecesOk(ps) && (low == 1 || (low == 32 && AllSparing(ps)))
  }

  lemma {:induction false} PiecesBytes(ps: seq<Piece>, low: Byte)
    requires StringAbove(ps, low)
    ensures Above(WrittenPieces(ps), low)
    decreases |ps|
  {
    hide Above, PieceOk, WrittenPiece, Sparing;
    if ps == [] {
      AboveOne(0, low);
    } else {
      PieceBytesAbove(ps[0], low);
      PiecesBytes(ps[1..], low);
      AboveParts(WrittenPiece(ps[0]), WrittenPieces(ps[1..]), low);
    }
  }

  lemma StringIsAbove(ps: seq<Piece>, low: Byte)
    requires StringAbove(ps, low)
    ensures Above(WrittenString(ps), low)
  {
    PiecesBytes(ps, low);
    assert low <= 32;
    hide Above, StringAbove, WrittenPieces;
    AboveOne(34, low);
    AboveParts([34] + WrittenPieces(ps), [34], low);
    AboveParts([34], WrittenPieces(ps), low);
  }

  lemma FigureIsAbove(f: Figure, low: Byte)
    requires FigureOk(f) && low <= 32
    ensures Above(WrittenFigure(f), low)
  {
    hide WrittenFigure;
    FigureBytes(f);
  }

  predicate TreeAbove(t: Tree, comments: bool, low: Byte) {
    TreeOk(t, comments) && (low == 1 || (low == 32 && Terse(t) && Compact(t)))
  }

  predicate ItemAbove(item: Item, comments: bool, low: Byte) {
    ItemOk(item, comments) && (low == 1 || (low == 32 && Terse(item.tree) && CompactItem(item)))
  }

  predicate PairAbove(p: Pair, comments: bool, low: Byte) {
    && PairOk(p, comments)
    && (low == 1 || (low == 32 && AllSparing(p.key) && Terse(p.item.tree) && p.before == [] == p.middle
                     && CompactItem(p.item)))
  }

  lemma WordIsAbove(v: Value, low: Byte)
    requires low <= 32
    ensures Above(WrittenWord(v), low)
  {
  }

  lemma {:induction false} TreeIsAbove(t: Tree, comments: bool, low: Byte)
    requires TreeAbove(t, comments, low)
    ensures Above(Written(t), low)
    decreases t
  {
    hide Above, GapOk, PiecesOk, FigureOk, WrittenGap, WrittenString, WrittenFigure, WrittenItems, ItemOk, PairOk,
        WrittenPairs, WrittenWord, AllSparing, IsPlainInteger, CompactItem;
    match t
    case Word(v) => WordIsAbove(v, low);
    case Numeral(f) => FigureIsAbove(f, low);
    case Quoted(ps) => StringIsAbove(ps, low);
    case List(gap, items) =>
      var inner := if items == [] then WrittenGap(gap) else WrittenItems(items);
      GapBytes(gap, comments, low);
      ItemsOkAt(items, comments);
      ItemsAreAbove(items, comments, low);
      AboveOne(91, low);
      AboveOne(93, low);
      AboveParts([91] + inner, [93], low);
      AboveParts([91], inner, low);
    case Record(gap, pairs) =>
      var inner := if pairs == [] then WrittenGap(gap) else WrittenPairs(pairs);
      GapBytes(gap, comments, low);
      PairsOkAt(pairs, comments);
      PairsAreAbove(pairs, comments, low);
      AboveOne(123, low);
      AboveOne(125, low);
      AboveParts([123] + inner, [125], low);
      AboveParts([123], inner, low);
  }

  lemma {:induction false} ItemsOkAt(items: seq<Item>, comments: bool)
    requires ItemsOk(items, comments)
    ensures forall k :: 0 <= k < |items| ==> ItemOk(items[k], comments)
    decreases |items|
  {
    hide ItemOk;
    if items != [] {
      ItemsOkAt(items[1..], comments);
      assert forall k :: 1 <= k < |items| ==> items[k] == items[1..][k - 1];
    }
  }

  lemma {:induction false} PairsOkAt(pairs: seq<Pair>, comments: bool)
    requires PairsOk(pairs, comments)
    ensures forall k :: 0 <= k < |pairs| ==> PairOk(pairs[k], comments)
    decreases |pairs|
  {
    hide PairOk;
    if pairs != [] {
      PairsOkAt(pairs[1..], comments);
      assert forall k :: 1 <= k < |pairs| ==> pairs[k] == pairs[1..][k - 1];
    }
  }

  lemma {:induction false} ItemIsAbove(item: Item, comments: bool, low: Byte)
    requires ItemAbove(item, comments, low)
    ensures Above(WrittenItem(item), low)
    decreases item
  {
    hide Above, GapOk, TreeOk, WrittenGap, Written, Terse, Compact;
    GapBytes(item.before, comments, low);
    TreeIsAbove(item.tree, comments, low);
    GapBytes(item.after, comments, low);
    AboveParts(WrittenGap(item.before) + Written(item.tree), WrittenGap(item.after), low);
    AboveParts(WrittenGap(item.before), Written(item.tree), low);
  }

  lemma {:induction false} ItemsAreAbove(items: seq<Item>, comments: bool, low: Byte)
    requires (low == 1 || low == 32) && forall k :: 0 <= k < |items| ==> ItemAbove(items[k], comments, low)
    ensures Above(WrittenItems(items), low)
    decreases items
  {
    hide Above, ItemAbove, WrittenItem;
    AboveOne(44, low);
    if items != [] {
      ItemIsAbove(items[0], comments, low);
      ItemsAreAbove(items[1..], comments, low);
      AboveParts([44], WrittenItems(items[1..]), low);
      AboveParts(WrittenItem(items[0]), if |items| == 1 then [] else [44] + WrittenItems(items[1..]), low);
    }
  }

  lemma {:induction false} PairIsAbove(p: Pair, comments: bool, low: Byte)
    requires PairAbove(p, comments, low)
    ensures Above(WrittenPair(p), low)
    decreases p
  {
    hide Above, GapOk, PiecesOk, ItemOk, WrittenGap, WrittenString, WrittenItem, AllSparing, Terse, CompactItem;
    var b, k, m, v := WrittenGap(p.before), WrittenString(p.key), WrittenGap(p.middle), WrittenItem(p.item);
    AboveOne(58, low);
    GapBytes(p.before, comments, low);
    StringIsAbove(p.key, low);
    GapBytes(p.middle, comments, low);
    ItemIsAbove(p.item, comments, low);
    AboveParts(b + k + m + [58], v, low);
    AboveParts(b + k + m, [58], low);
    AboveParts(b + k, m, low);
    AboveParts(b, k, low);
  }

  lemma {:induction false} PairsAreAbove(pairs: seq<Pair>, comments: bool, low: Byte)
    requires (low == 1 || low == 32) && forall k :: 0 <= k < |pairs| ==> PairAbove(pairs[k], comments, low)
    ensures Above(WrittenPairs(pairs), low)
    decreases pairs
  {
    hide Above, PairAbove, WrittenPair;
    AboveOne(44, low);
    if pairs != [] {
      PairIsAbove(pairs[0], comments, low);
      PairsAreAbove(pairs[1..], comments, low);
      AboveParts([44], WrittenPairs(pairs[1..]), low);
      AboveParts(WrittenPair(pairs[0]), if |pairs| == 1 then [] else [44] + WrittenPairs(pairs[1..]), low);
    }
  }

  /** A text without white space and with sparing strings is one line without control bytes. */
  lemma CompactIsOneLine(t: Tree)
    requires TreeOk(t, false) && Terse(t) && Compact(t)
    ensures forall k :: 0 <= k < |Written(t)| ==> Written(t)[k] >= 32
  {
    TreeIsAbove(t, false, 32);
    hide TreeOk, Terse, Compact, Written;
  }
}
