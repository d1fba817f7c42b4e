/**
 cJSON_Minify of worker/images/embedded-python/cJSON.c: it takes white space and comments out
 of a text, in place.
 */
module Minify {
  import opened Results
  import opened Bytes
  import opened Strings
  import opened Json
  import opened Grammar
  import opened Literals
  import opened Reading
  import opened Printing
  import opened RoundTrip

  predicate IsWhite(b: Byte) {
    b == SPACE || b == TAB || b == RETURN || b == NEWLINE
  }

  /** The end of a comment of two slashes: a newline, which it leaves there, or the terminator. */
  function LineEndAt(c: Text, i: nat): (j: nat)
    requires Terminated(c) && i < |c|
    ensures i <= j < |c| && (c[j] == 0 || c[j] == NEWLINE)
    ensures forall k :: i <= k < j ==> c[k] != 0 && c[k] != NEWLINE
    decreases |c| - i
  {
    if c[i] == 0 || c[i] == NEWLINE then i else LineEndAt(c, i + 1)
  }

  /** Where a star and a slash stand, or the terminator. */
  function CommentEndAt(c: Text, i: nat): (j: nat)
    requires Terminated(c) && i < |c|
    ensures i <= j < |c| && (c[j] == 0 || (j + 2 < |c| && c[j] == STAR && c[j + 1] == SLASH))
    decreases |c| - i
  {
    if c[i] == 0 || (c[i] == STAR && c[i + 1] == SLASH) then i else CommentEndAt(c, i + 1)
  }

  /** What is left of the text from i on. None: a string or a comment is not closed, and reading
      goes on behind the terminator. */
  function Minified(c: Text, i: nat): (r: Option<Text>)
    requires Terminated(c) && i < |c|
    ensures r.Some? ==> |r.value| <= |c| - 1 - i
    decreases |c| - i
  {
    if c[i] == 0 then Some([])
    else if IsWhite(c[i]) then Minified(c, i + 1)
    else if c[i] == SLASH && c[i + 1] == SLASH then
      assert LineEndAt(c, i) > i;
      Minified(c, LineEndAt(c, i))
    else if c[i] == SLASH && c[i + 1] == STAR then
      var j := CommentEndAt(c, i);
      if c[j] == 0 then None else Minified(c, j + 2)
    else if c[i] == QUOTE then
      var end := ScanEnd(c, i + 1);
      if end.None? then None else Prepend(c[i..end.value + 1], Minified(c, end.value + 1))
    else Prepend([c[i]], Minified(c, i + 1))
  }

  // ----- Texts of the grammar -----

  /** Bytes that stand for themselves. */
  predicate IsPlain(b: Byte) {
    b != 0 && !IsWhite(b) && b != SLASH && b != QUOTE
  }

  predicate AllPlain(t: Text) {
    forall k :: 0 <= k < |t| ==> IsPlain(t[k])
  }

  lemma HasFirst(c: Text, i: nat, t: Text)
    requires Has(c, i, t) && t != []
    ensures i < |c| && c[i] == t[0] && Has(c, i + 1, t[1..])
  {
    assert t == [t[0]] + t[1..];
    HasParts(c, i, [t[0]], t[1..]);
    HasByte(c, i, t, 0);
  }

  lemma OnePlainStays(c: Text, i: nat)
    requires Terminated(c) && i + 1 < |c| && IsPlain(c[i])
    ensures Minified(c, i) == Prepend([c[i]], Minified(c, i + 1))
  {
  }

  lemma {:induction false} PlainStays(c: Text, i: nat, t: Text)
    requires Terminated(c) && Has(c, i, t) && i + |t| < |c| && AllPlain(t)
    ensures Minified(c, i) == Prepend(t, Minified(c, i + |t|))
    decreases |t|
  {
    if t == [] {
      PrependTwice([], [], Minified(c, i));
    } else {
      HasFirst(c, i, t);
      OnePlainStays(c, i);
      hide Minified, Has, Terminated, Prepend;
      PlainStays(c, i + 1, t[1..]);
      PrependTwice([t[0]], t[1..], Minified(c, i + |t|));
      assert [t[0]] + t[1..] == t;
    }
  }

  lemma {:induction false} LineEndIs(c: Text, i: nat, j: nat)
    requires Terminated(c) && i <= j < |c| && c[j] == NEWLINE
    requires forall k :: i <= k < j ==> c[k] != NEWLINE
    ensures LineEndAt(c, i) == j
    decreases j - i
  {
    if i < j {
      LineEndIs(c, i + 1, j);
    }
  }

  lemma {:induction false} CommentEndIs(c: Text, i: nat, j: nat)
    requires Terminated(c) && i <= j && j + 2 < |c| && c[j] == STAR && c[j + 1] == SLASH
    requires forall k :: i <= k < j ==> !(c[k] == STAR && c[k + 1] == SLASH)
    ensures CommentEndAt(c, i) == j
    decreases j - i
  {
    if i < j {
      CommentEndIs(c, i + 1, j);
    }
  }

  lemma WhiteGoes(c: Text, i: nat)
    requires Terminated(c) && i + 1 < |c| && IsWhite(c[i])
    ensures Minified(c, i) == Minified(c, i + 1)
  {
  }

  lemma LineGoes(c: Text, i: nat, j: nat)
    requires Terminated(c) && i + 1 <= j < |c| && c[i] == SLASH == c[i + 1] && LineEndAt(c, i) == j
    ensures Minified(c, i) == Minified(c, j)
  {
  }

  lemma BlockGoes(c: Text, i: nat, j: nat)
    requires Terminated(c) && i + 1 < j && j + 2 < |c| && c[i] == SLASH && c[i + 1] == STAR && CommentEndAt(c, i) == j
    requires c[j] == STAR
    ensures Minified(c, i) == Minified(c, j + 2)
  {
  }

  lemma BytesAt(c: Text, i: nat, t: Text)
    requires Has(c, i, t)
    ensures i + |t| <= |c| && forall k :: i <= k < i + |t| ==> c[k] == t[k - i]
  {
    forall k | i <= k < i + |t|
      ensures c[k] == t[k - i]
    {
      HasByte(c, i, t, k - i);
    }
  }

  lemma LineCommentGoes(c: Text, i: nat, comment: Text)
    requires Terminated(c) && FillerOk(LineComment(comment)) && Has(c, i, WrittenFiller(LineComment(comment)))
    requires i + |comment| + 3 < |c|
    ensures Minified(c, i) == Minified(c, i + |comment| + 3)
  {
    hide Minified, Has;
    var j := i + |comment| + 2;
    BytesAt(c, i, [47, 47] + comment + [10]);
    LineEndIs(c, i, j);
    LineGoes(c, i, j);
    WhiteGoes(c, j);
  }

  lemma BlockCommentGoes(c: Text, i: nat, comment: Text)
    requires Terminated(c) && FillerOk(BlockComment(comment)) && Has(c, i, WrittenFiller(BlockComment(comment)))
    requires i + |comment| + 4 < |c|
    ensures Minified(c, i) == Minified(c, i + |comment| + 4)
  {
    hide Minified, Has;
    var t := [47, 42] + comment + [42, 47];
    var j := i + |comment| + 2;
    BytesAt(c, i, t);
    forall k | i <= k < j
      ensures !(c[k] == STAR && c[k + 1] == SLASH)
    {
      assert c[k] == t[k - i] && c[k + 1] == t[k + 1 - i];
    }
    CommentEndIs(c, i, j);
    BlockGoes(c, i, j);
  }

  lemma FillerGoes(c: Text, i: nat, f: Filler)
    requires Terminated(c) && FillerOk(f) && Has(c, i, WrittenFiller(f)) && i + |WrittenFiller(f)| < |c|
    ensures Minified(c, i) == Minified(c, i + |WrittenFiller(f)|)
  {
    match f
    case Blank(b) =>
      HasByte(c, i, [b], 0);
      WhiteGoes(c, i);
    case LineComment(comment) => LineCommentGoes(c, i, comment);
    case BlockComment(comment) => BlockCommentGoes(c, i, comment);
  }

  lemma {:induction false} GapGoes(c: Text, i: nat, g: Gap)
    requires Terminated(c) && GapOk(g, true) && Has(c, i, WrittenGap(g)) && i + |WrittenGap(g)| < |c|
    ensures Minified(c, i) == Minified(c, i + |WrittenGap(g)|)
    decreases |g|
  {
    hide Minified, Has, Terminated, FillerOk, WrittenFiller;
    if g != [] {
      assert g[0] in g && forall f :: f in g[1..] ==> f in g;
      HasParts(c, i, WrittenFiller(g[0]), WrittenGap(g[1..]));
      FillerGoes(c, i, g[0]);
      GapGoes(c, i + |WrittenFiller(g[0])|, g[1..]);
    }
  }

  lemma StringIsTaken(c: Text, i: nat)
    requires Terminated(c) && i < |c| && c[i] == QUOTE && ScanEnd(c, i + 1).Some?
    ensures var end := ScanEnd(c, i + 1).value;
            end + 1 < |c| && Minified(c, i) == Prepend(c[i..end + 1], Minified(c, end + 1))
  {
  }

  /** t stands at i and is copied as it is, or without what was in its gaps. */
  predicate Becomes(c: Text, i: nat, t: Text, u: Text)
    requires Terminated(c)
  {
    i + |t| < |c| && Minified(c, i) == Prepend(u, Minified(c, i + |t|))
  }

  lemma Together(c: Text, i: nat, a: Text, b: Text, u: Text, v: Text)
    requires Terminated(c) && Becomes(c, i, a, u) && Becomes(c, i + |a|, b, v)
    ensures Becomes(c, i, a + b, u + v)
  {
    hide Minified, Prepend;
    PrependTwice(u, v, Minified(c, i + |a| + |b|));
  }

  lemma GapBecomes(c: Text, i: nat, g: Gap)
    requires Terminated(c) && GapOk(g, true) && Has(c, i, WrittenGap(g)) && i + |WrittenGap(g)| < |c|
    ensures Becomes(c, i, WrittenGap(g), [])
  {
    hide Minified, Prepend, Has, Terminated, GapOk;
    GapGoes(c, i, g);
    PrependTwice([], [], Minified(c, i));
  }

  lemma StringStays(c: Text, i: nat, ps: seq<Piece>)
    requires Terminated(c) && PiecesOk(ps) && Has(c, i, WrittenString(ps)) && i + |WrittenString(ps)| < |c|
    ensures Becomes(c, i, WrittenString(ps), WrittenString(ps))
  {
    hide ScanEnd, WrittenPieces, Has, Terminated, Decode, Minified, Prepend, PiecesOk, StringBytes;
    HasParts(c, i, [34] + WrittenPieces(ps), [34]);
    HasParts(c, i, [34], WrittenPieces(ps));
    HasByte(c, i, [34], 0);
    PiecesAreRead(c, i + 1, ps);
    HasIsSlice(c, i, WrittenString(ps));
    StringIsTaken(c, i);
  }

  lemma WordsArePlain(v: Value)
    ensures AllPlain(WrittenWord(v))
  {
  }

  lemma FiguresArePlain(f: Figure)
    requires FigureOk(f)
    ensures AllPlain(WrittenFigure(f))
  {
    hide WrittenFigure;
    FigureBytes(f);
  }

  lemma OneByteStays(c: Text, i: nat, b: Byte)
    requires Terminated(c) && Has(c, i, [b]) && IsPlain(b) && i + 1 < |c|
    ensures Becomes(c, i, [b], [b])
  {
    hide Minified, Prepend, Terminated, IsPlain;
    HasByte(c, i, [b], 0);
    OnePlainStays(c, i);
  }

  lemma PunctuationIsPlain()
    ensures IsPlain(44) && IsPlain(58) && IsPlain(91) && IsPlain(93) && IsPlain(123) && IsPlain(125)
  {
  }

  lemma {:induction false} TreeBecomes(c: Text, i: nat, t: Tree)
    requires Terminated(c) && TreeOk(t, true) && Has(c, i, Written(t)) && i + |Written(t)| < |c|
    ensures Becomes(c, i, Written(t), Written(Squeezed(t)))
    decreases t, 1
  {
    hide Minified, Prepend, Has, Terminated, WrittenFigure, WrittenWord, WrittenString, FigureOk, PiecesOk, IsPlain,
        WrittenItems, WrittenPairs, WrittenGap, GapOk, ItemsOk, PairsOk, SqueezedItems, SqueezedPairs;
    match t
    case Word(v) =>
      WordsArePlain(v);
      PlainStays(c, i, WrittenWord(v));
    case Numeral(f) =>
      FiguresArePlain(f);
      PlainStays(c, i, WrittenFigure(f));
    case Quoted(ps) => StringStays(c, i, ps);
    case List(gap, items) =>
      var inner := if items == [] then WrittenGap(gap) else WrittenItems(items);
      HasParts(c, i, [91] + inner, [93]);
      HasParts(c, i, [91], inner);
      PunctuationIsPlain();
      OneByteStays(c, i, 91);
      if items == [] {
        GapBecomes(c, i + 1, gap);
        NothingWritten();
      } else {
        ItemsBecome(c, i + 1, items);
      }
      Closes(c, i, 91, inner, if items == [] then [] else WrittenItems(SqueezedItems(items)), 93);
    case Record(gap, pairs) =>
      var inner := if pairs == [] then WrittenGap(gap) else WrittenPairs(pairs);
      HasParts(c, i, [123] + inner, [125]);
      HasParts(c, i, [123], inner);
      PunctuationIsPlain();
      OneByteStays(c, i, 123);
      if pairs == [] {
        GapBecomes(c, i + 1, gap);
        NothingWritten();
      } else {
        PairsBecome(c, i + 1, pairs);
      }
      Closes(c, i, 123, inner, if pairs == [] then [] else WrittenPairs(SqueezedPairs(pairs)), 125);
  }

  lemma NothingWritten()
    ensures WrittenGap([]) == [] && SqueezedItems([]) == [] && SqueezedPairs([]) == []
  {
  }

  lemma Closes(c: Text, i: nat, open: Byte, inner: Text, u: Text, close: Byte)
    requires Terminated(c) && Becomes(c, i, [open], [open]) && Becomes(c, i + 1, inner, u) && IsPlain(close)
    requires Has(c, i + 1 + |inner|, [close]) && i + |inner| + 2 < |c|
    ensures Becomes(c, i, [open] + inner + [close], [open] + u + [close])
  {
    hide Becomes;
    Together(c, i, [open], inner, [open], u);
    OneByteStays(c, i + 1 + |inner|, close);
    Together(c, i, [open] + inner, [close], [open] + u, [close]);
  }

  lemma {:induction false} ItemBecomes(c: Text, i: nat, item: Item)
    requires Terminated(c) && ItemOk(item, true) && Has(c, i, WrittenItem(item)) && i + |WrittenItem(item)| < |c|
    ensures Becomes(c, i, WrittenItem(item), WrittenItem(SqueezedItem(item)))
    decreases item
  {
    hide Becomes, Has, Terminated, GapOk, TreeOk, WrittenGap, Written, Squeezed;
    var b, t, a, u := WrittenGap(item.before), Written(item.tree), WrittenGap(item.after),
        Written(Squeezed(item.tree));
    HasParts(c, i, b + t, a);
    HasParts(c, i, b, t);
    GapBecomes(c, i, item.before);
    TreeBecomes(c, i + |b|, item.tree);
    GapBecomes(c, i + |b| + |t|, item.after);
    Together(c, i, b, t, [], u);
    Together(c, i, b + t, a, [] + u, []);
    NothingWritten();
    assert [] + u + [] == u;
  }

  lemma {:induction false} ItemsBecome(c: Text, i: nat, items: seq<Item>)
    requires Terminated(c) && items != [] && ItemsOk(items, true)
    requires Has(c, i, WrittenItems(items)) && i + |WrittenItems(items)| < |c|
    ensures Becomes(c, i, WrittenItems(items), WrittenItems(SqueezedItems(items)))
    decreases items
  {
    hide Becomes, Has, Terminated, ItemOk, WrittenItem, SqueezedItem, IsPlain;
    var t, u := WrittenItem(items[0]), WrittenItem(SqueezedItem(items[0]));
    assert SqueezedItems(items)[1..] == SqueezedItems(items[1..]);
    if |items| == 1 {
      assert t + [] == t && u + [] == u;
      ItemBecomes(c, i, items[0]);
    } else {
      var rest, more := WrittenItems(items[1..]), WrittenItems(SqueezedItems(items[1..]));
      HasParts(c, i, t, [44] + rest);
      HasParts(c, i + |t|, [44], rest);
      ItemBecomes(c, i, items[0]);
      PunctuationIsPlain();
      OneByteStays(c, i + |t|, 44);
      ItemsBecome(c, i + |t| + 1, items[1..]);
      Together(c, i + |t|, [44], rest, [44], more);
      Together(c, i, t, [44] + rest, u, [44] + more);
    }
  }

  lemma {:induction false} PairBecomes(c: Text, i: nat, p: Pair)
    requires Terminated(c) && PairOk(p, true) && Has(c, i, WrittenPair(p)) && i + |WrittenPair(p)| < |c|
    ensures Becomes(c, i, WrittenPair(p), WrittenPair(SqueezedPair(p)))
    decreases p
  {
    hide Becomes, Has, Terminated, GapOk, ItemOk, PiecesOk, WrittenGap, WrittenString, WrittenItem, SqueezedItem,
        IsPlain;
    var b, k, m, v := WrittenGap(p.before), WrittenString(p.key), WrittenGap(p.middle), WrittenItem(p.item);
    var u := WrittenItem(SqueezedItem(p.item));
    HasParts(c, i, b + k + m + [58], v);
    HasParts(c, i, b + k + m, [58]);
    HasParts(c, i, b + k, m);
    HasParts(c, i, b, k);
    PunctuationIsPlain();
    GapBecomes(c, i, p.before);
    StringStays(c, i + |b|, p.key);
    GapBecomes(c, i + |b| + |k|, p.middle);
    OneByteStays(c, i + |b| + |k| + |m|, 58);
    ItemBecomes(c, i + |b| + |k| + |m| + 1, p.item);
    Together(c, i, b, k, [], k);
    Together(c, i, b + k, m, [] + k, []);
    Together(c, i, b + k + m, [58], [] + k + [], [58]);
    Together(c, i, b + k + m + [58], v, [] + k + [] + [58], u);
    NothingWritten();
  }

  lemma {:induction false} PairsBecome(c: Text, i: nat, pairs: seq<Pair>)
    requires Terminated(c) && pairs != [] && PairsOk(pairs, true)
    requires Has(c, i, WrittenPairs(pairs)) && i + |WrittenPairs(pairs)| < |c|
    ensures Becomes(c, i, WrittenPairs(pairs), WrittenPairs(SqueezedPairs(pairs)))
    decreases pairs
  {
    hide Becomes, Has, Terminated, PairOk, WrittenPair, SqueezedPair, IsPlain;
    var t, u := WrittenPair(pairs[0]), WrittenPair(SqueezedPair(pairs[0]));
    assert SqueezedPairs(pairs)[1..] == SqueezedPairs(pairs[1..]);
    if |pairs| == 1 {
      assert t + [] == t && u + [] == u;
      PairBecomes(c, i, pairs[0]);
    } else {
      var rest, more := WrittenPairs(pairs[1..]), WrittenPairs(SqueezedPairs(pairs[1..]));
      HasParts(c, i, t, [44] + rest);
      HasParts(c, i + |t|, [44], rest);
      PairBecomes(c, i, pairs[0]);
      PunctuationIsPlain();
      OneByteStays(c, i + |t|, 44);
      PairsBecome(c, i + |t| + 1, pairs[1..]);
      Together(c, i + |t|, [44], rest, [44], more);
      Together(c, i, t, [44] + rest, u, [44] + more);
    }
  }

  lemma MarkIsPlain(mark: bool)
    ensures AllPlain(WrittenMark(mark))
  {
  }

  /** White space and comments are taken out of any text of the grammar, and nothing else is. */
  lemma MinifySqueezes(doc: Document)
    requires ItemOk(doc.item, true)
    ensures var c := WrittenDocument(doc) + [0];
            && Terminated(c)
            && Minified(c, 0) == Some(WrittenMark(doc.mark) + Written(Squeezed(doc.item.tree)))
  {
    hide Becomes, Has, Terminated, ItemOk, WrittenItem, SqueezedItem, AllPlain, NulFree, Minified;
    var c, m := WrittenDocument(doc) + [0], WrittenMark(doc.mark);
    var t, u := WrittenItem(doc.item), WrittenItem(SqueezedItem(doc.item));
    DocumentIsCString(doc, true);
    HasParts(c, 0, m, t);
    MarkIsPlain(doc.mark);
    PlainBecomes(c, 0, m);
    ItemBecomes(c, |m|, doc.item);
    Together(c, 0, m, t, m, u);
    BecomesAll(c, m + t, m + u);
    SqueezedText(doc.item);
  }

  lemma PlainBecomes(c: Text, i: nat, t: Text)
    requires Terminated(c) && Has(c, i, t) && i + |t| < |c| && AllPlain(t)
    ensures Becomes(c, i, t, t)
  {
    hide Minified, Prepend, Has, Terminated, AllPlain;
    PlainStays(c, i, t);
  }

  lemma BecomesAll(c: Text, t: Text, u: Text)
    requires Terminated(c) && Becomes(c, 0, t, u) && |c| == |t| + 1
    ensures Minified(c, 0) == Some(u)
  {
    assert Minified(c, |t|) == Some([]);
    PrependTwice(u, [], None);
  }

  lemma SqueezedText(item: Item)
    ensures WrittenItem(SqueezedItem(item)) == Written(Squeezed(item.tree))
  {
    NothingWritten();
    hide Written, Squeezed;
  }

  // ----- What is left means the same -----

  /** u has no white space, and is as good as t. */
  ghost predicate Same(t: Tree, u: Tree) {
    TreeOk(u, false) && Compact(u) && Meaning(u) == Meaning(t) && forall room: nat :: Fits(u, room) <==> Fits(t, room)
  }

  ghost predicate ItemsSame(items: seq<Item>, us: seq<Item>) {
    && ItemsOk(us, false) && ItemsMeaning(us) == ItemsMeaning(items)
    && (forall k :: 0 <= k < |us| ==> CompactItem(us[k])) && (us == [] <==> items == [])
    && (forall room: nat :: ItemsFit(us, room) <==> ItemsFit(items, room))
  }

  ghost predicate PairsSame(pairs: seq<Pair>, us: seq<Pair>) {
    && PairsOk(us, false) && PairsMeaning(us) == PairsMeaning(pairs)
    && (forall k :: 0 <= k < |us| ==> us[k].before == [] == us[k].middle && CompactItem(us[k].item))
    && (forall room: nat :: PairsFit(us, room) <==> PairsFit(pairs, room))
  }

  lemma {:induction false} SqueezedIsSame(t: Tree, comments: bool)
    requires TreeOk(t, comments)
    ensures Same(t, Squeezed(t))
    decreases t
  {
    hide ItemsOk, PairsOk, ItemsSame, PairsSame, SqueezedItems, SqueezedPairs, ItemsFit, PairsFit, ItemsMeaning,
        PairsMeaning;
    match t
    case List(gap, items) =>
      SqueezedItemsAreSame(items, comments);
      ListIsSame(gap, items, SqueezedItems(items));
    case Record(gap, pairs) =>
      SqueezedPairsAreSame(pairs, comments);
      RecordIsSame(gap, pairs, SqueezedPairs(pairs));
    case _ =>
  }

  lemma ListIsSame(gap: Gap, items: seq<Item>, us: seq<Item>)
    requires ItemsSame(items, us)
    ensures Same(List(gap, items), List([], us))
  {
    hide ItemsOk, ItemsMeaning, ItemsFit, CompactItem;
    forall room: nat
      ensures Fits(List([], us), room) <==> Fits(List(gap, items), room)
    {
      assert room > 0 ==> (ItemsFit(us, room - 1) <==> ItemsFit(items, room - 1));
    }
  }

  lemma RecordIsSame(gap: Gap, pairs: seq<Pair>, us: seq<Pair>)
    requires PairsSame(pairs, us)
    ensures Same(Record(gap, pairs), Record([], us))
  {
    hide PairsOk, PairsMeaning, PairsFit, CompactItem;
    forall room: nat
      ensures Fits(Record([], us), room) <==> Fits(Record(gap, pairs), room)
    {
      assert room > 0 ==> (PairsFit(us, room - 1) <==> PairsFit(pairs, room - 1));
    }
  }

  ghost predicate ItemSame(item: Item, u: Item) {
    && ItemOk(u, false) && CompactItem(u) && Meaning(u.tree) == Meaning(item.tree)
    && (forall room: nat :: Fits(u.tree, room) <==> Fits(item.tree, room))
  }

  lemma SqueezedItemIsSame(item: Item)
    requires Same(item.tree, Squeezed(item.tree))
    ensures ItemSame(item, SqueezedItem(item))
  {
    hide TreeOk, Compact, Meaning, Fits, Squeezed;
    NoGap();
    assert ItemOk(SqueezedItem(item), false);
  }

  lemma OneMoreItemSame(item: Item, u: Item, items: seq<Item>, us: seq<Item>)
    requires ItemSame(item, u) && ItemsSame(items, us)
    ensures ItemsSame([item] + items, [u] + us)
  {
    hide ItemOk, Meaning, Fits, CompactItem;
    var all, less := [item] + items, [u] + us;
    assert all[1..] == items && less[1..] == us;
    assert ItemsOk(less, false) && ItemsMeaning(less) == ItemsMeaning(all);
    forall room: nat
      ensures ItemsFit(less, room) <==> ItemsFit(all, room)
    {
      assert ItemsFit(us, room) <==> ItemsFit(items, room);
    }
  }

  lemma {:induction false} SqueezedItemsAreSame(items: seq<Item>, comments: bool)
    requires ItemsOk(items, comments)
    ensures ItemsSame(items, SqueezedItems(items))
    decreases items
  {
    hide TreeOk, Same, ItemSame, SqueezedItem, GapOk;
    if items != [] {
      SqueezedIsSame(items[0].tree, comments);
      SqueezedItemIsSame(items[0]);
      SqueezedItemsAreSame(items[1..], comments);
      OneMoreItemSame(items[0], SqueezedItem(items[0]), items[1..], SqueezedItems(items[1..]));
      assert [items[0]] + items[1..] == items;
    }
  }

  ghost predicate PairSame(p: Pair, u: Pair) {
    PairOk(u, false) && u.before == [] == u.middle && u.key == p.key && ItemSame(p.item, u.item)
  }

  lemma OneMorePairSame(p: Pair, u: Pair, pairs: seq<Pair>, us: seq<Pair>)
    requires PairSame(p, u) && PairsSame(pairs, us)
    ensures PairsSame([p] + pairs, [u] + us)
  {
    hide ItemOk, Meaning, Fits, CompactItem, StringBytes, PairOk;
    var all, less := [p] + pairs, [u] + us;
    assert all[1..] == pairs && less[1..] == us;
    assert PairsOk(less, false) && PairsMeaning(less) == PairsMeaning(all);
    forall room: nat
      ensures PairsFit(less, room) <==> PairsFit(all, room)
    {
      assert PairsFit(us, room) <==> PairsFit(pairs, room);
    }
  }

  lemma {:induction false} SqueezedPairsAreSame(pairs: seq<Pair>, comments: bool)
    requires PairsOk(pairs, comments)
    ensures PairsSame(pairs, SqueezedPairs(pairs))
    decreases pairs
  {
    hide TreeOk, Same, ItemSame, SqueezedItem, GapOk, PiecesOk;
    if pairs != [] {
      var p := pairs[0];
      assert PairOk(p, comments) && ItemOk(p.item, comments);
      SqueezedIsSame(p.item.tree, comments);
      SqueezedPairIsSame(p, comments);
      SqueezedPairsAreSame(pairs[1..], comments);
      OneMorePairSame(p, SqueezedPair(p), pairs[1..], SqueezedPairs(pairs[1..]));
      assert [p] + pairs[1..] == pairs;
    }
  }

  lemma SqueezedPairIsSame(p: Pair, comments: bool)
    requires PairOk(p, comments) && Same(p.item.tree, Squeezed(p.item.tree))
    ensures PairSame(p, SqueezedPair(p))
  {
    hide Same, SqueezedItem, GapOk, PiecesOk, ItemOk, CompactItem, Meaning, Fits;
    NoGap();
    SqueezedItemIsSame(p.item);
    assert PairOk(SqueezedPair(p), false);
  }

  lemma NoGap()
    ensures GapOk([], false)
  {
  }

  /** A text with comments is read, once it has been minified, as what it means. */
  lemma ParseReadsTheMinified(doc: Document)
    requires ItemOk(doc.item, true)
    ensures var c := WrittenDocument(doc) + [0];
            && Terminated(c) && Minified(c, 0).Some?
            && var m := Minified(c, 0).value;
               && Terminated(m + [0])
               && Parse(m + [0], true)
                  == if Fits(doc.item.tree, 1000) then Some(Parsed(Meaning(doc.item.tree), |m|)) else None
  {
    hide Terminated, Minified, TreeOk, Compact, Meaning, Fits, Squeezed, Written, Parse;
    var t := doc.item.tree;
    var short := Document(doc.mark, Item([], Squeezed(t), []));
    MinifySqueezes(doc);
    SqueezedIsSame(t, true);
    NothingWritten();
    assert WrittenDocument(short) == WrittenMark(doc.mark) + Written(Squeezed(t));
    ParseReadsTheGrammar(short, true);
  }

  lemma {:induction false} SqueezedPrinted(v: Value, fmt: bool, depth: nat)
    ensures Squeezed(Printed(v, fmt, depth)) == Printed(v, false, depth)
    decreases v
  {
    match v
    case Array(items) => SqueezedPrintedItems(items, fmt, depth + 1, true);
    case Object(members) => SqueezedPrintedPairs(members, fmt, depth + 1);
    case _ =>
  }

  lemma {:induction false} SqueezedPrintedItems(items: seq<Value>, fmt: bool, depth: nat, first: bool)
    ensures SqueezedItems(PrintedItems(items, fmt, depth, first)) == PrintedItems(items, false, depth, first)
    decreases items
  {
    hide Printed;
    if items != [] {
      SqueezedPrinted(items[0], fmt, depth);
      SqueezedPrintedItems(items[1..], fmt, depth, false);
      assert PrintedItems(items, fmt, depth, first)[1..] == PrintedItems(items[1..], fmt, depth, false);
    }
  }

  lemma {:induction false} SqueezedPrintedPairs(members: seq<Member>, fmt: bool, depth: nat)
    requires depth > 0
    ensures SqueezedPairs(PrintedPairs(members, fmt, depth)) == PrintedPairs(members, false, depth)
    decreases members
  {
    hide Printed;
    if members != [] {
      SqueezedPrinted(members[0].value, fmt, depth);
      SqueezedPrintedPairs(members[1..], fmt, depth);
      var m, last := members[0], |members| == 1;
      assert SqueezedPair(PrintedPair(m, fmt, depth, last)) == PrintedPair(m, false, depth, last);
      assert PrintedPairs(members, fmt, depth)[1..] == PrintedPairs(members[1..], fmt, depth);
    }
  }

  /** Minifying formatted text gives, byte for byte, the text printed without formatting; and
      leaves that text as it is. */
  lemma MinifyUndoesFormatting(v: Value, fmt: bool)
    requires Printable(v)
    ensures var c := ValueText(v, fmt, 0) + [0];
            Terminated(c) && Minified(c, 0) == Some(ValueText(v, false, 0))
  {
    hide Terminated, Minified, Written, ValueText, Printed, ItemOk, Meaning, Fits, Nesting, Squeezed, WrittenDocument;
    var doc := PrintedDocument(v, fmt);
    PrintedIsADocument(v, fmt);
    ValueIsWritten(v, false, 0);
    SqueezedPrinted(v, fmt, 0);
    MinifySqueezes(doc);
    assert WrittenMark(false) + ValueText(v, false, 0) == ValueText(v, false, 0);
  }

  // ----- In place -----

  /** What has not been read yet is as it was. */
  ghost predicate Unread(json: array<Byte>, i: nat, c: Text)
    reads json
  {
    |c| <= json.Length && forall k :: i <= k < |c| ==> json[k] == c[k]
  }

  method SkipLine(json: array<Byte>, i: nat, ghost c: Text) returns (j: nat)
    requires Terminated(c) && i < |c| && Unread(json, i, c)
    ensures j == LineEndAt(c, i)
  {
    j := i;
    while json[j] != 0 && json[j] != NEWLINE
      invariant i <= j < |c| && LineEndAt(c, j) == LineEndAt(c, i)
      decreases |c| - j
    {
      j := j + 1;
    }
  }

  method SkipComment(json: array<Byte>, i: nat, ghost c: Text) returns (j: nat)
    requires Terminated(c) && i < |c| && Unread(json, i, c)
    ensures j == CommentEndAt(c, i)
  {
    j := i;
    while json[j] != 0 && !(json[j] == STAR && json[j + 1] == SLASH)
      invariant i <= j < |c| && CommentEndAt(c, j) == CommentEndAt(c, i)
      decreases |c| - j
    {
      j := j + 1;
    }
  }

  /** c from start to i has been copied behind w. */
  /** The output so far is w and what was read from start on; the input from i on and what lies
      behind the text are untouched. */
  ghost predicate Copied(json: array<Byte>, w: Text, rest: Text, start: nat, i: nat, into: nat, c: Text)
    reads json
  {
    && |w| <= start <= i <= |c| && into == |w| + (i - start)
    && Unread(json, i, c) && json[..into] == w + c[start..i] && json[|c|..] == rest
  }

  /** *into++ = *json++ */
  method CopyByte(json: array<Byte>, i: nat, into: nat, ghost w: Text, ghost rest: Text, ghost start: nat,
      ghost c: Text)
    requires i < |c| && Copied(json, w, rest, start, i, into, c)
    modifies json
    ensures Copied(json, w, rest, start, i + 1, into + 1, c)
  {
    json[into] := json[i];
    assert c[start..i + 1] == c[start..i] + [c[i]];
    assert json[..into + 1] == old(json[..into]) + [c[i]];
  }

  /** One byte of the literal, or a backslash and the byte behind it. */
  method CopyNext(json: array<Byte>, i: nat, into: nat, ghost w: Text, ghost rest: Text, ghost start: nat,
      ghost c: Text)
      returns (next: nat, to: nat)
    requires Terminated(c) && i < |c| && ScanEnd(c, i).Some? && c[i] != QUOTE
    requires Copied(json, w, rest, start, i, into, c)
    modifies json
    ensures i < next < |c| && ScanEnd(c, next) == ScanEnd(c, i) && Copied(json, w, rest, start, next, to, c)
  {
    hide ScanEnd, Terminated, Copied, Unread;
    ScanGoesOn(c, i);
    IsUnread(json, w, rest, start, i, into, c);
    next, to := i, into;
    if json[i] == BACKSLASH {
      CopyByte(json, i, into, w, rest, start, c);
      to, next := to + 1, next + 1;
    }
    CopyByte(json, next, to, w, rest, start, c);
    to, next := to + 1, next + 1;
  }

  /** Copies a string literal, quotes and all, to where the output has come. */
  method CopyString(json: array<Byte>, start: nat, at: nat, ghost c: Text) returns (i: nat, into: nat)
    requires Terminated(c) && at <= start < |c| <= json.Length && Unread(json, start, c)
    requires c[start] == QUOTE && ScanEnd(c, start + 1).Some?
    modifies json
    ensures i == ScanEnd(c, start + 1).value + 1 && into == at + (i - start) && i < |c|
    ensures json[..into] == old(json[..at]) + c[start..i]
    ensures Unread(json, i, c) && json[|c|..] == old(json[|c|..])
  {
    hide ScanEnd, Terminated, Copied, Unread;
    ghost var w, rest, end := json[..at], json[|c|..], ScanEnd(c, start + 1);
    NothingCopied(json, start, at, c);
    NotLast(c, start);
    CopyByte(json, start, at, w, rest, start, c);
    i, into := start + 1, at + 1;
    while json[i] != 0 && json[i] != QUOTE
      invariant start < i < |c| <= json.Length && Copied(json, w, rest, start, i, into, c)
      invariant ScanEnd(c, i) == end
      decreases |c| - i
    {
      IsUnread(json, w, rest, start, i, into, c);
      i, into := CopyNext(json, i, into, w, rest, start, c);
    }
    ScanGoesOn(c, i);
    IsUnread(json, w, rest, start, i, into, c);
    CopyByte(json, i, into, w, rest, start, c);
    into, i := into + 1, i + 1;
    WhatIsCopied(json, w, rest, start, i, into, c);
  }

  lemma NothingCopied(json: array<Byte>, start: nat, at: nat, c: Text)
    requires at <= start < |c| && Unread(json, start, c)
    ensures Copied(json, json[..at], json[|c|..], start, start, at, c)
  {
  }

  lemma IsUnread(json: array<Byte>, w: Text, rest: Text, start: nat, i: nat, into: nat, c: Text)
    requires i < |c| && Copied(json, w, rest, start, i, into, c)
    ensures |c| <= json.Length && json[i] == c[i]
  {
  }

  lemma WhatIsCopied(json: array<Byte>, w: Text, rest: Text, start: nat, i: nat, into: nat, c: Text)
    requires Copied(json, w, rest, start, i, into, c)
    ensures Unread(json, i, c) && |c| <= json.Length && into == |w| + (i - start) <= json.Length
    ensures start <= i <= |c| && json[..into] == w + c[start..i] && json[|c|..] == rest
  {
  }

  /** The first scan of a literal that is closed. */
  lemma ScanGoesOn(c: Text, i: nat)
    requires Terminated(c) && i < |c| && ScanEnd(c, i).Some?
    ensures c[i] != 0 && ScanEnd(c, i).value + 1 < |c| && (c[i] == QUOTE ==> ScanEnd(c, i).value == i)
    ensures c[i] != QUOTE ==>
              var next := if c[i] == BACKSLASH then i + 2 else i + 1;
              next < |c| && ScanEnd(c, next) == ScanEnd(c, i)
  {
    hide Pairs;
    assert ScanEnd(c, |c|) == None;
  }

  /** Reads at index i and writes at index into, which never passes i. */
  method MinifyInPlace(json: array<Byte>, ghost c: Text)
    requires Terminated(c) && Unread(json, 0, c) && Minified(c, 0).Some?
    modifies json
    ensures var m := Minified(c, 0).value;
            |m| < |c| && json[..|m|] == m && json[|m|] == 0
    ensures json[|c|..] == old(json[|c|..])
  {
    hide Prepend, Minified, ScanEnd, LineEndAt, CommentEndAt, Terminated;
    ghost var all := Minified(c, 0);
    PrependTwice([], [], all);
    assert json[..0] == [];
    var i, into := 0, 0;
    while json[i] != 0
      invariant 0 <= into <= i < |c|
      invariant Unread(json, i, c) && json[|c|..] == old(json[|c|..])
      invariant all == Prepend(json[..into], Minified(c, i)) && Minified(c, i).Some?
      decreases |c| - i
    {
      ghost var w := json[..into];
      OneStep(c, i, w);
      NotLast(c, i);
      if json[i] == SPACE || json[i] == TAB || json[i] == RETURN || json[i] == NEWLINE {
        i := i + 1;
      } else if json[i] == SLASH && json[i + 1] == SLASH {
        i := SkipLine(json, i, c);
      } else if json[i] == SLASH && json[i + 1] == STAR {
        i := SkipComment(json, i, c);
        i := i + 2;
      } else if json[i] == QUOTE {
        i, into := CopyString(json, i, into, c);
      } else {
        json[into] := json[i];
        assert json[..into + 1] == w + [c[i]];
        into, i := into + 1, i + 1;
      }
    }
    AtTheEnd(c, i);
    PrependTwice(json[..into], [], None);
    json[into] := 0;
  }

  lemma AtTheEnd(c: Text, i: nat)
    requires Terminated(c) && i < |c| && c[i] == 0
    ensures Minified(c, i) == Some([])
  {
  }

  /** One turn of the loop, when w has been written. */
  lemma OneStep(c: Text, i: nat, w: Text)
    requires Terminated(c) && i < |c| && c[i] != 0 && Minified(c, i).Some?
    ensures var now := Prepend(w, Minified(c, i));
            if IsWhite(c[i]) then now == Prepend(w, Minified(c, i + 1)) && Minified(c, i + 1).Some?
            else if c[i] == SLASH && c[i + 1] == SLASH then
              var j := LineEndAt(c, i);
              j > i && now == Prepend(w, Minified(c, j)) && Minified(c, j).Some?
            else if c[i] == SLASH && c[i + 1] == STAR then
              var j := CommentEndAt(c, i);
              j + 2 < |c| && now == Prepend(w, Minified(c, j + 2)) && Minified(c, j + 2).Some?
            else if c[i] == QUOTE then
              var end := ScanEnd(c, i + 1);
              end.Some? && now == Prepend(w + c[i..end.value + 1], Minified(c, end.value + 1))
                  && Minified(c, end.value + 1).Some?
            else now == Prepend(w + [c[i]], Minified(c, i + 1)) && Minified(c, i + 1).Some?
  {
    if c[i] == QUOTE {
      var end := ScanEnd(c, i + 1).value;
      PrependTwice(w, c[i..end + 1], Minified(c, end + 1));
    } else {
      PrependTwice(w, [c[i]], Minified(c, i + 1));
    }
  }
}
