/**
 The parser reads every text of the grammar as the value that it means, wherever white space
 stands and however strings and numbers are written.
 */
module Reading {
  import opened Results
  import opened Bytes
  import opened Strings
  import opened Numbers
  import opened Json
  import opened Grammar
  import opened Literals
  import opened Shown

  // ----- White space -----

  predicate White(c: Text, i: nat, j: nat) {
    i <= j < |c| && forall k :: i <= k < j ==> c[k] <= SPACE
  }

  lemma {:induction false} SkipWhite(c: Text, i: nat, j: nat)
    requires White(c, i, j)
    ensures i <= j < |c| && SkipWhitespace(c, i) == SkipWhitespace(c, j)
    decreases j - i
  {
    if i < j {
      SkipWhite(c, i + 1, j);
    }
  }

  lemma Stays(c: Text, i: nat)
    requires i < |c| && c[i] > SPACE
    ensures SkipWhitespace(c, i) == i
  {
  }

  /** What may follow a value: nothing to skip, and nothing that could belong to a number. */
  predicate Ends(c: Text, i: nat) {
    i < |c| && !IsNumberByte(c[i]) && SkipWhitespace(c, i) == i
  }

  lemma {:induction false} GapIsWhite(c: Text, i: nat, g: Gap)
    requires GapOk(g, false) && Has(c, i, WrittenGap(g)) && i + |WrittenGap(g)| < |c|
    ensures White(c, i, i + |WrittenGap(g)|)
    decreases |g|
  {
    if g == [] {
      EmptyGap();
    } else {
      hide Has, GapOk, WrittenGap, White;
      GapParts(g);
      HasParts(c, i, [g[0].b], WrittenGap(g[1..]));
      HasByte(c, i, [g[0].b], 0);
      GapIsWhite(c, i + 1, g[1..]);
      OneMoreWhite(c, i, i + |WrittenGap(g)|);
    }
  }

  lemma GapParts(g: Gap)
    requires g != [] && GapOk(g, false)
    ensures g[0].Blank? && 1 <= g[0].b <= 32 && GapOk(g[1..], false)
    ensures WrittenGap(g) == [g[0].b] + WrittenGap(g[1..])
  {
    assert g[0] in g && forall f :: f in g[1..] ==> f in g;
  }

  lemma OneMoreWhite(c: Text, i: nat, j: nat)
    requires i < |c| && c[i] <= SPACE && White(c, i + 1, j)
    ensures White(c, i, j)
  {
  }

  /** Up to the byte behind the gap. */
  lemma GapIsSkipped(c: Text, i: nat, g: Gap)
    requires GapOk(g, false) && Has(c, i, WrittenGap(g)) && i + |WrittenGap(g)| < |c|
    ensures SkipWhitespace(c, i) == SkipWhitespace(c, i + |WrittenGap(g)|)
    ensures !IsNumberByte(c[i + |WrittenGap(g)|]) ==> !IsNumberByte(c[i])
  {
    GapIsWhite(c, i, g);
    hide Has, WrittenGap;
    SkipWhite(c, i, i + |WrittenGap(g)|);
  }

  // ----- Values -----

  /** What the parser should have found: v, and behind it nothing but white space up to end; or,
      if it does not fit, nothing, or only the beginning of a number. */
  predicate Got<T(==)>(c: Text, r: Option<Parsed<T>>, v: T, end: nat, fits: bool, number: bool) {
    if fits then r.Some? && r.value.value == v && r.value.next < |c| && SkipWhitespace(c, r.value.next) == end
    else r.Some? ==> number && r.value.next < |c| && IsNumberByte(c[SkipWhitespace(c, r.value.next)])
  }

  /** The same, with nothing behind it. */
  predicate Found(c: Text, r: Option<Parsed<Value>>, t: Tree, next: nat, fits: bool) {
    if fits then r == Some(Parsed(Meaning(t), next))
    else r.Some? ==> t.Numeral? && r.value.next < |c| && IsNumberByte(c[r.value.next])
  }

  lemma NotThere(c: Text, i: nat, t: Text)
    requires t != [] && i < |c| && c[i] != t[0]
    ensures !Has(c, i, t)
  {
    BeginsLike(c, i, t);
  }

  lemma BeginsLike(c: Text, i: nat, t: Text)
    requires t != [] && i < |c|
    ensures Has(c, i, t) ==> c[i] == t[0]
  {
    if Has(c, i, t) {
      HasByte(c, i, t, 0);
    }
  }

  /** Only a value that begins like a keyword can be one. */
  lemma NoKeyword(c: Text, i: nat)
    requires i < |c| && c[i] != 110 && c[i] != 102 && c[i] != 116
    ensures !Has(c, i, NULL_TEXT) && !Has(c, i, FALSE_TEXT) && !Has(c, i, TRUE_TEXT)
  {
    NotThere(c, i, NULL_TEXT);
    NotThere(c, i, FALSE_TEXT);
    NotThere(c, i, TRUE_TEXT);
  }

  lemma WordIsRead(c: Text, i: nat, d: nat, v: Value)
    requires Terminated(c) && i < |c| && (v == Null || v == False || v == True) && Has(c, i, WrittenWord(v))
    ensures ValueAt(c, i, d) == Some(Parsed(v, i + |WrittenWord(v)|))
  {
    HasByte(c, i, WrittenWord(v), 0);
    if v != Null {
      NotThere(c, i, NULL_TEXT);
    }
    if v == True {
      NotThere(c, i, FALSE_TEXT);
    }
  }

  lemma NumeralIsRead(c: Text, i: nat, d: nat, f: Figure)
    requires Terminated(c) && i < |c| && FigureOk(f) && Has(c, i, WrittenFigure(f))
    requires var end := i + |WrittenFigure(f)|;
             end < |c| && !IsNumberByte(c[end])
    ensures Found(c, ValueAt(c, i, d), Numeral(f), i + |WrittenFigure(f)|, |WrittenFigure(f)| <= 63)
  {
    hide Has, Terminated, NumberAt, WrittenFigure, FigureOk, FigureValue, IsNumberByte;
    FigureBytes(f);
    HasByte(c, i, WrittenFigure(f), 0);
    NoKeyword(c, i);
    NumberIsRead(c, i, f);
  }

  lemma QuotedIsRead(c: Text, i: nat, d: nat, ps: seq<Piece>)
    requires Terminated(c) && i < |c| && PiecesOk(ps) && Has(c, i, WrittenString(ps))
    ensures ValueAt(c, i, d) == Some(Parsed(String(CString(StringBytes(ps))), i + |WrittenString(ps)|))
  {
    hide Has, Terminated, StringAt, WrittenString, StringBytes;
    StringIsRead(c, i, ps);
    NoKeyword(c, i);
  }

  /** The first byte of a value is above the space, and closes nothing. */
  lemma TreeBegins(t: Tree)
    requires TreeOk(t, false)
    ensures Written(t) != [] && 32 < Written(t)[0] < 128 && Written(t)[0] != 93
  {
    match t
    case Numeral(f) => FigureBytes(f);
    case _ =>
  }

  lemma {:induction false} TreeIsRead(c: Text, i: nat, d: nat, t: Tree)
    requires Terminated(c) && i < |c| && TreeOk(t, false) && d <= NESTING_LIMIT && Has(c, i, Written(t))
    requires var end := i + |Written(t)|;
             end < |c| && !IsNumberByte(c[end])
    ensures Found(c, ValueAt(c, i, d), t, i + |Written(t)|, Fits(t, NESTING_LIMIT - d))
    decreases t, 1
  {
    hide Has, Terminated, ValueAt, WrittenFigure, FigureOk, FigureValue, IsNumberByte, WrittenString, StringBytes,
        WrittenItems, WrittenPairs, WrittenGap, ItemsMeaning, PairsMeaning, ItemsFit, PairsFit, PiecesOk, WrittenWord;
    match t
    case Word(v) => WordIsRead(c, i, d, v);
    case Numeral(f) => NumeralIsRead(c, i, d, f);
    case Quoted(ps) => QuotedIsRead(c, i, d, ps);
    case List(_, _) => ListIsRead(c, i, d, t);
    case Record(_, _) => RecordIsRead(c, i, d, t);
  }

  /** A value with white space on both sides. */
  lemma {:induction false} ItemIsRead(c: Text, i: nat, d: nat, item: Item)
    requires Terminated(c) && i < |c| && ItemOk(item, false) && d <= NESTING_LIMIT && Has(c, i, WrittenItem(item))
    requires Ends(c, i + |WrittenItem(item)|)
    ensures var at := SkipWhitespace(c, i);
            && Got(c, ValueAt(c, at, d), Meaning(item.tree), i + |WrittenItem(item)|,
                   Fits(item.tree, NESTING_LIMIT - d), item.tree.Numeral?)
            && c[at] != 93
            && (Fits(item.tree, NESTING_LIMIT - d) ==>
                  ValueAt(c, at, d).value.next == i + |WrittenItem(item)| - |WrittenGap(item.after)|)
    decreases item
  {
    hide Has, Terminated, ValueAt, TreeOk, GapOk, Written, WrittenGap, Meaning, Fits, SkipWhitespace, IsNumberByte;
    var b, t, a := WrittenGap(item.before), Written(item.tree), WrittenGap(item.after);
    var j := i + |b|;
    HasParts(c, i, b + t, a);
    HasParts(c, i, b, t);
    TreeBegins(item.tree);
    HasByte(c, j, t, 0);
    GapIsSkipped(c, i, item.before);
    Stays(c, j);
    GapIsSkipped(c, j + |t|, item.after);
    TreeIsRead(c, j, d, item.tree);
    var r := ValueAt(c, j, d);
    if r.Some? && r.value.next < |c| && IsNumberByte(c[r.value.next]) {
      NumberBytesStay(c, r.value.next);
    }
  }

  lemma NumberBytesStay(c: Text, i: nat)
    requires i < |c| && IsNumberByte(c[i])
    ensures SkipWhitespace(c, i) == i && c[i] != COMMA && c[i] != CLOSE_BRACKET && c[i] != CLOSE_BRACE && c[i] != 0
  {
  }

  // ----- Arrays -----

  lemma OpensArray(c: Text, i: nat, d: nat)
    requires Terminated(c) && i < |c| && c[i] == OPEN_BRACKET
    ensures ValueAt(c, i, d) == ArrayAt(c, i, d)
  {
    NoKeyword(c, i);
  }

  lemma SkipAgain(c: Text, i: nat)
    requires i < |c|
    ensures SkipWhitespace(c, SkipWhitespace(c, i)) == SkipWhitespace(c, i)
    decreases |c| - i
  {
  }

  /** The parser steps back before the first item and skips the white space once more. */
  lemma SkippedBeforeItems(c: Text, i: nat, d: nat)
    requires Terminated(c) && i < |c|
    ensures ItemsAt(c, SkipWhitespace(c, i), d) == ItemsAt(c, i, d)
  {
    SkipAgain(c, i);
    hide SkipWhitespace, ValueAt;
  }

  lemma {:induction false} ListIsRead(c: Text, i: nat, d: nat, t: Tree)
    requires Terminated(c) && i < |c| && t.List? && TreeOk(t, false) && d <= NESTING_LIMIT && Has(c, i, Written(t))
    ensures Found(c, ValueAt(c, i, d), t, i + |Written(t)|, Fits(t, NESTING_LIMIT - d))
    decreases t, 0
  {
    hide Has, Terminated, ValueAt, ItemsAt, WrittenItems, WrittenGap, ItemsMeaning, ItemsFit, ItemsOk, GapOk,
        SkipWhitespace, IsNumberByte;
    var inner := if t.items == [] then WrittenGap(t.gap) else WrittenItems(t.items);
    HasParts(c, i, [91] + inner, [93]);
    HasParts(c, i, [91], inner);
    HasByte(c, i, [91], 0);
    HasByte(c, i + 1 + |inner|, [93], 0);
    OpensArray(c, i, d);
    var j := SkipWhitespace(c, i + 1);
    if t.items == [] {
      GapIsSkipped(c, i + 1, t.gap);
      Stays(c, i + 1 + |inner|);
      NoItems();
    } else {
      ItemsBegin(c, i + 1, t.items);
      if d < NESTING_LIMIT {
        SkippedBeforeItems(c, i + 1, d + 1);
        ItemsAreRead(c, i + 1, d + 1, t.items);
      }
    }
  }

  lemma NoItems()
    ensures ItemsFit([], 0) && ItemsMeaning([]) == [] && PairsFit([], 0) && PairsMeaning([]) == []
    ensures forall room :: ItemsFit([], room) && PairsFit([], room)
  {
  }

  lemma ItemParts(items: seq<Item>, room: nat)
    requires items != [] && ItemsOk(items, false)
    ensures ItemOk(items[0], false) && ItemsOk(items[1..], false)
    ensures WrittenItems(items)
         == WrittenItem(items[0]) + if |items| == 1 then [] else [44] + WrittenItems(items[1..])
    ensures ItemsMeaning(items) == [Meaning(items[0].tree)] + ItemsMeaning(items[1..])
    ensures ItemsFit(items, room) <==> Fits(items[0].tree, room) && ItemsFit(items[1..], room)
  {
  }

  /** The first item stands at i, and what follows it is a comma or whatever follows all. */
  lemma ItemsBegin(c: Text, i: nat, items: seq<Item>)
    requires items != [] && ItemsOk(items, false) && Has(c, i, WrittenItems(items))
    ensures Has(c, i, WrittenItem(items[0])) && i < |c| && c[SkipWhitespace(c, i)] != 93
    ensures var k := i + |WrittenItem(items[0])|;
            if |items| == 1 then k == i + |WrittenItems(items)|
            else
              && k < |c| && c[k] == 44 && Has(c, k + 1, WrittenItems(items[1..]))
              && k + 1 + |WrittenItems(items[1..])| == i + |WrittenItems(items)|
  {
    hide Has, ItemOk, WrittenItem, WrittenItems, Meaning, SkipWhitespace;
    ItemParts(items, 0);
    var t := WrittenItem(items[0]);
    if |items| == 1 {
      assert t + [] == t;
    } else {
      var rest := WrittenItems(items[1..]);
      HasParts(c, i, t, [44] + rest);
      HasParts(c, i + |t|, [44], rest);
      HasByte(c, i + |t|, [44], 0);
    }
    ItemBegins(c, i, items[0]);
  }

  lemma ItemBegins(c: Text, i: nat, item: Item)
    requires ItemOk(item, false) && Has(c, i, WrittenItem(item))
    ensures i < |c| && c[SkipWhitespace(c, i)] != 93
  {
    hide Has, TreeOk, GapOk, Written, WrittenGap, SkipWhitespace;
    var b, t, a := WrittenGap(item.before), Written(item.tree), WrittenGap(item.after);
    HasParts(c, i, b + t, a);
    HasParts(c, i, b, t);
    TreeBegins(item.tree);
    HasByte(c, i + |b|, t, 0);
    GapIsSkipped(c, i, item.before);
    Stays(c, i + |b|);
  }

  lemma EndsHere(c: Text, i: nat)
    requires i < |c| && (c[i] == COMMA || c[i] == CLOSE_BRACKET || c[i] == CLOSE_BRACE || c[i] == COLON)
    ensures Ends(c, i)
  {
  }

  lemma {:induction false} ItemsAreRead(c: Text, i: nat, d: nat, items: seq<Item>)
    requires Terminated(c) && i < |c| && items != [] && ItemsOk(items, false) && d <= NESTING_LIMIT
    requires Has(c, i, WrittenItems(items)) && Has(c, i + |WrittenItems(items)|, [93])
    ensures ItemsAt(c, i, d)
         == if ItemsFit(items, NESTING_LIMIT - d)
            then Some(Parsed(ItemsMeaning(items), i + |WrittenItems(items)| + 1)) else None
    decreases items
  {
    hide Has, Terminated, ValueAt, ItemsAt, WrittenItems, WrittenItem, ItemsMeaning, ItemsFit, ItemsOk, ItemOk,
        SkipWhitespace, IsNumberByte, Meaning, Fits, Ends, Got;
    var k, end := i + |WrittenItem(items[0])|, i + |WrittenItems(items)|;
    HasByte(c, end, [93], 0);
    ItemParts(items, NESTING_LIMIT - d);
    ItemsBegin(c, i, items);
    EndsHere(c, k);
    ItemIsRead(c, i, d, items[0]);
    var m, fits := Meaning(items[0].tree), Fits(items[0].tree, NESTING_LIMIT - d);
    if |items| == 1 {
      ItemsEnd(c, i, d, k, m, fits, items[0].tree.Numeral?);
      NoItems();
      assert items[1..] == [] && [m] + [] == [m];
    } else {
      ItemsAreRead(c, k + 1, d, items[1..]);
      ItemsGoOn(c, i, d, k, m, fits, items[0].tree.Numeral?);
    }
  }

  lemma ItemsEnd(c: Text, i: nat, d: nat, k: nat, v: Value, fits: bool, number: bool)
    requires Terminated(c) && i < |c| && k < |c| && c[k] == CLOSE_BRACKET
    requires Got(c, ValueAt(c, SkipWhitespace(c, i), d), v, k, fits, number)
    ensures ItemsAt(c, i, d) == if fits then Some(Parsed([v], k + 1)) else None
  {
    hide ValueAt, ItemsAt, SkipWhitespace, IsNumberByte, Terminated;
    ItemsAtIs(c, i, d);
    var item := ValueAt(c, SkipWhitespace(c, i), d);
    if item.Some? {
      NoComma(c, SkipWhitespace(c, item.value.next));
    }
  }

  lemma ItemsGoOn(c: Text, i: nat, d: nat, k: nat, v: Value, fits: bool, number: bool)
    requires Terminated(c) && i < |c| && k + 1 < |c| && c[k] == COMMA
    requires Got(c, ValueAt(c, SkipWhitespace(c, i), d), v, k, fits, number)
    ensures var rest := ItemsAt(c, k + 1, d);
            ItemsAt(c, i, d)
            == if fits && rest.Some? then Some(Parsed([v] + rest.value.value, rest.value.next)) else None
  {
    hide ValueAt, ItemsAt, SkipWhitespace, IsNumberByte, Terminated;
    ItemsAtIs(c, i, d);
    var item := ValueAt(c, SkipWhitespace(c, i), d);
    if item.Some? {
      NoComma(c, SkipWhitespace(c, item.value.next));
    }
  }

  lemma NoComma(c: Text, i: nat)
    requires i < |c|
    ensures IsNumberByte(c[i]) ==> c[i] != COMMA && c[i] != CLOSE_BRACKET && c[i] != CLOSE_BRACE && c[i] != 0
  {
  }

  /** ItemsAt, one turn. */
  lemma ItemsAtIs(c: Text, i: nat, d: nat)
    requires Terminated(c) && i < |c|
    ensures var item := ValueAt(c, SkipWhitespace(c, i), d);
            if item.None? then ItemsAt(c, i, d) == None
            else
              var k := SkipWhitespace(c, item.value.next);
              if c[k] == COMMA then
                var rest := ItemsAt(c, k + 1, d);
                ItemsAt(c, i, d)
                == if rest.None? then None else Some(Parsed([item.value.value] + rest.value.value, rest.value.next))
              else ItemsAt(c, i, d) == if c[k] == CLOSE_BRACKET then Some(Parsed([item.value.value], k + 1)) else None
  {
    hide ValueAt, SkipWhitespace;
  }

  // ----- Objects -----

  lemma OpensObject(c: Text, i: nat, d: nat)
    requires Terminated(c) && i < |c| && c[i] == OPEN_BRACE
    ensures ValueAt(c, i, d) == ObjectAt(c, i, d)
  {
    NoKeyword(c, i);
  }

  lemma SkippedBeforePairs(c: Text, i: nat, d: nat)
    requires Terminated(c) && i < |c|
    ensures MembersAt(c, SkipWhitespace(c, i), d) == MembersAt(c, i, d)
  {
    SkipAgain(c, i);
    hide SkipWhitespace, ValueAt, StringAt;
  }

  lemma {:induction false} RecordIsRead(c: Text, i: nat, d: nat, t: Tree)
    requires Terminated(c) && i < |c| && t.Record? && TreeOk(t, false) && d <= NESTING_LIMIT && Has(c, i, Written(t))
    ensures Found(c, ValueAt(c, i, d), t, i + |Written(t)|, Fits(t, NESTING_LIMIT - d))
    decreases t, 0
  {
    hide Has, Terminated, ValueAt, MembersAt, WrittenPairs, WrittenGap, PairsMeaning, PairsFit, PairsOk, GapOk,
        SkipWhitespace, IsNumberByte;
    var inner := if t.pairs == [] then WrittenGap(t.gap) else WrittenPairs(t.pairs);
    HasParts(c, i, [123] + inner, [125]);
    HasParts(c, i, [123], inner);
    HasByte(c, i, [123], 0);
    HasByte(c, i + 1 + |inner|, [125], 0);
    OpensObject(c, i, d);
    var j := SkipWhitespace(c, i + 1);
    if t.pairs == [] {
      GapIsSkipped(c, i + 1, t.gap);
      Stays(c, i + 1 + |inner|);
      NoItems();
    } else {
      PairsBegin(c, i + 1, t.pairs);
      if d < NESTING_LIMIT {
        SkippedBeforePairs(c, i + 1, d + 1);
        PairsAreRead(c, i + 1, d + 1, t.pairs);
      }
    }
  }

  lemma PairParts(pairs: seq<Pair>, room: nat)
    requires pairs != [] && PairsOk(pairs, false)
    ensures PairOk(pairs[0], false) && PairsOk(pairs[1..], false)
    ensures WrittenPairs(pairs)
         == WrittenPair(pairs[0]) + if |pairs| == 1 then [] else [44] + WrittenPairs(pairs[1..])
    ensures PairsMeaning(pairs) == [PairMeaning(pairs[0])] + PairsMeaning(pairs[1..])
    ensures PairsFit(pairs, room) <==> Fits(pairs[0].item.tree, room) && PairsFit(pairs[1..], room)
  {
  }

  lemma PairsBegin(c: Text, i: nat, pairs: seq<Pair>)
    requires pairs != [] && PairsOk(pairs, false) && Has(c, i, WrittenPairs(pairs))
    ensures Has(c, i, WrittenPair(pairs[0])) && i < |c| && c[SkipWhitespace(c, i)] == 34
    ensures var k := i + |WrittenPair(pairs[0])|;
            if |pairs| == 1 then k == i + |WrittenPairs(pairs)|
            else
              && k < |c| && c[k] == 44 && Has(c, k + 1, WrittenPairs(pairs[1..]))
              && k + 1 + |WrittenPairs(pairs[1..])| == i + |WrittenPairs(pairs)|
  {
    hide Has, PairOk, WrittenPair, WrittenPairs, WrittenItem, PairMeaning, SkipWhitespace, StringAt, StringBytes;
    PairParts(pairs, 0);
    var t := WrittenPair(pairs[0]);
    if |pairs| == 1 {
      assert t + [] == t;
    } else {
      var rest := WrittenPairs(pairs[1..]);
      HasParts(c, i, t, [44] + rest);
      HasParts(c, i + |t|, [44], rest);
      HasByte(c, i + |t|, [44], 0);
    }
    KeyIsRead(c, i, pairs[0]);
  }

  /** The key, and where the colon and what follows it stand. */
  lemma KeyIsRead(c: Text, i: nat, p: Pair)
    requires PairOk(p, false) && Has(c, i, WrittenPair(p))
    ensures var j := SkipWhitespace(c, i);
            var item := i + |WrittenPair(p)| - |WrittenItem(p.item)|;
            && i < item < |c| && c[j] == 34 && Has(c, item, WrittenItem(p.item))
            && StringAt(c, j).Some? && StringAt(c, j).value.value == CString(StringBytes(p.key))
            && StringAt(c, j).value.next < |c| && SkipWhitespace(c, StringAt(c, j).value.next) == item - 1
            && c[item - 1] == 58
  {
    hide Has, PiecesOk, GapOk, ItemOk, WrittenString, WrittenGap, WrittenItem, StringBytes, SkipWhitespace, StringAt;
    var b, k, m, v := WrittenGap(p.before), WrittenString(p.key), WrittenGap(p.middle), WrittenItem(p.item);
    HasParts(c, i, b + k + m + [58], v);
    HasParts(c, i, b + k + m, [58]);
    HasParts(c, i, b + k, m);
    HasParts(c, i, b, k);
    StringIsRead(c, i + |b|, p.key);
    GapIsSkipped(c, i, p.before);
    Stays(c, i + |b|);
    HasByte(c, i + |b| + |k| + |m|, [58], 0);
    GapIsSkipped(c, i + |b| + |k|, p.middle);
    Stays(c, i + |b| + |k| + |m|);
    ItemIsNotEmpty(c, i + |b| + |k| + |m| + 1, p.item);
  }

  lemma ItemIsNotEmpty(c: Text, i: nat, item: Item)
    requires ItemOk(item, false) && Has(c, i, WrittenItem(item))
    ensures i < |c| && |WrittenItem(item)| > 0
  {
    hide SkipWhitespace, TreeOk, GapOk, Written, WrittenGap;
    ItemBegins(c, i, item);
    TreeBegins(item.tree);
  }

  lemma {:induction false} PairIsParsed(c: Text, i: nat, d: nat, p: Pair)
    requires Terminated(c) && i < |c| && PairOk(p, false) && d <= NESTING_LIMIT && Has(c, i, WrittenPair(p))
    requires Ends(c, i + |WrittenPair(p)|)
    ensures Got(c, MemberAt(c, i, d), PairMeaning(p), i + |WrittenPair(p)|, Fits(p.item.tree, NESTING_LIMIT - d),
                p.item.tree.Numeral?)
    decreases p
  {
    hide Has, Terminated, ValueAt, StringAt, WrittenPair, WrittenItem, StringBytes, GapOk, PiecesOk, ItemOk,
        SkipWhitespace, IsNumberByte, Meaning, Fits, Ends;
    KeyIsRead(c, i, p);
    var item := i + |WrittenPair(p)| - |WrittenItem(p.item)|;
    ItemIsRead(c, item, d, p.item);
  }

  lemma {:induction false} PairsAreRead(c: Text, i: nat, d: nat, pairs: seq<Pair>)
    requires Terminated(c) && i < |c| && pairs != [] && PairsOk(pairs, false) && d <= NESTING_LIMIT
    requires Has(c, i, WrittenPairs(pairs)) && Has(c, i + |WrittenPairs(pairs)|, [125])
    ensures MembersAt(c, i, d)
         == if PairsFit(pairs, NESTING_LIMIT - d)
            then Some(Parsed(PairsMeaning(pairs), i + |WrittenPairs(pairs)| + 1)) else None
    decreases pairs
  {
    hide Has, Terminated, MemberAt, MembersAt, WrittenPairs, WrittenPair, PairsMeaning, PairsFit, PairsOk, PairOk,
        SkipWhitespace, IsNumberByte, PairMeaning, Fits, Ends, Got;
    var k, end := i + |WrittenPair(pairs[0])|, i + |WrittenPairs(pairs)|;
    HasByte(c, end, [125], 0);
    PairParts(pairs, NESTING_LIMIT - d);
    PairsBegin(c, i, pairs);
    EndsHere(c, k);
    PairIsParsed(c, i, d, pairs[0]);
    var m, fits := PairMeaning(pairs[0]), Fits(pairs[0].item.tree, NESTING_LIMIT - d);
    if |pairs| == 1 {
      PairsEnd(c, i, d, k, m, fits, pairs[0].item.tree.Numeral?);
      NoItems();
      assert pairs[1..] == [] && [m] + [] == [m];
    } else {
      PairsAreRead(c, k + 1, d, pairs[1..]);
      PairsGoOn(c, i, d, k, m, fits, pairs[0].item.tree.Numeral?);
    }
  }

  lemma PairsEnd(c: Text, i: nat, d: nat, k: nat, m: Member, fits: bool, number: bool)
    requires Terminated(c) && i < |c| && k < |c| && c[k] == CLOSE_BRACE && Got(c, MemberAt(c, i, d), m, k, fits, number)
    ensures MembersAt(c, i, d) == if fits then Some(Parsed([m], k + 1)) else None
  {
    hide MemberAt, MembersAt, SkipWhitespace, IsNumberByte, Terminated;
    MembersAtIs(c, i, d);
    var member := MemberAt(c, i, d);
    if member.Some? {
      NoComma(c, SkipWhitespace(c, member.value.next));
    }
  }

  lemma PairsGoOn(c: Text, i: nat, d: nat, k: nat, m: Member, fits: bool, number: bool)
    requires Terminated(c) && i < |c| && k + 1 < |c| && c[k] == COMMA && Got(c, MemberAt(c, i, d), m, k, fits, number)
    ensures var rest := MembersAt(c, k + 1, d);
            MembersAt(c, i, d)
            == if fits && rest.Some? then Some(Parsed([m] + rest.value.value, rest.value.next)) else None
  {
    hide MemberAt, MembersAt, SkipWhitespace, IsNumberByte, Terminated;
    MembersAtIs(c, i, d);
    var member := MemberAt(c, i, d);
    if member.Some? {
      NoComma(c, SkipWhitespace(c, member.value.next));
    }
  }

  /** MembersAt, one turn. */
  lemma MembersAtIs(c: Text, i: nat, d: nat)
    requires Terminated(c) && i < |c|
    ensures var member := MemberAt(c, i, d);
            if member.None? then MembersAt(c, i, d) == None
            else
              var k := SkipWhitespace(c, member.value.next);
              if c[k] == COMMA then
                var rest := MembersAt(c, k + 1, d);
                MembersAt(c, i, d)
                == if rest.None? then None else Some(Parsed([member.value.value] + rest.value.value, rest.value.next))
              else MembersAt(c, i, d) == if c[k] == CLOSE_BRACE then Some(Parsed([member.value.value], k + 1)) else None
  {
    hide MemberAt, SkipWhitespace;
  }

  // ----- A whole text -----

  lemma AsCString(t: Text)
    requires NulFree(t)
    ensures Terminated(t + [0]) && Has(t + [0], 0, t)
  {
    var c := t + [0];
    assert forall k :: 0 <= k < |t| ==> c[k] == t[k];
    assert c[0..0 + |t|] == t;
  }

  lemma AtTheTerminator(c: Text)
    requires Terminated(c)
    ensures Ends(c, |c| - 1)
  {
    assert SkipWhitespace(c, |c|) == |c| - 1;
  }

  /** Parsing starts in front of the first value. */
  lemma StartsBehindTheMark(c: Text, doc: Document)
    requires ItemOk(doc.item, false) && Has(c, 0, WrittenDocument(doc)) && |c| == |WrittenDocument(doc)| + 1
    ensures var i := |WrittenMark(doc.mark)|;
            i < |c| && Start(c) == SkipWhitespace(c, i) && Has(c, i, WrittenItem(doc.item))
  {
    hide Has, ItemOk, WrittenItem, SkipWhitespace;
    var i := |WrittenMark(doc.mark)|;
    HasParts(c, 0, WrittenMark(doc.mark), WrittenItem(doc.item));
    ItemIsNotEmpty(c, i, doc.item);
    if doc.mark {
      assert BOM == WrittenMark(true);
    } else {
      NoMark(c, doc.item);
      NotThere(c, 0, BOM);
    }
  }

  lemma NoMark(c: Text, item: Item)
    requires ItemOk(item, false) && Has(c, 0, WrittenItem(item))
    ensures c != [] && c[0] < 128
  {
    hide Has, TreeOk, Written, WrittenGap;
    var b, t, a := WrittenGap(item.before), Written(item.tree), WrittenGap(item.after);
    HasParts(c, 0, b + t, a);
    HasParts(c, 0, b, t);
    TreeBegins(item.tree);
    if item.before == [] {
      EmptyGap();
      HasByte(c, 0, t, 0);
    } else {
      GapBegins(item.before);
      HasByte(c, 0, b, 0);
    }
  }

  lemma EmptyGap()
    ensures WrittenGap([]) == []
  {
  }

  lemma GapBegins(g: Gap)
    requires g != [] && GapOk(g, false)
    ensures WrittenGap(g) != [] && WrittenGap(g)[0] <= 32
  {
    assert g[0] in g;
  }

  lemma DocumentIsCString(doc: Document, comments: bool)
    requires ItemOk(doc.item, comments)
    ensures var t := WrittenDocument(doc);
            NulFree(t) && Terminated(t + [0]) && Has(t + [0], 0, t)
  {
    hide ItemOk, WrittenItem, Has, Terminated;
    ItemIsAbove(doc.item, comments, 1);
    AboveParts(WrittenMark(doc.mark), WrittenItem(doc.item), 1);
    AsCString(WrittenDocument(doc));
  }

  lemma DocumentLength(doc: Document)
    ensures |WrittenDocument(doc)| == |WrittenMark(doc.mark)| + |WrittenItem(doc.item)|
  {
  }

  /** Every text of the grammar, with or without a byte order mark, is read as the value it means,
      with all of it consumed, if it is nested at most 1000 deep and has no number of more than
      63 bytes. Otherwise it is rejected, but for a text that is one long number, of which the
      beginning is read when something may be left over. */
  lemma ParseReadsTheGrammar(doc: Document, whole: bool)
    requires ItemOk(doc.item, false)
    ensures var t, v := WrittenDocument(doc), Meaning(doc.item.tree);
            var c := t + [0];
            && Terminated(c)
            && (if Fits(doc.item.tree, 1000) then
                  Parse(c, whole) == Some(Parsed(v, if whole then |t| else |t| - |WrittenGap(doc.item.after)|))
                else whole || !doc.item.tree.Numeral? ==> Parse(c, whole) == None)
  {
    hide Has, Terminated, NulFree, ItemOk, WrittenItem, WrittenDocument, Meaning, Fits, ValueAt, SkipWhitespace,
        IsNumberByte, WrittenGap, Start, Ends;
    var t := WrittenDocument(doc);
    var c := t + [0];
    DocumentIsCString(doc, false);
    StartsBehindTheMark(c, doc);
    AtTheTerminator(c);
    DocumentLength(doc);
    var i := |WrittenMark(doc.mark)|;
    ItemIsRead(c, i, 0, doc.item);
    var r := ValueAt(c, Start(c), 0);
    if r.Some? && r.value.next < |c| {
      NoComma(c, SkipWhitespace(c, r.value.next));
    }
  }
}
