/**
 The texts of JSON as RFC 8259 describes them: a tree for each text, how it is written, whether
 it is well formed, and the value it means. Bytes are numbers here, and nothing is said in terms
 of how cJSON reads or prints.
 */
module Grammar {
  import opened Bytes
  import opened Utf
  import opened Json

  // ----- White space, and the comments that some texts have there -----

  datatype Filler =
    | Blank(b: Byte)
    | LineComment(comment: Text)
    | BlockComment(comment: Text)

  type Gap = seq<Filler>

  function WrittenFiller(f: Filler): Text {
    match f
    case Blank(b) => [b]
    case LineComment(comment) => [47, 47] + comment + [10]
    case BlockComment(comment) => [47, 42] + comment + [42, 47]
  }

  function WrittenGap(g: Gap): Text {
    if g == [] then [] else WrittenFiller(g[0]) + WrittenGap(g[1..])
  }

  /** Section 2: space, tab, line feed, carriage return. */
  predicate IsBlank(b: Byte) {
    b == 32 || b == 9 || b == 10 || b == 13
  }

  /** A line comment stops before its newline. A block comment does not begin with a slash: one
      that opens with slash, star, slash is closed by that slash. */
  predicate FillerOk(f: Filler) {
    match f
    case Blank(b) => IsBlank(b)
    case LineComment(comment) => forall k :: 0 <= k < |comment| ==> comment[k] != 0 && comment[k] != 10
    case BlockComment(comment) =>
      && (forall k :: 0 <= k < |comment| ==> comment[k] != 0)
      && (comment != [] ==> comment[0] != 47)
      && (forall k :: 0 < k < |comment| && comment[k] == 47 ==> comment[k - 1] != 42)
  }

  /** White space with comments, or white space for which any byte up to the space passes. */
  predicate GapOk(g: Gap, comments: bool) {
    forall f :: f in g ==> if comments then FillerOk(f) else f.Blank? && 1 <= f.b <= 32
  }

  // ----- Section 7: strings -----

  type Word16 = w: nat | w < 0x10000

  /** A number of sixteen bits, and which of its hexadecimal digits are capitals. */
  datatype Quad = Quad(w: Word16, capitals: (bool, bool, bool, bool))

  function WrittenQuad(q: Quad): (t: Text)
    ensures |t| == 4
  {
    [HexDigit(q.w / 4096, q.capitals.0), HexDigit(q.w / 256 % 16, q.capitals.1),
     HexDigit(q.w / 16 % 16, q.capitals.2), HexDigit(q.w % 16, q.capitals.3)]
  }

  /** The sequences of a backslash and one letter, and what they stand for. */
  const SHORT_FORMS: map<Byte, Byte> :=
    map[34 := 34, 92 := 92, 47 := 47, 98 := 8, 102 := 12, 110 := 10, 114 := 13, 116 := 9]

  /** Part of a string, with the bytes it stands for. */
  datatype Piece =
    | Plain(b: Byte)
    | Short(letter: Byte)
    | Unit(quad: Quad, octets: Text)
    | Surrogates(high: Quad, low: Quad, octets: Text)

  function WrittenPiece(p: Piece): Text {
    match p
    case Plain(b) => [b]
    case Short(letter) => [92, letter]
    case Unit(quad, _) => [92, 117] + WrittenQuad(quad)
    case Surrogates(high, low, _) => [92, 117] + WrittenQuad(high) + [92, 117] + WrittenQuad(low)
  }

  predicate PieceOk(p: Piece) {
    match p
    case Plain(b) => b != 0 && b != 34 && b != 92
    case Short(letter) => letter in SHORT_FORMS
    case Unit(quad, octets) => IsUtf8(octets, quad.w)
    case Surrogates(high, low, octets) =>
      IsHighSurrogate(high.w) && IsLowSurrogate(low.w) && IsUtf8(octets, OfPair(high.w, low.w))
  }

  function PieceBytes(p: Piece): Text {
    match p
    case Plain(b) => [b]
    case Short(letter) => if letter in SHORT_FORMS then [SHORT_FORMS[letter]] else []
    case Unit(_, octets) => octets
    case Surrogates(_, _, octets) => octets
  }

  predicate PiecesOk(ps: seq<Piece>) {
    forall p :: p in ps ==> PieceOk(p)
  }

  function WrittenPieces(ps: seq<Piece>): Text {
    if ps == [] then [] else WrittenPiece(ps[0]) + WrittenPieces(ps[1..])
  }

  function StringBytes(ps: seq<Piece>): Text {
    if ps == [] then [] else PieceBytes(ps[0]) + StringBytes(ps[1..])
  }

  function WrittenString(ps: seq<Piece>): Text {
    [34] + WrittenPieces(ps) + [34]
  }

  // ----- Section 6: numbers -----

  type Digit = d: nat | d < 10

  datatype Exponential =
    | NoExponent
    | TimesTenTo(letter: Byte, sign: Text, digits: seq<Digit>)

  datatype Figure = Figure(minus: bool, whole: seq<Digit>, fraction: seq<Digit>, exponential: Exponential)

  function WrittenDigits(ds: seq<Digit>): (t: Text)
    ensures |t| == |ds|
  {
    seq(|ds|, i requires 0 <= i < |ds| => DECIMALS[ds[i]])
  }

  function WrittenFraction(ds: seq<Digit>): Text {
    if ds == [] then [] else [46] + WrittenDigits(ds)
  }

  function WrittenExponential(e: Exponential): Text {
    match e
    case NoExponent => []
    case TimesTenTo(letter, sign, digits) => [letter] + sign + WrittenDigits(digits)
  }

  function WrittenMinus(minus: bool): Text {
    if minus then [45] else []
  }

  function WrittenFigure(f: Figure): Text {
    WrittenMinus(f.minus) + WrittenDigits(f.whole) + WrittenFraction(f.fraction) + WrittenExponential(f.exponential)
  }

  predicate ExponentialOk(e: Exponential) {
    e.TimesTenTo? ==>
      (e.letter == 69 || e.letter == 101) && (e.sign == [] || e.sign == [43] || e.sign == [45]) && e.digits != []
  }

  predicate FigureOk(f: Figure) {
    f.whole != [] && ExponentialOk(f.exponential)
  }

  function Decimal(ds: seq<Digit>): nat {
    if ds == [] then 0 else Decimal(ds[..|ds| - 1]) * 10 + ds[|ds| - 1]
  }

  function TenTo(k: nat): (x: real)
    ensures x > 0.0
  {
    if k == 0 then 1.0 else 10.0 * TenTo(k - 1)
  }

  function Magnitude(f: Figure): real {
    var x := Decimal(f.whole) as real + Decimal(f.fraction) as real / TenTo(|f.fraction|);
    match f.exponential
    case NoExponent => x
    case TimesTenTo(_, sign, digits) =>
      if sign == [45] then x / TenTo(Decimal(digits)) else x * TenTo(Decimal(digits))
  }

  function FigureValue(f: Figure): real {
    if f.minus then -Magnitude(f) else Magnitude(f)
  }

  // ----- Sections 3 to 5: values, objects, arrays -----

  datatype Tree =
    | Word(word: Value)
    | Numeral(figure: Figure)
    | Quoted(pieces: seq<Piece>)
    | List(gap: Gap, items: seq<Item>)
    | Record(gap: Gap, pairs: seq<Pair>)

  /** A value with white space on both sides. */
  datatype Item = Item(before: Gap, tree: Tree, after: Gap)

  datatype Pair = Pair(before: Gap, key: seq<Piece>, middle: Gap, item: Item)

  /** The three literal names. */
  function WrittenWord(v: Value): Text {
    match v
    case Null => [110, 117, 108, 108]
    case False => [102, 97, 108, 115, 101]
    case True => [116, 114, 117, 101]
    case _ => []
  }

  function Written(t: Tree): Text
    decreases t
  {
    match t
    case Word(word) => WrittenWord(word)
    case Numeral(figure) => WrittenFigure(figure)
    case Quoted(pieces) => WrittenString(pieces)
    case List(gap, items) => [91] + (if items == [] then WrittenGap(gap) else WrittenItems(items)) + [93]
    case Record(gap, pairs) => [123] + (if pairs == [] then WrittenGap(gap) else WrittenPairs(pairs)) + [125]
  }

  function WrittenItem(item: Item): Text
    decreases item
  {
    WrittenGap(item.before) + Written(item.tree) + WrittenGap(item.after)
  }

  /** With a comma between any two. */
  function WrittenItems(items: seq<Item>): Text
    decreases items
  {
    if items == [] then []
    else WrittenItem(items[0]) + if |items| == 1 then [] else [44] + WrittenItems(items[1..])
  }

  function WrittenPair(p: Pair): Text
    decreases p
  {
    WrittenGap(p.before) + WrittenString(p.key) + WrittenGap(p.middle) + [58] + WrittenItem(p.item)
  }

  function WrittenPairs(pairs: seq<Pair>): Text
    decreases pairs
  {
    if pairs == [] then []
    else WrittenPair(pairs[0]) + if |pairs| == 1 then [] else [44] + WrittenPairs(pairs[1..])
  }

  predicate TreeOk(t: Tree, comments: bool)
    decreases t
  {
    match t
    case Word(word) => word == Null || word == False || word == True
    case Numeral(figure) => FigureOk(figure)
    case Quoted(pieces) => PiecesOk(pieces)
    case List(gap, items) => GapOk(gap, comments) && ItemsOk(items, comments)
    case Record(gap, pairs) => GapOk(gap, comments) && PairsOk(pairs, comments)
  }

  predicate ItemOk(item: Item, comments: bool)
    decreases item
  {
    GapOk(item.before, comments) && TreeOk(item.tree, comments) && GapOk(item.after, comments)
  }

  predicate ItemsOk(items: seq<Item>, comments: bool)
    decreases items
  {
    items == [] || (ItemOk(items[0], comments) && ItemsOk(items[1..], comments))
  }

  predicate PairOk(p: Pair, comments: bool)
    decreases p
  {
    GapOk(p.before, comments) && PiecesOk(p.key) && GapOk(p.middle, comments) && ItemOk(p.item, comments)
  }

  predicate PairsOk(pairs: seq<Pair>, comments: bool)
    decreases pairs
  {
    pairs == [] || (PairOk(pairs[0], comments) && PairsOk(pairs[1..], comments))
  }

  /** The value of a text. Strings are C strings: a NUL ends them. */
  function Meaning(t: Tree): Value
    decreases t
  {
    match t
    case Word(word) => word
    case Numeral(figure) => Number(FigureValue(figure))
    case Quoted(pieces) => String(CString(StringBytes(pieces)))
    case List(_, items) => Array(ItemsMeaning(items))
    case Record(_, pairs) => Object(PairsMeaning(pairs))
  }

  function ItemsMeaning(items: seq<Item>): seq<Value>
    decreases items
  {
    if items == [] then [] else [Meaning(items[0].tree)] + ItemsMeaning(items[1..])
  }

  function PairMeaning(p: Pair): Member
    decreases p
  {
    Member(CString(StringBytes(p.key)), Meaning(p.item.tree))
  }

  function PairsMeaning(pairs: seq<Pair>): seq<Member>
    decreases pairs
  {
    if pairs == [] then [] else [PairMeaning(pairs[0])] + PairsMeaning(pairs[1..])
  }

  /** Nested at most that deep, and no number of more than 63 bytes. */
  predicate Fits(t: Tree, room: nat)
    decreases t
  {
    match t
    case Numeral(figure) => |WrittenFigure(figure)| <= 63
    case List(_, items) => room > 0 && ItemsFit(items, room - 1)
    case Record(_, pairs) => room > 0 && PairsFit(pairs, room - 1)
    case _ => true
  }

  predicate ItemsFit(items: seq<Item>, room: nat)
    decreases items
  {
    items == [] || (Fits(items[0].tree, room) && ItemsFit(items[1..], room))
  }

  predicate PairsFit(pairs: seq<Pair>, room: nat)
    decreases pairs
  {
    pairs == [] || (Fits(pairs[0].item.tree, room) && PairsFit(pairs[1..], room))
  }

  // ----- Forms of the same text -----

  /** An escape sequence only where there has to be one, and the short one if there is one. */
  predicate Sparing(p: Piece) {
    match p
    case Plain(b) => b >= 32
    case Short(letter) => letter != 47
    case Unit(quad, _) =>
      && quad.w < 32 && quad.w !in {8, 9, 10, 12, 13}
      && quad.capitals == (false, false, false, false)
    case Surrogates(_, _, _) => false
  }

  predicate AllSparing(ps: seq<Piece>) {
    forall p :: p in ps ==> Sparing(p)
  }

  /** An integer, without leading zeros. */
  predicate IsPlainInteger(f: Figure) {
    f.fraction == [] && f.exponential == NoExponent && (|f.whole| > 1 ==> f.whole[0] != 0)
  }

  predicate Terse(t: Tree)
    decreases t
  {
    match t
    case Word(_) => true
    case Numeral(figure) => IsPlainInteger(figure)
    case Quoted(pieces) => AllSparing(pieces)
    case List(_, items) => forall k :: 0 <= k < |items| ==> Terse(items[k].tree)
    case Record(_, pairs) => forall k :: 0 <= k < |pairs| ==> AllSparing(pairs[k].key) && Terse(pairs[k].item.tree)
  }

  /** No white space anywhere. */
  predicate Compact(t: Tree)
    decreases t
  {
    match t
    case List(gap, items) => gap == [] && forall k :: 0 <= k < |items| ==> CompactItem(items[k])
    case Record(gap, pairs) =>
      && gap == []
      && forall k :: 0 <= k < |pairs| ==> pairs[k].before == [] == pairs[k].middle && CompactItem(pairs[k].item)
    case _ => true
  }

  predicate CompactItem(item: Item)
    decreases item
  {
    item.before == [] == item.after && Compact(item.tree)
  }

  /** A line feed and n tabs. */
  predicate IsLine(g: Gap, n: nat) {
    var t := WrittenGap(g);
    |t| == n + 1 && t[0] == 10 && forall k :: 0 < k <= n ==> t[k] == 9
  }

  /** Every member of an object stands on its own line behind depth + 1 tabs, with a tab between
      colon and value, and the closing brace on its own line behind depth tabs. The items of an
      array stand on one line, with a space behind each comma. */
  predicate Laid(t: Tree, depth: nat)
    decreases t
  {
    match t
    case List(gap, items) =>
      && gap == []
      && forall k :: 0 <= k < |items| ==>
                       && WrittenGap(items[k].before) == (if k == 0 then [] else [32])
                       && items[k].after == [] && Laid(items[k].tree, depth + 1)
    case Record(gap, pairs) =>
      && IsLine(gap, depth)
      && forall k :: 0 <= k < |pairs| ==>
                       && IsLine(pairs[k].before, depth + 1) && pairs[k].middle == []
                       && WrittenGap(pairs[k].item.before) == [9]
                       && (if k == |pairs| - 1 then IsLine(pairs[k].item.after, depth) else pairs[k].item.after == [])
                       && Laid(pairs[k].item.tree, depth + 1)
    case _ => true
  }

  /** The same text without white space and comments. */
  function Squeezed(t: Tree): Tree
    decreases t
  {
    match t
    case List(_, items) => List([], SqueezedItems(items))
    case Record(_, pairs) => Record([], SqueezedPairs(pairs))
    case _ => t
  }

  function SqueezedItem(item: Item): Item
    decreases item
  {
    Item([], Squeezed(item.tree), [])
  }

  function SqueezedItems(items: seq<Item>): (r: seq<Item>)
    ensures |r| == |items|
    decreases items
  {
    if items == [] then [] else [SqueezedItem(items[0])] + SqueezedItems(items[1..])
  }

  function SqueezedPair(p: Pair): Pair
    decreases p
  {
    Pair([], p.key, [], SqueezedItem(p.item))
  }

  function SqueezedPairs(pairs: seq<Pair>): (r: seq<Pair>)
    ensures |r| == |pairs|
    decreases pairs
  {
    if pairs == [] then [] else [SqueezedPair(pairs[0])] + SqueezedPairs(pairs[1..])
  }

  // ----- A whole text -----

  /** Section 2, with the byte order mark of section 8.1 if there is one. */
  datatype Document = Document(mark: bool, item: Item)

  function WrittenMark(mark: bool): Text {
    if mark then [0xEF, 0xBB, 0xBF] else []
  }

  function WrittenDocument(d: Document): Text {
    WrittenMark(d.mark) + WrittenItem(d.item)
  }
}
