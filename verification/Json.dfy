/**
 The values that worker/images/embedded-python/cJSON.c builds, prints and parses, the text it
 prints for a value, and the value it parses from a text.
 */
module Json {
  import opened Results
  import opened Bytes
  import opened Strings
  import opened Numbers

  datatype Value =
    | Null
    | False
    | True
    | Number(value: real)
    | String(s: Text)
    | Array(items: seq<Value>)
    | Object(members: seq<Member>)

  datatype Member = Member(key: Text, value: Value)

  // ----- Values -----

  /** The numbers whose printed form is plain digits. */
  predicate IsInteger(x: real) {
    x == x.Floor as real && -TOO_LARGE < x.Floor < TOO_LARGE
  }

  /** Strings are C strings, and numbers are integers of up to fifteen digits. */
  predicate Printable(v: Value) {
    match v
    case Number(x) => IsInteger(x)
    case String(s) => NulFree(s)
    case Array(items) => AllPrintable(items)
    case Object(members) => MembersPrintable(members)
    case _ => true
  }

  predicate AllPrintable(items: seq<Value>) {
    items == [] || (Printable(items[0]) && AllPrintable(items[1..]))
  }

  predicate MembersPrintable(members: seq<Member>) {
    members == [] || (NulFree(members[0].key) && Printable(members[0].value) && MembersPrintable(members[1..]))
  }

  function Max(a: nat, b: nat): nat {
    if a < b then b else a
  }

  /** How deep arrays and objects are nested. */
  function Nesting(v: Value): nat {
    match v
    case Array(items) => 1 + ItemsNesting(items)
    case Object(members) => 1 + MembersNesting(members)
    case _ => 0
  }

  function ItemsNesting(items: seq<Value>): nat {
    if items == [] then 0 else Max(Nesting(items[0]), ItemsNesting(items[1..]))
  }

  function MembersNesting(members: seq<Member>): nat {
    if members == [] then 0 else Max(Nesting(members[0].value), MembersNesting(members[1..]))
  }

  // ----- The printed text -----

  const NULL_TEXT: Text := [110, 117, 108, 108]
  const FALSE_TEXT: Text := [102, 97, 108, 115, 101]
  const TRUE_TEXT: Text := [116, 114, 117, 101]

  function Tabs(n: nat): (t: Text)
    ensures |t| == n
  {
    seq(n, i => TAB)
  }

  function Indent(fmt: bool, n: nat): (t: Text)
    ensures |t| == if fmt then n else 0
  {
    if fmt then Tabs(n) else []
  }

  function AfterColon(fmt: bool): Text {
    if fmt then [COLON, TAB] else [COLON]
  }

  function Between(fmt: bool): Text {
    if fmt then [COMMA, SPACE] else [COMMA]
  }

  function LineEnd(fmt: bool, more: bool): Text {
    (if more then [COMMA] else []) + (if fmt then [NEWLINE] else [])
  }

  function OpenObject(fmt: bool): Text {
    if fmt then [OPEN_BRACE, NEWLINE] else [OPEN_BRACE]
  }

  /** depth counts the arrays and objects around v, and objects indent their lines by it. */
  function ValueText(v: Value, fmt: bool, depth: nat): Text
    decreases v
  {
    match v
    case Null => NULL_TEXT
    case False => FALSE_TEXT
    case True => TRUE_TEXT
    case Number(x) => IntText(x.Floor)
    case String(s) => StringText(s)
    case Array(items) => [OPEN_BRACKET] + ItemsText(items, fmt, depth + 1) + [CLOSE_BRACKET]
    case Object(members) => OpenObject(fmt) + MembersText(members, fmt, depth + 1) + Indent(fmt, depth) + [CLOSE_BRACE]
  }

  function ItemsText(items: seq<Value>, fmt: bool, depth: nat): Text
    decreases items
  {
    if items == [] then []
    else ValueText(items[0], fmt, depth) + if |items| == 1 then [] else Between(fmt) + ItemsText(items[1..], fmt, depth)
  }

  function MembersText(members: seq<Member>, fmt: bool, depth: nat): Text
    decreases members
  {
    if members == [] then []
    else MemberText(members[0], fmt, depth) + LineEnd(fmt, |members| > 1) + MembersText(members[1..], fmt, depth)
  }

  function MemberText(m: Member, fmt: bool, depth: nat): Text
    decreases m
  {
    Indent(fmt, depth) + StringText(m.key) + AfterColon(fmt) + ValueText(m.value, fmt, depth)
  }

  // ----- The parsed value -----

  lemma StringEndsBefore(c: Text, i: nat)
    requires Terminated(c)
    ensures StringAt(c, i).Some? ==> i < StringAt(c, i).value.next < |c|
  {
  }

  const NESTING_LIMIT := 1000

  /** The first byte above SPACE, or the last byte there is. */
  function SkipWhitespace(c: Text, i: nat): (j: nat)
    requires i <= |c| && |c| > 0
    ensures j < |c| && (i < |c| ==> i <= j) && (j < |c| - 1 ==> c[j] > SPACE)
    decreases |c| - i
  {
    if i == |c| then i - 1 else if c[i] <= SPACE then SkipWhitespace(c, i + 1) else i
  }

  /** The value at i, at nesting depth d. */
  function ValueAt(c: Text, i: nat, d: nat): (r: Option<Parsed<Value>>)
    requires Terminated(c) && i < |c|
    ensures r.Some? ==> i < r.value.next < |c|
    decreases |c| - i, 2
  {
    if Has(c, i, NULL_TEXT) then Some(Parsed(Null, i + 4))
    else if Has(c, i, FALSE_TEXT) then Some(Parsed(False, i + 5))
    else if Has(c, i, TRUE_TEXT) then Some(Parsed(True, i + 4))
    else if c[i] == QUOTE then
      var s := StringAt(c, i);
      if s.None? then None else Some(Parsed(String(s.value.value), s.value.next))
    else if c[i] == MINUS || IsDigit(c[i]) then
      var n := NumberAt(c, i);
      if n.None? then None else Some(Parsed(Number(n.value.value), n.value.next))
    else if c[i] == OPEN_BRACKET then ArrayAt(c, i, d)
    else if c[i] == OPEN_BRACE then ObjectAt(c, i, d)
    else None
  }

  function ArrayAt(c: Text, i: nat, d: nat): (r: Option<Parsed<Value>>)
    requires Terminated(c) && i < |c| && c[i] == OPEN_BRACKET
    ensures r.Some? ==> i < r.value.next < |c|
    decreases |c| - i, 1
  {
    if d >= NESTING_LIMIT then None
    else
      var j := SkipWhitespace(c, i + 1);
      if c[j] == CLOSE_BRACKET then Some(Parsed(Array([]), j + 1))
      else
        var items := ItemsAt(c, j, d + 1);
        if items.None? then None else Some(Parsed(Array(items.value.value), items.value.next))
  }

  /** At least one item, and the closing bracket. */
  function ItemsAt(c: Text, i: nat, d: nat): (r: Option<Parsed<seq<Value>>>)
    requires Terminated(c) && i < |c|
    ensures r.Some? ==> i < r.value.next < |c|
    decreases |c| - i, 3
  {
    var item := ValueAt(c, SkipWhitespace(c, i), d);
    if item.None? then None
    else
      var k := SkipWhitespace(c, item.value.next);
      if c[k] == COMMA then
        var rest := ItemsAt(c, k + 1, d);
        if rest.None? then None else Some(Parsed([item.value.value] + rest.value.value, rest.value.next))
      else if c[k] == CLOSE_BRACKET then Some(Parsed([item.value.value], k + 1))
      else None
  }

  function ObjectAt(c: Text, i: nat, d: nat): (r: Option<Parsed<Value>>)
    requires Terminated(c) && i < |c| && c[i] == OPEN_BRACE
    ensures r.Some? ==> i < r.value.next < |c|
    decreases |c| - i, 1
  {
    if d >= NESTING_LIMIT then None
    else
      var j := SkipWhitespace(c, i + 1);
      if c[j] == CLOSE_BRACE then Some(Parsed(Object([]), j + 1))
      else
        var members := MembersAt(c, j, d + 1);
        if members.None? then None else Some(Parsed(Object(members.value.value), members.value.next))
  }

  function MemberAt(c: Text, i: nat, d: nat): (r: Option<Parsed<Member>>)
    requires Terminated(c) && i < |c|
    ensures r.Some? ==> i < r.value.next < |c|
    decreases |c| - i, 3
  {
    var key := StringAt(c, SkipWhitespace(c, i));
    if key.None? then None
    else
      var j := SkipWhitespace(c, key.value.next);
      if c[j] != COLON then None
      else
        var value := ValueAt(c, SkipWhitespace(c, j + 1), d);
        if value.None? then None else Some(Parsed(Member(key.value.value, value.value.value), value.value.next))
  }

  /** At least one member, and the closing brace. */
  function MembersAt(c: Text, i: nat, d: nat): (r: Option<Parsed<seq<Member>>>)
    requires Terminated(c) && i < |c|
    ensures r.Some? ==> i < r.value.next < |c|
    decreases |c| - i, 4
  {
    var member := MemberAt(c, i, d);
    if member.None? then None
    else
      var k := SkipWhitespace(c, member.value.next);
      if c[k] == COMMA then
        var rest := MembersAt(c, k + 1, d);
        if rest.None? then None else Some(Parsed([member.value.value] + rest.value.value, rest.value.next))
      else if c[k] == CLOSE_BRACE then Some(Parsed([member.value.value], k + 1))
      else None
  }

  const BOM: Text := [0xEF, 0xBB, 0xBF]

  /** Where parsing begins: behind a byte order mark, if more than four bytes follow from there on. */
  function Start(c: Text): (i: nat)
    requires |c| > 0
    ensures i < |c|
  {
    SkipWhitespace(c, if |c| > 4 && Has(c, 0, BOM) then 3 else 0)
  }

  /** cJSON_ParseWithOpts on the C string c, terminator included. */
  function Parse(c: Text, whole: bool): (r: Option<Parsed<Value>>)
    requires Terminated(c)
    ensures r.Some? ==> r.value.next < |c|
  {
    var v := ValueAt(c, Start(c), 0);
    if v.None? || !whole then v
    else
      var end := SkipWhitespace(c, v.value.next);
      if c[end] != 0 then None else Some(Parsed(v.value.value, end))
  }
}
