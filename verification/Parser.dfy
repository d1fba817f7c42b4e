/**
 The parser of worker/images/embedded-python/cJSON.c: a buffer with an offset and a depth that
 every routine moves. Each routine is proved to find what the functions of Json say, and to
 read inside the content.
 */
module Parser {
  import opened Results
  import opened Bytes
  import opened Utf
  import opened Strings
  import opened Numbers
  import opened Json

  /** The second scan of start..end has written w and stands at p. */
  predicate Scanning(c: Text, start: nat, end: nat, w: Text, p: nat)
    requires end < |c|
  {
    && Output(c, start, end) == w + Output(c, p, end)
    && (Decode(c, start, end).Some? <==> Decode(c, p, end).Some?)
  }

  lemma NoString(c: Text, i: nat)
    requires i < |c| && (c[i] == QUOTE && ScanEnd(c, i + 1).Some? ==> Decode(c, i + 1, ScanEnd(c, i + 1).value).None?)
    ensures StringAt(c, i) == None
  {
    hide ScanEnd, Decode;
  }

  lemma StringIsAt(c: Text, i: nat, end: nat, decoded: Text)
    requires i < |c| && c[i] == QUOTE && ScanEnd(c, i + 1) == Some(end) && Decode(c, i + 1, end) == Some(decoded)
    ensures StringAt(c, i) == Some(Parsed(CString(decoded), end + 1)) && end + 1 <= |c|
  {
    hide Decode;
  }

  // The first scan, step by step.

  lemma FirstScanStep(c: Text, p: nat)
    requires p < |c| && c[p] != QUOTE
    ensures var next := if c[p] == BACKSLASH then p + 2 else p + 1;
            && ScanEnd(c, p) == (if next <= |c| then ScanEnd(c, next) else None)
            && (ScanEnd(c, p).Some? ==>
                  var end := ScanEnd(c, p).value;
                  Pairs(c, p, end, end) == (if c[p] == BACKSLASH then 1 else 0) + Pairs(c, next, end, end))
  {
  }

  lemma FirstScanEnds(c: Text, p: nat)
    requires p >= |c| || c[p] == QUOTE
    ensures ScanEnd(c, p) == if p < |c| then Some(p) else None
    ensures p < |c| ==> Pairs(c, p, p, p) == 0
  {
  }

  lemma ScanStarts(c: Text, start: nat, end: nat)
    requires start <= end && ScanEnd(c, start) == Some(end)
    ensures Scanning(c, start, end, [], start)
    ensures |Output(c, start, end)| <= Room(c, start, end, start)
    ensures Decode(c, start, end).Some? ==> Decode(c, start, end).value == Output(c, start, end)
  {
    OutputFits(c, start, end, start);
    DecodedIsOutput(c, start, end);
    hide Output, Decode;
    assert [] + Output(c, start, end) == Output(c, start, end);
  }

  lemma ScanGoesOn(c: Text, start: nat, end: nat, w: Text, p: nat)
    requires p < end < |c| && Scanning(c, start, end, w, p)
    ensures var s := NextStep(c, p, end);
            && |w| + |s.output| <= |Output(c, start, end)|
            && (s.length == 0 ==> Decode(c, start, end).None? && Output(c, start, end) == w)
            && (s.length > 0 ==> Scanning(c, start, end, w + s.output, p + s.length))
  {
    hide NextStep;
    var s := NextStep(c, p, end);
    if s.length > 0 {
      assert w + (s.output + Output(c, p + s.length, end)) == w + s.output + Output(c, p + s.length, end);
    }
  }

  // Its four kinds of steps.

  lemma PlainStep(c: Text, start: nat, end: nat, w: Text, p: nat)
    requires p < end < |c| && Scanning(c, start, end, w, p) && c[p] != BACKSLASH
    ensures |w| < |Output(c, start, end)| && Scanning(c, start, end, w + [c[p]], p + 1)
  {
    ScanGoesOn(c, start, end, w, p);
  }

  lemma EscapeStep(c: Text, start: nat, end: nat, w: Text, p: nat)
    requires p < end < |c| && Scanning(c, start, end, w, p) && c[p] == BACKSLASH && Unescape(c[p + 1]).Some?
    ensures |w| < |Output(c, start, end)| && Scanning(c, start, end, w + [Unescape(c[p + 1]).value], p + 2)
  {
    ScanGoesOn(c, start, end, w, p);
  }

  lemma LiteralStep(c: Text, start: nat, end: nat, w: Text, p: nat)
    requires p < end < |c| && Scanning(c, start, end, w, p) && c[p] == BACKSLASH && c[p + 1] == 117
    ensures var l := ReadLiteral(c, p, end);
            if l.length == 0 then Decode(c, start, end).None? && Output(c, start, end) == w
            else
              && |w| + Utf8Length(l.codepoint) <= |Output(c, start, end)|
              && Scanning(c, start, end, w + Utf8(l.codepoint), p + l.length)
  {
    ScanGoesOn(c, start, end, w, p);
  }

  lemma NoStep(c: Text, start: nat, end: nat, w: Text, p: nat)
    requires p < end < |c| && Scanning(c, start, end, w, p) && c[p] == BACKSLASH
    requires Unescape(c[p + 1]).None? && c[p + 1] != 117
    ensures Decode(c, start, end).None? && Output(c, start, end) == w
  {
    ScanGoesOn(c, start, end, w, p);
  }

  lemma ScanIsOver(c: Text, start: nat, end: nat, w: Text, p: nat)
    requires end <= p && end < |c| && Scanning(c, start, end, w, p)
    ensures Decode(c, start, end).Some? && Output(c, start, end) == w
  {
  }

  class ParseBuffer {
    const content: Text
    var offset: nat
    var depth: nat
    /** An allocation has failed. */
    var starved: bool

    constructor (content: Text)
      requires Terminated(content)
      ensures this.content == content && offset == 0 && depth == 0 && !starved
    {
      this.content := content;
      offset, depth, starved := 0, 0, false;
    }

    ghost predicate Ready()
      reads this
    {
      Terminated(content) && offset < |content| && depth <= NESTING_LIMIT && !starved
    }

    /** malloc may fail. */
    method Allocate() returns (ok: bool)
      modifies this`starved
      ensures starved == !ok
    {
      ok := *;
      starved := !ok;
    }

    method BufferSkipWhitespace()
      requires offset <= |content| && |content| > 0
      modifies this`offset
      ensures offset == SkipWhitespace(content, old(offset))
    {
      while offset < |content| && content[offset] <= 32
        invariant offset <= |content|
        invariant SkipWhitespace(content, offset) == SkipWhitespace(content, old(offset))
      {
        offset := offset + 1;
      }
      if offset == |content| {
        offset := offset - 1;
      }
    }

    method SkipUtf8Bom()
      requires offset == 0 && |content| > 0
      modifies this`offset
      ensures offset < |content| && SkipWhitespace(content, offset) == Start(content)
    {
      if 4 < |content| && content[..3] == BOM {
        offset := offset + 3;
      }
      assert 4 < |content| ==> content[0..0 + |BOM|] == content[..3];
    }

    /** Copies at most 63 bytes of a number, and a terminator, for strtod. */
    method CopyNumber(numberCString: array<Byte>) returns (i: nat)
      requires offset <= |content| && numberCString.Length == 64
      modifies numberCString
      ensures i <= 63 && numberCString[i] == 0
          && numberCString[..i] == content[offset..RunEnd(content, offset, LONGEST)]
    {
      hide RunEnd, IsNumberByte;
      i := 0;
      while i < 63 && offset + i < |content| && IsNumberByte(content[offset + i])
        invariant 0 <= i <= 63 && offset + i <= |content|
        invariant forall k :: 0 <= k < i ==> numberCString[k] == content[offset + k]
        invariant RunEnd(content, offset + i, LONGEST - i) == RunEnd(content, offset, LONGEST)
      {
        RunGoesOn(content, offset + i, LONGEST - i);
        numberCString[i] := content[offset + i];
        i := i + 1;
      }
      RunGoesOn(content, offset + i, LONGEST - i);
      numberCString[i] := 0;
      assert numberCString[..i] == content[offset..offset + i];
    }

    method ParseNumber() returns (r: Option<real>)
      requires Ready()
      modifies this`offset
      ensures var n := NumberAt(content, old(offset));
              if n.None? then r == None && offset == old(offset) else r == Some(n.value.value) && offset == n.value.next
    {
      var numberCString := new Byte[64];
      var i := CopyNumber(numberCString);
      var number := Strtod(numberCString[..i]);
      hide Strtod, RunEnd;
      if number.length == 0 {
        return None;
      }
      offset := offset + number.length;
      return Some(number.value);
    }

    method ParseString() returns (r: Option<Text>)
      requires Ready()
      modifies this`offset, this`starved
      ensures offset <= |content|
      ensures r.Some? ==> !starved && StringAt(content, old(offset)) == Some(Parsed(r.value, offset))
      ensures r.None? && !starved ==> StringAt(content, old(offset)) == None
    {
      hide StringAt, ScanEnd, Pairs, Decode, Output, CString, Room, Terminated;
      ghost var at := offset;
      var inputPointer := offset + 1;
      if content[offset] != QUOTE {
        NoString(content, at);
        offset := inputPointer;
        return None;
      }
      var inputEnd, skippedBytes, closed := FirstScan(inputPointer);
      if !closed {
        NoString(content, at);
        offset := inputPointer;
        return None;
      }
      TwoScansLeaveRoom(content, at, inputEnd);
      var allocationLength := inputEnd - offset - skippedBytes;
      var ok := Allocate();
      if !ok {
        offset := inputPointer;
        return None;
      }
      var output := new Byte[allocationLength + 1];
      var outputPointer: nat;
      inputPointer, outputPointer, ok := Unescaped(inputPointer, inputEnd, output);
      if !ok {
        NoString(content, at);
        offset := inputPointer;
        return None;
      }
      StringIsAt(content, at, inputEnd, output[..outputPointer]);
      ghost var decoded := output[..outputPointer];
      output[outputPointer] := 0;
      assert output[..outputPointer] == decoded;
      r := Some(CString(output[..outputPointer]));
      offset := inputEnd + 1;
    }

    /** The first scan: looks for the closing quote and counts the bytes that escaping adds. */
    method FirstScan(start: nat) returns (inputEnd: nat, skippedBytes: nat, closed: bool)
      requires start <= |content|
      ensures inputEnd <= |content|
      ensures ScanEnd(content, start) == if closed then Some(inputEnd) else None
      ensures closed ==> skippedBytes == Pairs(content, start, inputEnd, inputEnd)
    {
      hide ScanEnd, Pairs;
      inputEnd, skippedBytes, closed := start, 0, false;
      ghost var scan := ScanEnd(content, start);
      while inputEnd < |content| && content[inputEnd] != QUOTE
        invariant start <= inputEnd <= |content|
        invariant ScanEnd(content, inputEnd) == scan
        invariant scan.Some? ==>
                    var end := scan.value;
                    skippedBytes + Pairs(content, inputEnd, end, end) == Pairs(content, start, end, end)
      {
        FirstScanStep(content, inputEnd);
        if content[inputEnd] == BACKSLASH {
          if inputEnd + 1 >= |content| {
            return;
          }
          skippedBytes := skippedBytes + 1;
          inputEnd := inputEnd + 1;
        }
        inputEnd := inputEnd + 1;
      }
      FirstScanEnds(content, inputEnd);
      closed := inputEnd < |content| && content[inputEnd] == QUOTE;
    }

    /** Writes one byte and moves on. */
    method Put(output: array<Byte>, at: nat, b: Byte) returns (next: nat)
      requires at < output.Length
      modifies output
      ensures next == at + 1 && output[..next] == old(output[..at]) + [b]
    {
      output[at] := b;
      next := at + 1;
    }

    /** The second scan: writes what the literal stands for to the output, which has the length
        that the first scan allotted. */
    method Unescaped(start: nat, inputEnd: nat, output: array<Byte>)
        returns (inputPointer: nat, outputPointer: nat, ok: bool)
      requires start <= inputEnd < |content| && ScanEnd(content, start) == Some(inputEnd)
      requires output.Length == Room(content, start, inputEnd, start) + 2 >= 2
      modifies output
      ensures inputPointer <= inputEnd + 1 && outputPointer + 1 < output.Length
      ensures Decode(content, start, inputEnd) == if ok then Some(output[..outputPointer]) else None
      ensures output[..outputPointer] == Output(content, start, inputEnd)
    {
      inputPointer, outputPointer, ok := start, 0, true;
      ScanStarts(content, start, inputEnd);
      ghost var most := |Output(content, start, inputEnd)|;
      assert most + 2 <= output.Length && output[..0] == [];
      hide *;
      while inputPointer < inputEnd
        invariant start <= inputPointer <= inputEnd + 1
        invariant outputPointer <= most
        invariant Scanning(content, start, inputEnd, output[..outputPointer], inputPointer)
      {
        ghost var written := output[..outputPointer];
        if content[inputPointer] != BACKSLASH {
          PlainStep(content, start, inputEnd, written, inputPointer);
          outputPointer := Put(output, outputPointer, content[inputPointer]);
          inputPointer := inputPointer + 1;
        } else if Unescape(content[inputPointer + 1]).Some? {
          EscapeStep(content, start, inputEnd, written, inputPointer);
          outputPointer := Put(output, outputPointer, Unescape(content[inputPointer + 1]).value);
          inputPointer := inputPointer + 2;
        } else if content[inputPointer + 1] == 117 {
          LiteralStep(content, start, inputEnd, written, inputPointer);
          var sequenceLength, next := Utf16LiteralToUtf8(content, inputPointer, inputEnd, output, outputPointer);
          if sequenceLength == 0 {
            ok := false;
            return;
          }
          outputPointer := next;
          inputPointer := inputPointer + sequenceLength;
        } else {
          NoStep(content, start, inputEnd, written, inputPointer);
          ok := false;
          return;
        }
      }
      ScanIsOver(content, start, inputEnd, output[..outputPointer], inputPointer);
    }

    /** Dispatches on what stands at the offset. */
    method ParseValue() returns (r: Option<Value>)
      requires Ready()
      modifies this`offset, this`depth, this`starved
      ensures offset <= |content|
      ensures r.Some? ==> !starved && depth == old(depth)
                          && ValueAt(content, old(offset), old(depth)) == Some(Parsed(r.value, offset))
      ensures r.None? && !starved ==> ValueAt(content, old(offset), old(depth)) == None
      decreases |content| - offset, 2
    {
      if Has(content, offset, NULL_TEXT) {
        offset := offset + 4;
        return Some(Null);
      }
      if Has(content, offset, FALSE_TEXT) {
        offset := offset + 5;
        return Some(False);
      }
      if Has(content, offset, TRUE_TEXT) {
        offset := offset + 4;
        return Some(True);
      }
      if content[offset] == QUOTE {
        var s := ParseString();
        return if s.None? then None else Some(String(s.value));
      }
      if content[offset] == MINUS || IsDigit(content[offset]) {
        var n := ParseNumber();
        return if n.None? then None else Some(Number(n.value));
      }
      if content[offset] == OPEN_BRACKET {
        r := ParseArray();
        return;
      }
      if content[offset] == OPEN_BRACE {
        r := ParseObject();
        return;
      }
      return None;
    }

    method ParseArray() returns (r: Option<Value>)
      requires Ready() && content[offset] == OPEN_BRACKET
      modifies this`offset, this`depth, this`starved
      ensures offset <= |content|
      ensures r.Some? ==> !starved && depth == old(depth)
                          && ArrayAt(content, old(offset), old(depth)) == Some(Parsed(r.value, offset))
      ensures r.None? && !starved ==> ArrayAt(content, old(offset), old(depth)) == None
      decreases |content| - offset, 1
    {
      hide ItemsAt, SkipWhitespace, ValueAt;
      if depth >= NESTING_LIMIT {
        return None;
      }
      depth := depth + 1;
      NotLast(content, offset);
      offset := offset + 1;
      BufferSkipWhitespace();
      if content[offset] == CLOSE_BRACKET {
        NotLast(content, offset);
        depth := depth - 1;
        offset := offset + 1;
        return Some(Array([]));
      }
      // step back to the byte in front of the first one
      offset := offset - 1;
      var items := ParseItems();
      if items.None? {
        return None;
      }
      depth := depth - 1;
      offset := offset + 1;
      return Some(Array(items.value));
    }

    /** The loop of parse_array, up to the closing bracket. */
    method ParseItems() returns (r: Option<seq<Value>>)
      requires Ready() && offset + 1 < |content|
      modifies this`offset, this`depth, this`starved
      ensures offset <= |content|
      ensures r.Some? ==> !starved && depth == old(depth) && old(offset) < offset
                          && ItemsAt(content, old(offset) + 1, depth) == Some(Parsed(r.value, offset + 1))
      ensures r.None? && !starved ==> ItemsAt(content, old(offset) + 1, old(depth)) == None
      decreases |content| - offset, 0
    {
      hide ItemsAt, ValueAt, PrependItems, SkipWhitespace, Terminated;
      ghost var all := ItemsAt(content, offset + 1, depth);
      PrependNoItems(all);
      var items: seq<Value> := [];
      var more := true;
      while more
        invariant old(offset) <= offset < |content| && Terminated(content) && !starved && depth == old(depth)
        invariant more ==> offset + 1 < |content| && all == PrependItems(items, ItemsAt(content, offset + 1, depth))
        invariant !more ==> old(offset) < offset
                            && all == if content[offset] == CLOSE_BRACKET then Some(Parsed(items, offset + 1)) else None
        decreases |content| - offset
      {
        var ok := Allocate();
        if !ok {
          return None;
        }
        offset := offset + 1;
        ItemsStep(content, offset, depth, items);
        BufferSkipWhitespace();
        var item := ParseValue();
        if item.None? {
          return None;
        }
        items := items + [item.value];
        BufferSkipWhitespace();
        more := content[offset] == COMMA;
        NotLast(content, offset);
      }
      if content[offset] != CLOSE_BRACKET {
        return None;
      }
      return Some(items);
    }

    method ParseObject() returns (r: Option<Value>)
      requires Ready() && content[offset] == OPEN_BRACE
      modifies this`offset, this`depth, this`starved
      ensures offset <= |content|
      ensures r.Some? ==> !starved && depth == old(depth)
                          && ObjectAt(content, old(offset), old(depth)) == Some(Parsed(r.value, offset))
      ensures r.None? && !starved ==> ObjectAt(content, old(offset), old(depth)) == None
      decreases |content| - offset, 1
    {
      hide MembersAt, SkipWhitespace, ValueAt;
      if depth >= NESTING_LIMIT {
        return None;
      }
      depth := depth + 1;
      NotLast(content, offset);
      offset := offset + 1;
      BufferSkipWhitespace();
      if content[offset] == CLOSE_BRACE {
        NotLast(content, offset);
        depth := depth - 1;
        offset := offset + 1;
        return Some(Object([]));
      }
      // step back to the byte in front of the first one
      offset := offset - 1;
      var members := ParseMembers();
      if members.None? {
        return None;
      }
      depth := depth - 1;
      offset := offset + 1;
      return Some(Object(members.value));
    }

    /** The loop of parse_object, up to the closing brace. */
    method ParseMembers() returns (r: Option<seq<Member>>)
      requires Ready() && offset + 1 < |content|
      modifies this`offset, this`depth, this`starved
      ensures offset <= |content|
      ensures r.Some? ==> !starved && depth == old(depth) && old(offset) < offset
                          && MembersAt(content, old(offset) + 1, depth) == Some(Parsed(r.value, offset + 1))
      ensures r.None? && !starved ==> MembersAt(content, old(offset) + 1, old(depth)) == None
      decreases |content| - offset, 0
    {
      hide MembersAt, MemberAt, PrependMembers, SkipWhitespace, Terminated;
      ghost var all := MembersAt(content, offset + 1, depth);
      PrependNoMembers(all);
      var members: seq<Member> := [];
      var more := true;
      while more
        invariant old(offset) <= offset < |content| && Terminated(content) && !starved && depth == old(depth)
        invariant more ==>
                    offset + 1 < |content| && all == PrependMembers(members, MembersAt(content, offset + 1, depth))
        invariant !more ==> old(offset) < offset
                            && all == if content[offset] == CLOSE_BRACE then Some(Parsed(members, offset + 1)) else None
        decreases |content| - offset
      {
        var ok := Allocate();
        if !ok {
          return None;
        }
        offset := offset + 1;
        MembersStep(content, offset, depth, members);
        var member := ParseMember();
        if member.None? {
          return None;
        }
        members := members + [member.value];
        BufferSkipWhitespace();
        more := content[offset] == COMMA;
        NotLast(content, offset);
      }
      if content[offset] != CLOSE_BRACE {
        return None;
      }
      return Some(members);
    }

    /** A name, a colon and a value: the body of the loop of parse_object. */
    method ParseMember() returns (r: Option<Member>)
      requires Ready()
      modifies this`offset, this`depth, this`starved
      ensures offset <= |content|
      ensures r.Some? ==> !starved && depth == old(depth)
                          && MemberAt(content, old(offset), old(depth)) == Some(Parsed(r.value, offset))
      ensures r.None? && !starved ==> MemberAt(content, old(offset), old(depth)) == None
      decreases |content| - offset, 3
    {
      hide ValueAt, StringAt, SkipWhitespace;
      BufferSkipWhitespace();
      var name := ParseString();
      if name.None? {
        return None;
      }
      StringEndsBefore(content, SkipWhitespace(content, old(offset)));
      BufferSkipWhitespace();
      if content[offset] != COLON {
        return None;
      }
      NotLast(content, offset);
      offset := offset + 1;
      BufferSkipWhitespace();
      var value := ParseValue();
      if value.None? {
        return None;
      }
      return Some(Member(name.value, value.value));
    }
  }

  /** cJSON_ParseWithOpts: the value, and where parsing ended or failed. */
  method ParseWithOpts(value: Text, requireNullTerminated: bool)
      returns (item: Option<Value>, parseEnd: nat, starved: bool)
    requires Terminated(value)
    ensures parseEnd < |value|
    ensures item.Some? ==> Parse(value, requireNullTerminated) == Some(Parsed(item.value, parseEnd))
    ensures item.None? && !starved ==> Parse(value, requireNullTerminated) == None
  {
    var buffer := new ParseBuffer(value);
    var ok := buffer.Allocate();
    if !ok {
      return None, 0, true;
    }
    buffer.SkipUtf8Bom();
    buffer.BufferSkipWhitespace();
    item := buffer.ParseValue();
    if item.None? {
      return None, if buffer.offset < |value| then buffer.offset else |value| - 1, buffer.starved;
    }
    if requireNullTerminated {
      buffer.BufferSkipWhitespace();
      if value[buffer.offset] != 0 {
        return None, buffer.offset, false;
      }
    }
    return item, buffer.offset, false;
  }

  // ----- Lists -----

  function PrependItems(items: seq<Value>, r: Option<Parsed<seq<Value>>>): Option<Parsed<seq<Value>>> {
    if r.None? then None else Some(Parsed(items + r.value.value, r.value.next))
  }

  function PrependMembers(members: seq<Member>, r: Option<Parsed<seq<Member>>>): Option<Parsed<seq<Member>>> {
    if r.None? then None else Some(Parsed(members + r.value.value, r.value.next))
  }

  lemma PrependNoItems(r: Option<Parsed<seq<Value>>>)
    ensures r == PrependItems([], r)
  {
    assert r.Some? ==> [] + r.value.value == r.value.value;
  }

  lemma PrependNoMembers(r: Option<Parsed<seq<Member>>>)
    ensures r == PrependMembers([], r)
  {
    assert r.Some? ==> [] + r.value.value == r.value.value;
  }

  /** One turn of the loop of parse_array, at i, when the items so far are at hand. */
  lemma ItemsStep(c: Text, i: nat, d: nat, items: seq<Value>)
    requires Terminated(c) && i < |c|
    ensures var all := PrependItems(items, ItemsAt(c, i, d));
            var item := ValueAt(c, SkipWhitespace(c, i), d);
            if item.None? then all == None
            else
              var k := SkipWhitespace(c, item.value.next);
              var now := items + [item.value.value];
              if c[k] == COMMA then all == PrependItems(now, ItemsAt(c, k + 1, d))
              else all == if c[k] == CLOSE_BRACKET then Some(Parsed(now, k + 1)) else None
  {
    hide ValueAt, SkipWhitespace;
    var item := ValueAt(c, SkipWhitespace(c, i), d);
    if item.Some? {
      var k := SkipWhitespace(c, item.value.next);
      if c[k] == COMMA && ItemsAt(c, k + 1, d).Some? {
        var rest := ItemsAt(c, k + 1, d).value.value;
        assert items + ([item.value.value] + rest) == items + [item.value.value] + rest;
      }
    }
  }

  lemma MembersStep(c: Text, i: nat, d: nat, members: seq<Member>)
    requires Terminated(c) && i < |c|
    ensures var all := PrependMembers(members, MembersAt(c, i, d));
            var member := MemberAt(c, i, d);
            if member.None? then all == None
            else
              var k := SkipWhitespace(c, member.value.next);
              var now := members + [member.value.value];
              if c[k] == COMMA then all == PrependMembers(now, MembersAt(c, k + 1, d))
              else all == if c[k] == CLOSE_BRACE then Some(Parsed(now, k + 1)) else None
  {
    hide MemberAt, SkipWhitespace;
    var member := MemberAt(c, i, d);
    if member.Some? {
      var k := SkipWhitespace(c, member.value.next);
      if c[k] == COMMA && MembersAt(c, k + 1, d).Some? {
        var rest := MembersAt(c, k + 1, d).value.value;
        assert members + ([member.value.value] + rest) == members + [member.value.value] + rest;
      }
    }
  }

  lemma TwoScansLeaveRoom(c: Text, i: nat, end: nat)
    requires i < |c| && ScanEnd(c, i + 1) == Some(end)
    ensures Room(c, i + 1, end, i + 1) == end - i - 1 - Pairs(c, i + 1, end, end) >= 0
  {
    PairsGrow(c, i + 1, end, 0, i + 1);
    PairsGrow(c, i + 1, end, i + 1, end - i - 1);
  }
}
