/**
 Printing and parsing again: the value comes back, formatted or not, exactly when it is nested
 no deeper than the parser goes.
 */
module RoundTrip {
  import opened Results
  import opened Bytes
  import opened Strings
  import opened Numbers
  import opened Json
  import opened Grammar
  import opened Literals
  import opened Reading
  import opened Shown
  import opened Printing

  // ----- Printed and read -----

  /** A printed string is read back as it was, up to its closing quote. */
  lemma StringRoundTrip(c: Text, i: nat, s: Text)
    requires NulFree(s) && Has(c, i, StringText(s))
    ensures StringAt(c, i) == Some(Parsed(s, i + |StringText(s)|))
  {
    hide Has, StringText, WrittenString, PiecesOk, StringAt, Spelled, AllSparing, StringBytes;
    StringIsSpelled(s);
    StringIsRead(c, i, Spelled(s));
  }

  /** A printed integer is read back. */
  lemma NumberRoundTrip(c: Text, i: nat, n: int)
    requires -TOO_LARGE < n < TOO_LARGE && Has(c, i, IntText(n))
    requires i + |IntText(n)| < |c| && !IsNumberByte(c[i + |IntText(n)|])
    ensures NumberAt(c, i) == Some(Parsed(n as real, i + |IntText(n)|))
  {
    hide Has, IntText, WrittenFigure, FigureOk, NumberAt, FigureOf, IsNumberByte, FigureValue;
    IntegerIsSpelled(n);
    IntTextIsShort(n);
    NumberIsRead(c, i, FigureOf(n));
  }

  /** A printed value, whatever stands before it and whatever follows that is no part of a number. */
  lemma ValueRoundTrip(c: Text, i: nat, d: nat, v: Value, fmt: bool, depth: nat)
    requires Terminated(c) && i < |c| && Printable(v) && d <= NESTING_LIMIT
    requires var end := i + |ValueText(v, fmt, depth)|;
             Has(c, i, ValueText(v, fmt, depth)) && end < |c| && !IsNumberByte(c[end])
    ensures ValueAt(c, i, d)
         == if d + Nesting(v) <= NESTING_LIMIT then Some(Parsed(v, i + |ValueText(v, fmt, depth)|)) else None
  {
    hide Has, Terminated, ValueText, Written, TreeOk, Meaning, Fits, ValueAt, Printable, IsNumberByte, Terse;
    var t := Printed(v, fmt, depth);
    ValueStands(v, fmt, depth);
    ValueIsWritten(v, fmt, depth);
    TreeIsRead(c, i, d, t);
    assert Fits(t, NESTING_LIMIT - d) <==> Nesting(v) <= NESTING_LIMIT - d;
  }

  /** A printed value as a whole text. */
  function PrintedDocument(v: Value, fmt: bool): Document {
    Document(false, Item([], Printed(v, fmt, 0), []))
  }

  lemma PrintedIsADocument(v: Value, fmt: bool)
    requires Printable(v)
    ensures var doc := PrintedDocument(v, fmt);
            && ItemOk(doc.item, false) && ItemOk(doc.item, true) && Meaning(doc.item.tree) == v
            && WrittenDocument(doc) == ValueText(v, fmt, 0) && WrittenGap(doc.item.after) == []
            && (Fits(doc.item.tree, 1000) <==> Nesting(v) <= NESTING_LIMIT)
            && (doc.item.tree.Numeral? ==> Nesting(v) == 0)
  {
    hide ValueText, Written, TreeOk, Meaning, Fits, Printable, Terse;
    ValueStands(v, fmt, 0);
    ValueIsWritten(v, fmt, 0);
    GapsAreGood(fmt, 32, 0);
    GapTexts(fmt, 32, 0);
  }

  /** The value comes back from its text, formatted or not, exactly when it is nested no deeper
      than 1000; a deeper one is rejected. Nothing of the text is left over. */
  lemma ParseUndoesPrint(v: Value, fmt: bool, whole: bool)
    requires Printable(v)
    ensures var t := ValueText(v, fmt, 0);
            && Terminated(t + [0])
            && Parse(t + [0], whole) == if Nesting(v) <= NESTING_LIMIT then Some(Parsed(v, |t|)) else None
  {
    hide ValueText, ItemOk, Meaning, Fits, Printable, Parse, Terminated, Nesting, PrintedDocument, WrittenDocument,
        WrittenGap;
    PrintedIsADocument(v, fmt);
    ParseReadsTheGrammar(PrintedDocument(v, fmt), whole);
  }

  // ----- The bytes of a printed text -----

  lemma StringTextIsNulFree(s: Text)
    requires NulFree(s)
    ensures NulFree(StringText(s))
  {
    StringIsSpelled(s);
    StringIsAbove(Spelled(s), 1);
    hide StringText, Spelled, WrittenString;
  }

  lemma ValueTextIsNulFree(v: Value, fmt: bool, depth: nat)
    requires Printable(v)
    ensures NulFree(ValueText(v, fmt, depth))
  {
    ValueStands(v, fmt, depth);
    ValueIsWritten(v, fmt, depth);
    TreeIsAbove(Printed(v, fmt, depth), false, 1);
    hide ValueText, Written, Printed;
  }

  /** Without formatting the text is one line: no byte of it is below the space. */
  lemma UnformattedIsOneLine(v: Value, depth: nat)
    requires Printable(v)
    ensures forall k :: 0 <= k < |ValueText(v, false, depth)| ==> ValueText(v, false, depth)[k] >= 32
  {
    ValueStands(v, false, depth);
    ValueIsWritten(v, false, depth);
    ValueIsLaid(v, false, depth);
    hide ValueText, Written, Printed, TreeOk, Terse, Compact, Meaning, Fits, Nesting;
    CompactIsOneLine(Printed(v, false, depth));
  }

  // ----- The parts of a printed text -----

  lemma EmptyTexts(fmt: bool, depth: nat)
    ensures ItemsText([], fmt, depth) == []
    ensures MembersText([], fmt, depth) == []
  {
  }

  lemma ItemsTextParts(items: seq<Value>, fmt: bool, depth: nat)
    requires items != []
    ensures ItemsText(items, fmt, depth) ==
            ValueText(items[0], fmt, depth) + (if |items| == 1 then [] else Between(fmt) + ItemsText(items[1..],
                fmt, depth))
    ensures AllPrintable(items) ==> Printable(items[0]) && AllPrintable(items[1..])
  {
  }

  /** A member without its indentation. */
  function MemberBody(m: Member, fmt: bool, depth: nat): Text {
    StringText(m.key) + AfterColon(fmt) + ValueText(m.value, fmt, depth)
  }

  lemma MembersTextParts(members: seq<Member>, fmt: bool, depth: nat)
    requires members != []
    ensures MembersText(members, fmt, depth) ==
            Indent(fmt, depth) + MemberBody(members[0], fmt, depth) + LineEnd(fmt,
                |members| > 1) + MembersText(members[1..], fmt, depth)
    ensures MembersPrintable(members) ==>
              NulFree(members[0].key) && Printable(members[0].value) && MembersPrintable(members[1..])
  {
    var m := members[0];
    assert MemberText(m, fmt, depth) == Indent(fmt, depth) + MemberBody(m, fmt, depth);
  }

  // ----- What is accepted at all -----

  lemma WhatIsFound(c: Text, i: nat, d: nat)
    requires Terminated(c) && i < |c| && ValueAt(c, i, d).Some?
    ensures var r := ValueAt(c, i, d);
            match r.value.value
            case Array(_) => c[i] == OPEN_BRACKET && r == ArrayAt(c, i, d)
            case Object(_) => c[i] == OPEN_BRACE && r == ObjectAt(c, i, d)
            case _ => Nesting(r.value.value) == 0
  {
    hide Has, StringAt, NumberAt, ItemsAt, MembersAt, SkipWhitespace, Terminated;
  }

  /** Whatever the text, a value that is found at depth d is nested within the limit. */
  lemma {:induction false} AcceptedIsShallow(c: Text, i: nat, d: nat)
    requires Terminated(c) && i < |c| && d <= NESTING_LIMIT
    ensures ValueAt(c, i, d).Some? ==> d + Nesting(ValueAt(c, i, d).value.value) <= NESTING_LIMIT
    decreases |c| - i, 2
  {
    hide ValueAt, ItemsAt, MembersAt, SkipWhitespace, ItemsNesting, MembersNesting;
    NotLast(c, i);
    var r := ValueAt(c, i, d);
    if r.Some? {
      WhatIsFound(c, i, d);
      match r.value.value
      case Array(_) =>
        var j := SkipWhitespace(c, i + 1);
        if c[j] != CLOSE_BRACKET && d < NESTING_LIMIT { AcceptedItemsAreShallow(c, j, d + 1); }
        NoNesting();
      case Object(_) =>
        var j := SkipWhitespace(c, i + 1);
        if c[j] != CLOSE_BRACE && d < NESTING_LIMIT { AcceptedMembersAreShallow(c, j, d + 1); }
        NoNesting();
      case _ =>
    }
  }

  lemma NoNesting()
    ensures ItemsNesting([]) == 0 && MembersNesting([]) == 0
  {
  }

  lemma {:induction false} AcceptedItemsAreShallow(c: Text, i: nat, d: nat)
    requires Terminated(c) && i < |c| && d <= NESTING_LIMIT
    ensures ItemsAt(c, i, d).Some? ==> d + ItemsNesting(ItemsAt(c, i, d).value.value) <= NESTING_LIMIT
    decreases |c| - i, 3
  {
    hide ValueAt, SkipWhitespace, Nesting;
    var item := ValueAt(c, SkipWhitespace(c, i), d);
    AcceptedIsShallow(c, SkipWhitespace(c, i), d);
    if item.Some? {
      var k := SkipWhitespace(c, item.value.next);
      if c[k] == COMMA { AcceptedItemsAreShallow(c, k + 1, d); }
    }
  }

  lemma SkipsForward(c: Text, i: nat)
    requires i <= |c| && |c| > 0
    ensures i < |c| ==> i <= SkipWhitespace(c, i)
  {
  }

  lemma {:induction false} AcceptedMembersAreShallow(c: Text, i: nat, d: nat)
    requires Terminated(c) && i < |c| && d <= NESTING_LIMIT
    ensures MembersAt(c, i, d).Some? ==> d + MembersNesting(MembersAt(c, i, d).value.value) <= NESTING_LIMIT
    decreases |c| - i, 4
  {
    hide ValueAt, SkipWhitespace, StringAt, Nesting;
    var key := StringAt(c, SkipWhitespace(c, i));
    StringEndsBefore(c, SkipWhitespace(c, i));
    if key.Some? {
      var j := SkipWhitespace(c, key.value.next);
      if c[j] == COLON {
        SkipsForward(c, j + 1);
        AcceptedIsShallow(c, SkipWhitespace(c, j + 1), d);
      }
    }
    var member := MemberAt(c, i, d);
    if member.Some? {
      var k := SkipWhitespace(c, member.value.next);
      if c[k] == COMMA { AcceptedMembersAreShallow(c, k + 1, d); }
    }
  }
}
