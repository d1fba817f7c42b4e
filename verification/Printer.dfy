/**
 The printer of worker/images/embedded-python/cJSON.c: a buffer that grows, or one that the
 caller provides, with an offset that is caught up by looking for the terminator. Each routine
 is proved to leave the text of ValueText in the buffer, and to fail only when it cannot fit.
 */
module Printer {
  import opened Results
  import opened Bytes
  import opened Strings
  import opened Numbers
  import opened Json
  import opened RoundTrip

  const INT_MAX: nat := 0x7FFF_FFFF

  class PrintBuffer {
    var buffer: array<Byte>
    /** How much of the buffer may be used. */
    var length: nat
    var offset: nat
    var depth: nat
    const noalloc: bool
    const format: bool
    /** Reallocation has failed, and the buffer is gone. */
    var freed: bool

    constructor (buffer: array<Byte>, length: nat, noalloc: bool, format: bool)
      requires length <= INT_MAX && if noalloc then length <= buffer.Length else length == buffer.Length
      ensures this.buffer == buffer && this.length == length && offset == 0 && depth == 0
      ensures this.noalloc == noalloc && this.format == format && !freed && Valid()
    {
      this.buffer, this.length, offset, depth := buffer, length, 0, 0;
      this.noalloc, this.format, freed := noalloc, format, false;
    }

    /** The offset is inside the buffer, or the buffer is empty. */
    ghost predicate Valid()
      reads this`buffer, this`length, this`offset, this`freed
    {
      && !freed && length <= buffer.Length && length <= INT_MAX && (!noalloc ==> length == buffer.Length)
      && offset <= length && (length > 0 ==> offset < length)
    }

    /** The longest the buffer can get. */
    ghost function Limit(): nat
      reads this`length
    {
      if noalloc then length else INT_MAX
    }

    /** What has been printed up to the offset. */
    ghost function Written(): (t: Text)
      reads this`buffer, this`offset, buffer
      requires offset <= buffer.Length
      ensures |t| == offset
    {
      buffer[..offset]
    }

    /** All of t has been printed and terminated, though the offset may lag behind. */
    ghost predicate Holds(t: Text)
      reads this`buffer, this`length, this`offset, this`freed, buffer
    {
      && Valid() && offset <= |t| < length
      && buffer[..|t|] == t && buffer[|t|] == 0
    }

    /** A buffer of the caller stays, and nothing is written past its length; any other may be
        replaced by a new one. */
    twostate predicate Framed()
      reads this, buffer
    {
      && (buffer == old(buffer) || fresh(buffer))
      && (noalloc ==> buffer == old(buffer) && length == old(length) && !freed == !old(freed)
                      && Beyond() == old(Beyond()))
    }

    /** What of the buffer is not the printer's. */
    ghost function Beyond(): Text
      reads this`buffer, this`length, buffer
    {
      if length <= buffer.Length then buffer[length..] else []
    }

    /** realloc may fail; it keeps what is in the buffer. */
    method Reallocate(newsize: nat) returns (newbuffer: array<Byte>, ok: bool)
      requires length <= buffer.Length && newsize >= length
      ensures ok ==> fresh(newbuffer) && newbuffer.Length == newsize && newbuffer[..length] == buffer[..length]
    {
      ok := *;
      newbuffer := buffer;
      if ok {
        newbuffer := new Byte[newsize];
        for i := 0 to length
          invariant newbuffer[..i] == buffer[..i]
        {
          newbuffer[i] := buffer[i];
        }
      }
    }

    /** Makes room for needed bytes and one more. */
    method Ensure(needed: nat) returns (ok: bool)
      requires Valid()
      modifies this`buffer, this`length, this`freed
      ensures Framed()
      ensures ok ==> Valid() && Written() == old(Written()) && offset + needed + 1 <= length && length <= Limit()
      ensures !ok ==> freed || offset + needed + 1 > Limit()
    {
      if needed > INT_MAX {
        return false;
      }
      var wanted := needed + offset + 1;
      if wanted <= length {
        return true;
      }
      if noalloc {
        return false;
      }
      var newsize := wanted * 2;
      if wanted > INT_MAX / 2 {
        if wanted > INT_MAX {
          return false;
        }
        newsize := INT_MAX;
      }
      var newbuffer, allocatedNew := Reallocate(newsize);
      if !allocatedNew {
        length := 0;
        freed := true;
        return false;
      }
      assert newbuffer[..offset] == newbuffer[..length][..offset];
      assert buffer[..offset] == buffer[..length][..offset];
      length := newsize;
      buffer := newbuffer;
      return true;
    }

    /** strlen of what follows the offset. */
    method UpdateOffset(ghost t: Text)
      requires Holds(t) && NulFree(t[offset..])
      modifies this`offset
      ensures offset == |t| && Valid() && Written() == t
    {
      assert forall k :: offset <= k < |t| ==> buffer[k] == t[offset..][k - offset];
      var n := 0;
      while buffer[offset + n] != 0
        invariant offset + n <= |t| && offset == old(offset)
        decreases |t| - n
      {
        n := n + 1;
      }
      offset := offset + n;
    }

    /** Writes t at index at. */
    method Store(at: nat, t: Text)
      requires at + |t| <= buffer.Length
      modifies buffer
      ensures buffer[..at + |t|] == old(buffer[..at]) + t
      ensures buffer[at + |t|..] == old(buffer[at + |t|..])
    {
      for i := 0 to |t|
        invariant forall k :: 0 <= k < at ==> buffer[k] == old(buffer[k])
        invariant forall k :: at <= k < at + i ==> buffer[k] == t[k - at]
        invariant forall k :: at + |t| <= k < buffer.Length ==> buffer[k] == old(buffer[k])
      {
        buffer[at + i] := t[i];
      }
    }

    /** Makes room, and writes t where the offset is, with or without a terminator. */
    method Emit(needed: nat, t: Text, terminated: bool) returns (ok: bool)
      requires Valid() && |t| + (if terminated then 1 else 0) <= needed + 1
      modifies this`buffer, this`length, this`freed, buffer
      ensures Framed()
      ensures ok ==> Valid() && offset + needed + 1 <= length && length <= Limit()
                     && buffer[..offset + |t|] == old(Written()) + t && (terminated ==> buffer[offset + |t|] == 0)
      ensures !ok ==> freed || offset + needed + 1 > Limit()
    {
      ok := Ensure(needed);
      if ok {
        Store(offset, t);
        if terminated {
          buffer[offset + |t|] := 0;
        }
      }
    }

    /** The same, and the offset moves on. */
    method Append(needed: nat, t: Text, terminated: bool) returns (ok: bool)
      requires Valid() && |t| + (if terminated then 1 else 0) <= needed + 1 && |t| <= needed
      modifies this`buffer, this`length, this`freed, this`offset, buffer
      ensures Framed()
      ensures ok ==> Valid() && Written() == old(Written()) + t && old(offset) + needed + 1 <= Limit()
      ensures !ok ==> freed || old(offset) + needed + 1 > Limit()
    {
      ok := Emit(needed, t, terminated);
      if ok {
        offset := offset + |t|;
      }
    }

    /** null, false and true: room for the text and its terminator. */
    method PrintWord(t: Text) returns (ok: bool)
      requires Valid()
      modifies this`buffer, this`length, this`freed, buffer
      ensures Framed()
      ensures ok ==> Holds(old(Written()) + t) && offset + |t| + 2 <= Limit()
      ensures !ok ==> freed || offset + |t| + 2 > Limit()
    {
      ok := Emit(|t| + 1, t, true);
    }

    method PrintNumber(n: int) returns (ok: bool)
      requires Valid() && -TOO_LARGE < n < TOO_LARGE
      modifies this`buffer, this`length, this`freed, this`offset, buffer
      ensures Framed()
      ensures ok ==> old(offset) <= offset && Holds(old(Written()) + IntText(n))
      ensures ok ==> old(offset) + |IntText(n)| + 2 <= Limit()
      ensures !ok ==> freed || old(offset) + |IntText(n)| + 2 > Limit()
    {
      var numberBuffer := IntText(n);
      IntTextIsShort(n);
      // it fits the 26 bytes that are set aside for it
      assert |numberBuffer| <= 25;
      ok := Emit(|numberBuffer| + 1, numberBuffer, true);
      if ok {
        offset := offset + |numberBuffer|;
      }
    }

    /** The number of bytes that escaping adds. */
    static method CountEscapes(s: Text) returns (escapeCharacters: nat)
      ensures |s| + escapeCharacters == |Escaped(s)|
    {
      escapeCharacters := 0;
      var i := 0;
      while i < |s|
        invariant i <= |s| && i + escapeCharacters + |Escaped(s[i..])| == |Escaped(s)|
      {
        assert s[i..][1..] == s[i + 1..];
        if EscapeLetter(s[i]).Some? {
          escapeCharacters := escapeCharacters + 1;
        } else if s[i] < 32 {
          escapeCharacters := escapeCharacters + 5;
        }
        i := i + 1;
      }
    }

    /** Writes the escaped bytes of s at index start. sprintf puts a NUL behind a \u sequence,
        which the next byte, or the closing quote, writes over. */
    method WriteEscaped(s: Text, start: nat)
      requires start + |Escaped(s)| < buffer.Length
      modifies buffer
      ensures buffer[..start + |Escaped(s)|] == old(buffer[..start]) + Escaped(s)
      ensures buffer[start + |Escaped(s)| + 1..] == old(buffer[start + |Escaped(s)| + 1..])
    {
      hide Escaped, EscapedByte;
      ghost var end := start + |Escaped(s)|;
      var outputPointer := start;
      var i := 0;
      while i < |s|
        invariant i <= |s| && start <= outputPointer && outputPointer + |Escaped(s[i..])| == end
        invariant buffer[..outputPointer] + Escaped(s[i..]) == old(buffer[..start]) + Escaped(s)
        invariant buffer[end + 1..] == old(buffer[end + 1..])
      {
        var e := EscapedByte(s[i]);
        EscapedFrom(s, i);
        assert buffer[..outputPointer] + e + Escaped(s[i + 1..]) == buffer[..outputPointer] + Escaped(s[i..]);
        label Before:
        Store(outputPointer, e);
        assert buffer[end + 1..] == old@Before(buffer[end + 1..]);
        outputPointer := outputPointer + |e|;
        if |e| == 6 {
          buffer[outputPointer] := 0;
        }
        i := i + 1;
      }
      EscapedFrom(s, i);
    }

    method PrintStringPtr(s: Text) returns (ok: bool)
      requires Valid()
      modifies this`buffer, this`length, this`freed, buffer
      ensures Framed()
      ensures ok ==> Holds(old(Written()) + StringText(s)) && offset + |StringText(s)| + 2 <= Limit()
      ensures !ok ==> freed || offset + |StringText(s)| + 2 > Limit()
    {
      var escapeCharacters := CountEscapes(s);
      var outputLength := |s| + escapeCharacters;
      ok := Ensure(outputLength + 3);
      if ok {
        if escapeCharacters == 0 {
          NothingEscaped(s);
        }
        WriteQuoted(s, offset, escapeCharacters == 0);
      }
    }

    /** Writes s between quotes at index at, and a terminator. */
    method WriteQuoted(s: Text, at: nat, plain: bool)
      requires at + |Escaped(s)| + 3 <= buffer.Length && (plain ==> Escaped(s) == s)
      modifies buffer
      ensures buffer[..at + |StringText(s)|] == old(buffer[..at]) + StringText(s) && buffer[at + |StringText(s)|] == 0
      ensures buffer[at + |Escaped(s)| + 3..] == old(buffer[at + |Escaped(s)| + 3..])
    {
      hide Escaped;
      var outputLength := |Escaped(s)|;
      ghost var w := buffer[..at];
      buffer[at] := QUOTE;
      assert buffer[..at + 1] == w + [QUOTE];
      if plain {
        Store(at + 1, s);
      } else {
        WriteEscaped(s, at + 1);
      }
      buffer[at + outputLength + 1] := QUOTE;
      assert buffer[..at + outputLength + 2] == w + [QUOTE] + Escaped(s) + [QUOTE];
      buffer[at + outputLength + 2] := 0;
    }

    /** A value, and then strlen. */
    method PrintWhole(v: Value) returns (ok: bool)
      requires Valid() && Printable(v)
      modifies this, buffer
      ensures Framed()
      ensures ok ==> Valid() && depth == old(depth) && Written() == old(Written()) + ValueText(v, format, depth)
      ensures ok ==> offset + 2 <= Limit()
      ensures !ok ==> freed || old(offset) + |ValueText(v, format, old(depth))| + 2 > Limit()
      decreases v, 2
    {
      ghost var w, t := Written(), ValueText(v, format, depth);
      ok := PrintValue(v);
      if ok {
        ValueTextIsNulFree(v, format, depth);
        SuffixIsNulFree(w, t, offset);
        UpdateOffset(w + t);
      }
    }

    method PrintValue(v: Value) returns (ok: bool)
      requires Valid() && Printable(v)
      modifies this, buffer
      ensures Framed()
      ensures ok ==> depth == old(depth) && old(offset) <= offset && Holds(old(Written()) + ValueText(v, format, depth))
                     && old(offset) + |ValueText(v, format, depth)| + 2 <= Limit()
      ensures !ok ==> freed || old(offset) + |ValueText(v, format, old(depth))| + 2 > Limit()
      decreases v, 1
    {
      hide Holds, Written, ItemsText, MembersText, StringText, IntText, Indent, OpenObject, AllPrintable,
          MembersPrintable, NulFree;
      match v
      case Null => ok := PrintWord(NULL_TEXT);
      case False => ok := PrintWord(FALSE_TEXT);
      case True => ok := PrintWord(TRUE_TEXT);
      case Number(x) => ok := PrintNumber(x.Floor);
      case String(s) => ok := PrintStringPtr(s);
      case Array(items) => ok := PrintArray(items);
      case Object(members) => ok := PrintObject(members);
    }

    method PrintArray(items: seq<Value>) returns (ok: bool)
      requires Valid() && AllPrintable(items)
      modifies this, buffer
      ensures Framed()
      ensures ok ==> depth == old(depth) && old(offset) <= offset
                     && Holds(old(Written()) + ArrayText(items, format, depth))
                     && old(offset) + |ArrayText(items, format, depth)| + 2 <= Limit()
      ensures !ok ==> freed || old(offset) + |ArrayText(items, format, old(depth))| + 2 > Limit()
      decreases items, 2
    {
      hide ItemsText, ValueText, Beyond, Written, AllPrintable, Holds;
      ghost var w, t := Written(), ItemsText(items, format, depth + 1);
      ok := Append(1, [OPEN_BRACKET], false);
      if !ok {
        return;
      }
      depth := depth + 1;
      ok := PrintItems(items);
      if !ok {
        return;
      }
      ok := PrintLast(2, [CLOSE_BRACKET]);
      if ok {
        depth := depth - 1;
        Regroup(w, [OPEN_BRACKET], t, [], [CLOSE_BRACKET]);
      }
    }

    /** The end of an array or object: terminated, but the offset stays in front of it. */
    method PrintLast(needed: nat, t: Text) returns (ok: bool)
      requires Valid() && |t| + 1 == needed
      modifies this`buffer, this`length, this`freed, buffer
      ensures Framed()
      ensures ok ==> Holds(old(Written()) + t) && offset + |t| + 2 <= Limit()
      ensures !ok ==> freed || offset + |t| + 2 > Limit()
    {
      ok := Emit(needed, t, true);
    }

    /** The loop of print_array. */
    method PrintItems(items: seq<Value>) returns (ok: bool)
      requires Valid() && AllPrintable(items)
      modifies this, buffer
      ensures Framed()
      ensures ok ==> Valid() && depth == old(depth) && Written() == old(Written()) + ItemsText(items, format, depth)
      ensures !ok ==> freed || old(offset) + |ItemsText(items, format, old(depth))| + 2 > Limit()
      decreases items, 1
    {
      hide ItemsText, ValueText, Beyond, Written, AllPrintable, Printable, ItemsNesting, Nesting;
      ghost var all := Written() + ItemsText(items, format, depth);
      assert items[0..] == items;
      var i := 0;
      while i < |items|
        invariant i <= |items| && AllPrintable(items[i..])
        invariant Framed() && Valid() && depth == old(depth)
        invariant Written() + ItemsText(items[i..], format, depth) == all
      {
        ok := PrintItem(items[i..]);
        if !ok {
          return;
        }
        i := i + 1;
      }
      EmptyTexts(format, depth);
      assert items[i..] == [] && Written() + [] == Written();
      ok := true;
    }

    /** The first of these items, and what stands between it and the next one. */
    method PrintItem(items: seq<Value>) returns (ok: bool)
      requires Valid() && AllPrintable(items) && items != []
      modifies this, buffer
      ensures Framed() && AllPrintable(items[1..])
      ensures ok ==> Valid() && depth == old(depth)
                     && Written() + ItemsText(items[1..], format, depth)
                     == old(Written()) + ItemsText(items, format, depth)
      ensures !ok ==> freed || old(offset) + |ItemsText(items, format, old(depth))| + 2 > Limit()
      decreases items, 0
    {
      hide ItemsText, ValueText, Beyond, Written, AllPrintable, Printable, ItemsNesting, Nesting;
      ghost var w, t, b, rest := Written(), ValueText(items[0], format, depth), Between(format),
          ItemsText(items[1..], format, depth);
      ItemsTextParts(items, format, depth);
      EmptyTexts(format, depth);
      ok := PrintWhole(items[0]);
      if ok && |items| > 1 {
        ok := Append(|Between(format)| + 1, Between(format), true);
        assert w + t + b + rest == w + (t + (b + rest));
      }
      assert |items| == 1 ==> items[1..] == [];
    }

    method PrintObject(members: seq<Member>) returns (ok: bool)
      requires Valid() && MembersPrintable(members)
      modifies this, buffer
      ensures Framed()
      ensures ok ==> depth == old(depth) && old(offset) <= offset
                     && Holds(old(Written()) + ObjectText(members, format, depth))
                     && old(offset) + |ObjectText(members, format, depth)| + 2 <= Limit()
      ensures !ok ==> freed || old(offset) + |ObjectText(members, format, old(depth))| + 2 > Limit()
      decreases members, 2
    {
      hide MembersText, ValueText, Beyond, Written, MembersPrintable, Indent, OpenObject, ObjectText, Holds;
      ghost var w, t := Written(), MembersText(members, format, depth + 1);
      ok := Append(|OpenObject(format)| + 1, OpenObject(format), false);
      ObjectTextParts(members, format, depth);
      if !ok {
        return;
      }
      depth := depth + 1;
      ok := PrintMembers(members);
      if !ok {
        return;
      }
      ok := PrintLast(if format then depth + 1 else 2, Indent(format, depth - 1) + [CLOSE_BRACE]);
      if ok {
        depth := depth - 1;
        Regroup(w, OpenObject(format), t, Indent(format, depth), [CLOSE_BRACE]);
      }
    }

    /** The loop of print_object. */
    method PrintMembers(members: seq<Member>) returns (ok: bool)
      requires Valid() && MembersPrintable(members)
      modifies this, buffer
      ensures Framed()
      ensures ok ==> Valid() && depth == old(depth) && Written() == old(Written()) + MembersText(members, format, depth)
      ensures !ok ==> freed || old(offset) + |MembersText(members, format, old(depth))| + 2 > Limit()
      decreases members, 1
    {
      hide MembersText, ValueText, Beyond, Written, MembersPrintable, Printable;
      ghost var all := Written() + MembersText(members, format, depth);
      assert members[0..] == members;
      var i := 0;
      while i < |members|
        invariant i <= |members| && MembersPrintable(members[i..])
        invariant Framed() && Valid() && depth == old(depth)
        invariant Written() + MembersText(members[i..], format, depth) == all
      {
        ok := PrintMember(members[i..]);
        if !ok {
          return;
        }
        i := i + 1;
      }
      EmptyTexts(format, depth);
      assert members[i..] == [] && Written() + [] == Written();
      ok := true;
    }

    /** The first of these members: indentation, name, colon, value, and the end of the line. */
    method PrintMember(members: seq<Member>) returns (ok: bool)
      requires Valid() && MembersPrintable(members) && members != []
      modifies this, buffer
      ensures Framed() && MembersPrintable(members[1..])
      ensures ok ==> Valid() && depth == old(depth)
                     && Written() + MembersText(members[1..], format, depth)
                     == old(Written()) + MembersText(members, format, depth)
      ensures !ok ==> freed || old(offset) + |MembersText(members, format, old(depth))| + 2 > Limit()
      decreases members, 0
    {
      hide MembersText, ValueText, Beyond, Written, MembersPrintable, Printable, MembersNesting, Nesting, Indent,
          MemberBody, LineEnd;
      var m := members[0];
      ghost var w, n, e, rest := Written(), Indent(format, depth), LineEnd(format, |members| > 1),
          MembersText(members[1..], format, depth);
      MembersTextParts(members, format, depth);
      ok := PrintIndent();
      if !ok {
        return;
      }
      ok := PrintBody(m);
      if !ok {
        return;
      }
      ok := Append(|LineEnd(format, |members| > 1)| + 1, LineEnd(format, |members| > 1), true);
      Regroup4(w, n, MemberBody(m, format, depth), e, rest);
    }

    method PrintIndent() returns (ok: bool)
      requires Valid()
      modifies this`buffer, this`length, this`freed, this`offset, buffer
      ensures Framed()
      ensures ok ==> Valid() && Written() == old(Written()) + Indent(format, depth)
      ensures !ok ==> freed || old(offset) + |Indent(format, depth)| + 1 > Limit()
    {
      ok := true;
      if format {
        ok := Append(depth, Tabs(depth), false);
      } else {
        assert Written() + [] == Written();
      }
    }

    method PrintBody(m: Member) returns (ok: bool)
      requires Valid() && NulFree(m.key) && Printable(m.value)
      modifies this, buffer
      ensures Framed()
      ensures ok ==> Valid() && depth == old(depth) && Written() == old(Written()) + MemberBody(m, format, depth)
      ensures !ok ==> freed || old(offset) + |MemberBody(m, format, old(depth))| + 2 > Limit()
      decreases m
    {
      hide ValueText, Beyond, Written, Printable;
      ghost var w, k, c, v := Written(), StringText(m.key), AfterColon(format), ValueText(m.value, format, depth);
      ok := PrintKey(m.key);
      if !ok {
        return;
      }
      ok := Append(|AfterColon(format)|, AfterColon(format), false);
      if !ok {
        return;
      }
      ok := PrintWhole(m.value);
      assert w + k + c + v == w + (k + c + v);
    }

    /** A name, and then strlen. */
    method PrintKey(key: Text) returns (ok: bool)
      requires Valid() && NulFree(key)
      modifies this`buffer, this`length, this`freed, this`offset, buffer
      ensures Framed()
      ensures ok ==> Valid() && Written() == old(Written()) + StringText(key)
      ensures !ok ==> freed || old(offset) + |StringText(key)| + 2 > Limit()
    {
      ghost var w, t := Written(), StringText(key);
      ok := PrintStringPtr(key);
      if ok {
        StringTextIsNulFree(key);
        SuffixIsNulFree(w, t, offset);
        UpdateOffset(w + t);
      }
    }
  }

  lemma Regroup4(w: Text, a: Text, b: Text, c: Text, d: Text)
    ensures w + a + b + c + d == w + (a + b + c + d)
  {
  }

  lemma Regroup(w: Text, a: Text, b: Text, c: Text, d: Text)
    ensures w + a + b + (c + d) == w + (a + b + c + d)
    ensures w + a + b + d == w + (a + b + d)
  {
    assert w + a + b + (c + d) == w + (a + b + c + d);
    assert w + a + b + d == w + (a + b + d);
  }

  /** The texts of ValueText for arrays and objects. */
  function ArrayText(items: seq<Value>, fmt: bool, depth: nat): Text {
    [OPEN_BRACKET] + ItemsText(items, fmt, depth + 1) + [CLOSE_BRACKET]
  }

  function ObjectText(members: seq<Member>, fmt: bool, depth: nat): Text {
    OpenObject(fmt) + MembersText(members, fmt, depth + 1) + Indent(fmt, depth) + [CLOSE_BRACE]
  }

  lemma ObjectTextParts(members: seq<Member>, fmt: bool, depth: nat)
    ensures ObjectText(members, fmt, depth) ==
            OpenObject(fmt) + MembersText(members, fmt, depth + 1) + Indent(fmt, depth) + [CLOSE_BRACE]
    ensures |OpenObject(fmt)| >= 1
  {
  }

  lemma SuffixIsNulFree(w: Text, t: Text, i: nat)
    requires NulFree(t) && |w| <= i <= |w + t|
    ensures NulFree((w + t)[i..])
  {
    assert forall k :: 0 <= k < |(w + t)[i..]| ==> (w + t)[i..][k] == t[k + i - |w|];
  }

  lemma EscapedFrom(s: Text, i: nat)
    requires i <= |s|
    ensures Escaped(s[i..]) == if i == |s| then [] else EscapedByte(s[i]) + Escaped(s[i + 1..])
  {
    assert i < |s| ==> s[i..][1..] == s[i + 1..];
  }

  lemma {:induction false} NothingEscaped(s: Text)
    requires |Escaped(s)| <= |s|
    ensures Escaped(s) == s
    decreases |s|
  {
    if s != [] {
      EscapingLengthens(s[1..]);
      NothingEscaped(s[1..]);
      assert |EscapedByte(s[0])| == 1;
      assert [s[0]] + s[1..] == s;
    }
  }

  lemma {:induction false} EscapingLengthens(s: Text)
    ensures |Escaped(s)| >= |s|
    decreases |s|
  {
    if s != [] {
      EscapingLengthens(s[1..]);
    }
  }

  // ----- Entry points -----

  /** cJSON_PrintPreallocated succeeds exactly when the buffer is two bytes longer than the text,
      and never writes past the length it was given. */
  method PrintPreallocated(v: Value, buf: array<Byte>, len: int, fmt: bool) returns (ok: bool)
    requires Printable(v) && len <= INT_MAX && len <= buf.Length
    modifies buf
    ensures ok <==> |ValueText(v, fmt, 0)| + 2 <= len
    ensures ok ==> var t := ValueText(v, fmt, 0);
                   buf[..|t|] == t && buf[|t|] == 0
    ensures 0 <= len ==> buf[len..] == old(buf[len..])
    ensures len < 0 ==> buf[..] == old(buf[..])
  {
    if len < 0 {
      return false;
    }
    var p := new PrintBuffer(buf, len, true, fmt);
    ghost var beyond := buf[len..];
    assert p.Written() == [];
    ok := p.PrintValue(v);
    assert [] + ValueText(v, fmt, 0) == ValueText(v, fmt, 0);
  }

  /** cJSON_PrintBuffered, and print with a buffer of 256 bytes: the text and its terminator, or
      nothing, which happens exactly when memory runs out or the text is too long for an int. */
  method PrintBuffered(v: Value, prebuffer: int, fmt: bool) returns (printed: Option<array<Byte>>, starved: bool)
    requires Printable(v) && prebuffer <= INT_MAX
    ensures printed.Some? ==> var t := ValueText(v, fmt, 0);
                              fresh(printed.value) && |t| < printed.value.Length && printed.value[..|t|] == t
                                  && printed.value[|t|] == 0
    ensures printed.Some? ==> |ValueText(v, fmt, 0)| + 2 <= INT_MAX
    ensures printed.None? ==> prebuffer < 0 || starved || |ValueText(v, fmt, 0)| + 2 > INT_MAX
  {
    starved := false;
    if prebuffer < 0 {
      return None, false;
    }
    starved := *;
    if starved {
      return None, true;
    }
    var buffer := new Byte[prebuffer];
    var p := new PrintBuffer(buffer, prebuffer, false, fmt);
    assert p.Written() == [];
    var ok := p.PrintValue(v);
    assert [] + ValueText(v, fmt, 0) == ValueText(v, fmt, 0);
    if !ok {
      return None, p.freed;
    }
    return Some(p.buffer), false;
  }

  /** cJSON_Print and cJSON_PrintUnformatted: a block that holds the text and its terminator and
      nothing else. */
  method Print(v: Value, fmt: bool) returns (printed: Option<array<Byte>>, starved: bool)
    requires Printable(v)
    ensures printed.Some? ==> fresh(printed.value) && printed.value[..] == ValueText(v, fmt, 0) + [0]
    ensures printed.Some? ==> |ValueText(v, fmt, 0)| + 2 <= INT_MAX
    ensures printed.None? && !starved ==> |ValueText(v, fmt, 0)| + 2 > INT_MAX
  {
    hide ValueText, Printable, NulFree;
    starved := *;
    if starved {
      return None, true;
    }
    var buffer := new Byte[256];
    var p := new PrintBuffer(buffer, 256, false, fmt);
    assert p.Written() == [];
    var ok := p.PrintValue(v);
    if !ok {
      return None, p.freed;
    }
    ghost var t := ValueText(v, fmt, 0);
    assert [] + t == t;
    ValueTextIsNulFree(v, fmt, 0);
    SuffixIsNulFree([], t, p.offset);
    p.UpdateOffset(t);
    var shrunk;
    shrunk, ok := Shrink(p.buffer, p.offset + 1);
    if !ok {
      return None, true;
    }
    return Some(shrunk), false;
  }

  /** realloc to a smaller size, which may fail too. */
  method Shrink(a: array<Byte>, size: nat) returns (shrunk: array<Byte>, ok: bool)
    requires size <= a.Length
    ensures ok ==> fresh(shrunk) && shrunk[..] == a[..size]
  {
    ok := *;
    shrunk := a;
    if ok {
      shrunk := new Byte[size];
      for i := 0 to size
        invariant shrunk[..i] == a[..i]
      {
        shrunk[i] := a[i];
      }
    }
  }
}
