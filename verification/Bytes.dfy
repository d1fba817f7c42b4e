/** Bytes, and texts that end in a NUL. */
module Bytes {
  type Byte = b: int | 0 <= b < 256

  type Text = seq<Byte>

  const BACKSPACE: Byte := 8
  const TAB: Byte := 9
  const NEWLINE: Byte := 10
  const FORMFEED: Byte := 12
  const RETURN: Byte := 13
  const SPACE: Byte := 32
  const QUOTE: Byte := 34
  const STAR: Byte := 42
  const PLUS: Byte := 43
  const COMMA: Byte := 44
  const MINUS: Byte := 45
  const POINT: Byte := 46
  const SLASH: Byte := 47
  const ZERO: Byte := 48
  const COLON: Byte := 58
  const OPEN_BRACKET: Byte := 91
  const BACKSLASH: Byte := 92
  const CLOSE_BRACKET: Byte := 93
  const OPEN_BRACE: Byte := 123
  const CLOSE_BRACE: Byte := 125

  /** No NUL inside: what a C string can hold. */
  predicate NulFree(s: Text) {
    forall i :: 0 <= i < |s| ==> s[i] != 0
  }

  /** The content of a C string, with the NUL that ends it. */
  predicate Terminated(c: Text) {
    |c| > 0 && c[|c| - 1] == 0 && forall i :: 0 <= i < |c| - 1 ==> c[i] != 0
  }

  /** What is not NUL is not the terminator. */
  lemma NotLast(c: Text, i: nat)
    requires Terminated(c) && i < |c|
    ensures c[i] != 0 ==> i + 1 < |c|
  {
  }

  /** s stands in c at i. */
  predicate Has(c: Text, i: nat, s: Text) {
    i + |s| <= |c| && c[i..i + |s|] == s
  }

  lemma HasParts(c: Text, i: nat, a: Text, b: Text)
    ensures Has(c, i, a + b) <==> Has(c, i, a) && Has(c, i + |a|, b)
  {
    if Has(c, i, a + b) {
      assert c[i..i + |a|] == c[i..i + |a + b|][..|a|];
      assert c[i + |a|..i + |a| + |b|] == c[i..i + |a + b|][|a|..];
    }
    if Has(c, i, a) && Has(c, i + |a|, b) {
      assert c[i..i + |a + b|] == c[i..i + |a|] + c[i + |a|..i + |a| + |b|];
    }
  }

  lemma HasIsSlice(c: Text, i: nat, s: Text)
    requires Has(c, i, s)
    ensures i + |s| <= |c| && c[i..i + |s|] == s
  {
  }

  lemma HasByte(c: Text, i: nat, s: Text, k: nat)
    requires Has(c, i, s) && k < |s|
    ensures i + k < |c| && c[i + k] == s[k]
  {
    assert c[i..i + |s|][k] == c[i + k];
  }

  /** What was found at some index, and the index behind it. */
  datatype Parsed<T> = Parsed(value: T, next: nat)

  /** What a reader of a C string sees of s. */
  function CString(s: Text): (r: Text)
    ensures NulFree(r) && |r| <= |s| && r == s[..|r|] && (|r| < |s| ==> s[|r|] == 0)
  {
    if s == [] || s[0] == 0 then [] else [s[0]] + CString(s[1..])
  }

  lemma CStringOfNulFree(s: Text)
    requires NulFree(s)
    ensures CString(s) == s
  {
  }
}
