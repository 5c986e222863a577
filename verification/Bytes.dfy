/** Byte strings and the few text helpers of Go's bytes package that the stream code relies on. */
module Bytes {

  datatype Option<+T> = None | Some(value: T)

  // One char stands for one byte. Nothing below depends on the range of the characters.
  type Bytes = seq<char>

  // What ends a stream: a clean end, the stall budget of the WebSocket transport, or any other fault.
  datatype ReadError = EOF | Stalled | Broken

  predicate IsSpace(c: char) {
    c == ' ' || c == '\t' || c == '\n' || c == '\r' || c == 0x0B as char || c == 0x0C as char
  }

  predicate Blank(s: Bytes) {
    forall i | 0 <= i < |s| :: IsSpace(s[i])
  }

  // bytes.TrimRight(s, "\r\n")
  function TrimEol(s: Bytes): (r: Bytes)
    ensures r <= s
    ensures Blank(s[|r|..])
  {
    if s != [] && (s[|s| - 1] == '\n' || s[|s| - 1] == '\r') then TrimEol(s[..|s| - 1]) else s
  }

  function TrimLeft(s: Bytes): Bytes {
    if s != [] && IsSpace(s[0]) then TrimLeft(s[1..]) else s
  }

  function TrimRight(s: Bytes): Bytes {
    if s != [] && IsSpace(s[|s| - 1]) then TrimRight(s[..|s| - 1]) else s
  }

  // bytes.TrimSpace
  function TrimSpace(s: Bytes): Bytes {
    TrimRight(TrimLeft(s))
  }

  predicate Bare(s: Bytes) {
    s == [] || (!IsSpace(s[0]) && !IsSpace(s[|s| - 1]))
  }

  // What is left is the text between the blanks, whatever they are.
  lemma TrimSpaceExactly(before: Bytes, s: Bytes, after: Bytes)
    requires Blank(before) && Bare(s) && Blank(after)
    ensures TrimSpace(before + s + after) == s
  {
    if s == [] {
      TrimLeftDrops(before + after, []);
      assert before + s + after == (before + after) + [];
    } else {
      assert before + s + after == before + (s + after);
      TrimLeftDrops(before, s + after);
      TrimRightDrops(s, after);
    }
  }

  lemma {:induction false} TrimLeftDrops(before: Bytes, s: Bytes)
    requires Blank(before) && (s == [] || !IsSpace(s[0]))
    ensures TrimLeft(before + s) == s
  {
    if before == [] {
      assert before + s == s;
    } else {
      assert (before + s)[1..] == before[1..] + s;
      TrimLeftDrops(before[1..], s);
    }
  }

  lemma {:induction false} TrimRightDrops(s: Bytes, after: Bytes)
    requires Blank(after) && s != [] && !IsSpace(s[|s| - 1])
    ensures TrimRight(s + after) == s
    decreases |after|
  {
    if after == [] {
      assert s + after == s;
    } else {
      assert (s + after)[..|s + after| - 1] == s + after[..|after| - 1];
      TrimRightDrops(s, after[..|after| - 1]);
    }
  }

  predicate LineEnd(s: Bytes) {
    forall i | 0 <= i < |s| :: s[i] == '\n' || s[i] == '\r'
  }

  lemma {:induction false} TrimEolDrops(s: Bytes, end: Bytes)
    requires LineEnd(end) && (s == [] || (s[|s| - 1] != '\n' && s[|s| - 1] != '\r'))
    ensures TrimEol(s + end) == s
    decreases |end|
  {
    if end == [] {
      assert s + end == s;
    } else {
      assert (s + end)[..|s + end| - 1] == s + end[..|end| - 1];
      TrimEolDrops(s, end[..|end| - 1]);
    }
  }

  lemma Assoc<T>(a: seq<T>, b: seq<T>, c: seq<T>)
    ensures a + (b + c) == (a + b) + c
  {
  }

  function Concat(parts: seq<Bytes>): Bytes {
    if parts == [] then [] else parts[0] + Concat(parts[1..])
  }

  lemma ConcatNothing()
    ensures Concat([]) == []
  {
  }

  lemma ConcatCons(first: Bytes, parts: seq<Bytes>)
    ensures Concat([first] + parts) == first + Concat(parts)
  {
    assert ([first] + parts)[1..] == parts;
  }

  lemma {:induction false} ConcatAppend(parts: seq<Bytes>, last: Bytes)
    ensures Concat(parts + [last]) == Concat(parts) + last
  {
    if parts == [] {
      assert Concat([last]) == last + Concat([]);
      assert [last][1..] == [];
    } else {
      assert (parts + [last])[1..] == parts[1..] + [last];
      ConcatAppend(parts[1..], last);
    }
  }

  // bytes.IndexByte(s, '\n')
  function FirstNewline(s: Bytes): (i: int)
    ensures -1 <= i < |s|
    ensures i >= 0 ==> s[i] == '\n' && '\n' !in s[..i]
    ensures i == -1 <==> '\n' !in s
  {
    if s == [] then -1
    else if s[0] == '\n' then 0
    else
      var i := FirstNewline(s[1..]);
      if i == -1 then -1 else i + 1
  }

  lemma {:induction false} FirstNewlineIs(s: Bytes, i: nat)
    requires i < |s| && s[i] == '\n' && '\n' !in s[..i]
    ensures FirstNewline(s) == i
  {
    if i > 0 {
      assert s[0] in s[..i];
      assert s[1..][..i - 1] == s[..i][1..];
      FirstNewlineIs(s[1..], i - 1);
    }
  }
}
