/** The buffered line reader of internal/server/codex_oauth_proxy.go and what it promises about framing. */
module LineReader {
  import opened Bytes

  const CHUNK: nat := 4096
  const INITIAL_CAPACITY: nat := 8192

  // ---------------------------------------------------------------- framing, as a function of the bytes

  // The complete lines of a stream, each with its newline.
  function Lines(s: Bytes): (ls: seq<Bytes>)
  {
    var i := FirstNewline(s);
    if i == -1 then [] else [s[..i + 1]] + Lines(s[i + 1..])
  }

  // What is left after the last newline.
  function Tail(s: Bytes): (t: Bytes)
    ensures '\n' !in t
  {
    var i := FirstNewline(s);
    if i == -1 then s else Tail(s[i + 1..])
  }

  // A line is non-empty and its only newline is its last byte.
  predicate IsLine(l: Bytes) {
    l != [] && l[|l| - 1] == '\n' && '\n' !in l[..|l| - 1]
  }

  lemma {:induction false} FramedLinesAreLines(s: Bytes)
    ensures forall k | 0 <= k < |Lines(s)| :: IsLine(Lines(s)[k])
  {
    var i := FirstNewline(s);
    if i != -1 {
      var first, rest := s[..i + 1], s[i + 1..];
      FramedLinesAreLines(rest);
      assert first[..i] == s[..i];
      assert IsLine(first);
      assert Lines(s) == [first] + Lines(rest);
    }
  }

  // Any split of the stream into lines and an unterminated rest is the reader's split: the framing is
  // a property of the bytes, not of the way they arrived.
  lemma {:induction false} FramingIsUnique(ls: seq<Bytes>, t: Bytes)
    requires forall k | 0 <= k < |ls| :: IsLine(ls[k])
    requires '\n' !in t
    ensures Lines(Concat(ls) + t) == ls && Tail(Concat(ls) + t) == t
  {
    var s := Concat(ls) + t;
    if ls == [] {
      assert s == t;
    } else {
      var rest := Concat(ls[1..]) + t;
      var n := |ls[0]|;
      assert s == ls[0] + rest;
      assert IsLine(ls[0]);
      assert s[..n - 1] == ls[0][..n - 1];
      FirstNewlineIs(s, n - 1);
      assert s[n..] == rest && s[..n] == ls[0];
      FramingIsUnique(ls[1..], t);
    }
  }

  // `line` is what one read returns of the stream s, and `rest` is what it leaves.
  ghost predicate Splits(s: Bytes, line: Bytes, rest: Bytes) {
    s == line + rest && if '\n' in s then |line| == FirstNewline(s) + 1 else rest == []
  }

  lemma LineOfPrefix(u: Bytes, line: Bytes, left: Bytes, more: Bytes)
    requires '\n' in u && Splits(u, line, left)
    ensures '\n' in u + more && Splits(u + more, line, left + more)
  {
    var i := FirstNewline(u);
    assert (u + more)[..i] == u[..i];
    FirstNewlineIs(u + more, i);
    assert u + more == line + (left + more);
  }

  // One read peels the first line off the framing.
  lemma SplitsPeelsOneLine(s: Bytes, line: Bytes, rest: Bytes)
    requires Splits(s, line, rest)
    ensures '\n' in s ==> Lines(s) == [line] + Lines(rest) && Tail(s) == Tail(rest)
    ensures '\n' !in s ==> Lines(s) == [] && Tail(s) == line
  {
    var i := FirstNewline(s);
    if i != -1 {
      assert s[..i + 1] == line && s[i + 1..] == rest;
    }
  }

  lemma {:induction false} FramingLosesNothing(s: Bytes)
    ensures Concat(Lines(s)) + Tail(s) == s
  {
    hide Lines, Tail, Concat, FirstNewline;
    var i := FirstNewline(s);
    if i == -1 {
      SplitsPeelsOneLine(s, s, []);
      ConcatNothing();
    } else {
      var first, rest := s[..i + 1], s[i + 1..];
      var ls, t := Lines(rest), Tail(rest);
      SplitsPeelsOneLine(s, first, rest);
      FramingLosesNothing(rest);
      ConcatCons(first, ls);
      Assoc(first, Concat(ls), t);
    }
  }

  // ---------------------------------------------------------------- the upstream body

  // An io.Reader that hands out its bytes in arbitrary pieces, possibly empty ones, and then fails for
  // good. With `joined` the last piece arrives together with the error.
  class Source {
    var chunks: seq<Bytes>
    const joined: bool
    const fin: ReadError

    constructor (chunks: seq<Bytes>, joined: bool, fin: ReadError)
      requires forall c | c in chunks :: |c| <= CHUNK
      ensures Valid() && this.chunks == chunks && this.joined == joined && this.fin == fin
    {
      this.chunks, this.joined, this.fin := chunks, joined, fin;
    }

    ghost predicate Valid()
      reads this
    {
      forall c | c in chunks :: |c| <= CHUNK
    }

    ghost function Rest(): Bytes
      reads this
    {
      Concat(chunks)
    }

    method Read() returns (data: Bytes, err: Option<ReadError>)
      requires Valid()
      modifies this
      ensures Valid()
      ensures |data| <= CHUNK && data + Rest() == old(Rest())
      ensures err.Some? ==> err.value == fin && chunks == []
      ensures err.None? ==> |chunks| < |old(chunks)|
    {
      if chunks == [] {
        data, err := [], Some(fin);
      } else {
        assert chunks[0] in chunks;
        data := chunks[0];
        chunks := chunks[1..];
        err := if chunks == [] && joined then Some(fin) else None;
      }
    }
  }

  // ---------------------------------------------------------------- the reader

  // `mem[pos..len]` holds the bytes read but not yet handed out.
  class Reader {
    var err: Option<ReadError>  // deferred until all bytes of the same read are framed
    var mem: array<char>
    var len: nat
    var pos: nat
    const src: Source

    constructor (src: Source)
      requires src.Valid()
      ensures Valid() && fresh(mem) && this.src == src && Stream() == src.Rest()
    {
      this.src := src;
      mem := new char[INITIAL_CAPACITY];
      len, pos, err := 0, 0, None;
    }

    ghost predicate Valid()
      reads this, mem, src
    {
      src.Valid() && pos <= len <= mem.Length &&
      (err.Some? ==> err.value == src.fin && src.chunks == [])
    }

    ghost function Unread(): Bytes
      requires Valid()
      reads this, mem, src
    {
      mem[pos..len]
    }

    // All bytes the reader will still hand out.
    ghost function Stream(): Bytes
      requires Valid()
      reads this, mem, src
    {
      Unread() + src.Rest()
    }

    // Moves the unread bytes to the start of the buffer, so a slow stream does not grow it.
    method Compact()
      requires Valid()
      modifies this`pos, this`len, mem
      ensures Valid() && pos == 0 && Unread() == old(Unread())
    {
      var n := len - pos;
      ghost var unread := mem[pos..len];
      forall i | 0 <= i < n {
        mem[i] := mem[pos + i];
      }
      assert mem[..n] == unread;
      pos, len := 0, n;
    }

    // Makes room for n more bytes: in place while the capacity lasts, otherwise in a new array.
    method Grow(n: nat)
      requires Valid()
      modifies this`mem
      ensures Valid() && Unread() == old(Unread())
      ensures len + n <= mem.Length
      ensures mem == old(mem) || fresh(mem)
    {
      if len + n > mem.Length {
        var bigger := Copied(mem, len, 2 * mem.Length + n);
        assert bigger[pos..len] == bigger[..len][pos..] == mem[..len][pos..] == mem[pos..len];
        mem := bigger;
      }
    }

    // A new array that starts with the first `count` bytes of an old one.
    static method Copied(from: array<char>, count: nat, capacity: nat) returns (to: array<char>)
      requires count <= from.Length && count <= capacity
      ensures fresh(to) && to.Length == capacity && to[..count] == from[..count]
    {
      to := new char[capacity];
      forall i | 0 <= i < count {
        to[i] := from[i];
      }
    }

    // append(lr.buf, data...)
    method Append(data: Bytes)
      requires Valid() && len + |data| <= mem.Length
      modifies this`len, mem
      ensures Valid() && Unread() == old(Unread()) + data
    {
      ghost var unread := mem[pos..len];
      forall i | 0 <= i < |data| {
        mem[len + i] := data[i];
      }
      len := len + |data|;
      assert forall i | 0 <= i < |unread| :: mem[pos + i] == unread[i];
      assert mem[pos..len] == unread + data;
    }

    method Keep(data: Bytes)
      requires Valid()
      modifies this`mem, this`len, mem
      ensures Valid() && Unread() == old(Unread()) + data
      ensures mem == old(mem) || fresh(mem)
    {
      Grow(|data|);
      Append(data);
    }

    // Hands out the first buffered line, if there is one.
    method TakeLine() returns (found: bool, line: Bytes)
      requires Valid()
      modifies this`pos, this`len
      ensures Valid()
      ensures found <==> FirstNewline(old(Unread())) >= 0
      ensures found ==> line + Unread() == old(Unread()) && |line| == FirstNewline(old(Unread())) + 1
      ensures !found ==> Unread() == old(Unread())
    {
      ghost var u := mem[pos..len];
      var idx := FirstNewline(mem[pos..len]);
      found, line := idx >= 0, [];
      if found {
        line := mem[pos..pos + idx + 1];
        pos := pos + idx + 1;
        assert line + mem[pos..len] == u;
        if pos >= len {
          len, pos := 0, 0;
        }
      }
    }

    // Hands out everything that is buffered.
    method TakeRest() returns (rest: Bytes)
      requires Valid()
      modifies this`pos
      ensures Valid() && rest == old(Unread()) && Unread() == []
    {
      rest := mem[pos..len];
      pos := len;
    }

    // Reads one piece of the body into the buffer. An error without data is returned at once; an error
    // that came with data is kept for later.
    method Refill() returns (failed: Option<ReadError>)
      requires Valid() && err.None?
      modifies this, mem, src
      ensures Valid() && Stream() == old(Stream())
      ensures mem == old(mem) || fresh(mem)
      ensures failed.Some? ==> failed.value == src.fin && src.chunks == [] && Unread() == old(Unread())
      ensures failed.None? ==> err.Some? || |src.chunks| < |old(src.chunks)|
    {
      if pos > 0 {
        Compact();
      }
      ghost var u := Unread();
      var data, e := src.Read();
      Assoc(u, data, src.Rest());
      failed := None;
      if |data| > 0 {
        Keep(data);
        err := e;
      } else {
        failed := e;
      }
    }

    // The next line depends on the bytes still to come and on nothing else: not on the buffer, not on
    // the pieces they arrive in, not on whether the last piece carries the error.
    method ReadLine() returns (line: Bytes, e: Option<ReadError>)
      requires Valid()
      modifies this, mem, src
      ensures Valid()
      ensures mem == old(mem) || fresh(mem)
      ensures Splits(old(Stream()), line, Stream())
      ensures e == if '\n' in old(Stream()) then None else Some(src.fin)
    {
      ghost var s := Stream();
      while true
        invariant Valid() && Stream() == s
        invariant mem == old(mem) || fresh(mem)
        decreases err.None?, |src.chunks|
      {
        ghost var u := Unread();
        var found, first := TakeLine();
        if found {
          LineOfPrefix(u, first, Unread(), src.Rest());
          return first, None;
        }
        assert '\n' !in u;
        if err.Some? {
          assert s == u;
          line := TakeRest();
          assert Stream() == [];
          return line, err;
        }
        var failed := Refill();
        if failed.Some? {
          assert s == u;
          line := TakeRest();
          assert Stream() == [];
          return line, failed;
        }
      }
    }
  }

  // Reads to the end of the stream. Two readers over the same bytes return the same lines, however the
  // bytes are cut into reads.
  method Drain(lr: Reader) returns (lines: seq<Bytes>, tail: Bytes, e: ReadError)
    requires lr.Valid()
    modifies lr, lr.mem, lr.src
    ensures lr.Valid() && lr.Stream() == []
    ensures lines == Lines(old(lr.Stream())) && tail == Tail(old(lr.Stream())) && e == lr.src.fin
  {
    ghost var s := lr.Stream();
    ghost var rest := s;
    lines := [];
    while true
      invariant lr.Valid() && (lr.mem == old(lr.mem) || fresh(lr.mem))
      invariant rest == lr.Stream()
      invariant Lines(s) == lines + Lines(rest) && Tail(s) == Tail(rest)
      decreases |rest|
    {
      var line, failed := lr.ReadLine();
      SplitsPeelsOneLine(rest, line, lr.Stream());
      rest := lr.Stream();
      if failed.Some? {
        return lines, line, failed.value;
      }
      Assoc(lines, [line], Lines(rest));
      lines := lines + [line];
    }
  }
}
