/** The chat-completions twin of the relay, internal/server/codex_chat_bridge.go: one upstream event
    becomes any number of frames, handed to the relay one at a time. */
module ChatBridge {
  import opened Bytes
  import L = LineReader
  import R = Relay

  // `translate` depends on the number of the line, for the converter has a memory.
  datatype Env = Env(
    payloads: R.Env,
    translate: (nat, Bytes) -> seq<Bytes>,  // apicompat.StreamState.Translate
    isDone: Bytes -> bool                   // apicompat.IsDoneFrame
  )

  datatype State = State(
    pending: seq<Bytes>, shedding: bool, sentAny: bool, read: nat, shed: R.Shed, demoted: bool, capacity: bool)

  const INIT: State := State([], false, false, 0, R.NotShed, false, false)

  // ---------------------------------------------------------------- one line

  // What a line does to the state; None ends the attempt.
  function OnLine(env: Env, st0: State, line: Bytes): Option<State>
  {
    var st := st0.(read := st0.read + 1);
    if R.IsJson(line) then OnPayload(env, st, st0.read, R.RawPayload(line)) else Some(st)
  }

  function OnPayload(env: Env, st: State, k: nat, payload: Bytes): Option<State> {
    if !st.sentAny && R.TransientError(env.payloads, payload) then None
    else
      var st1 :=
        if st.shedding || env.payloads.classify(payload) != R.Retryable then st
        else if !st.sentAny then st.(shedding := true, shed := R.Frame(payload))
        else st.(demoted := true, capacity := env.payloads.demote(payload).Some?);
      Some(if st1.shedding then st1 else st1.(pending := st1.pending + env.translate(k, payload)))
  }

  lemma PayloadSendsNothing(env: Env, st: State, k: nat, payload: Bytes)
    ensures var o := OnPayload(env, st, k, payload); o.Some? ==> o.value.sentAny == st.sentAny
  {
    hide R.TransientError;
  }

  // ---------------------------------------------------------------- what the client should get

  // The frames of a stream in order: the translations of its lines, up to a refusal that comes before
  // the first frame.
  function Deliverable(env: Env, k: nat, sent: bool, lines: seq<Bytes>): seq<Bytes>
    decreases |lines|
  {
    if lines == [] then []
    else if !R.IsJson(lines[0]) then Deliverable(env, k + 1, sent, lines[1..])
    else
      var payload := R.RawPayload(lines[0]);
      if !sent && (R.TransientError(env.payloads, payload) || env.payloads.classify(payload) == R.Retryable) then []
      else
        var frames := env.translate(k, payload);
        frames + Deliverable(env, k + 1, sent || frames != [], lines[1..])
  }

  // Frames already queued go first; a shed stream delivers nothing more.
  function Owed(env: Env, st: State, lines: seq<Bytes>): seq<Bytes> {
    st.pending + (if st.shedding then [] else Deliverable(env, st.read, st.sentAny || st.pending != [], lines))
  }

  // Nothing is queued once a shed is latched, and nothing was sent; only the latch records a shed while
  // the closure is still called.
  ghost predicate Consistent(st: State) {
    (st.shedding ==> st.pending == [] && !st.sentAny) && (st.shed != R.NotShed ==> st.shedding)
  }

  // ---------------------------------------------------------------- all or nothing

  // Every frame of the stream, whatever the classifier says.
  function AllFrames(env: Env, k: nat, lines: seq<Bytes>): seq<Bytes>
    decreases |lines|
  {
    if lines == [] then []
    else FramesOf(env, k, lines[0]) + AllFrames(env, k + 1, lines[1..])
  }

  function FramesOf(env: Env, k: nat, line: Bytes): seq<Bytes> {
    if R.IsJson(line) then env.translate(k, R.RawPayload(line)) else []
  }

  predicate Refuses(env: Env, line: Bytes) {
    R.IsJson(line) &&
    var payload := R.RawPayload(line);
    EndsAttempt(env, payload) || env.payloads.classify(payload) == R.Retryable
  }

  // An error that ends the attempt if nothing was sent.
  predicate EndsAttempt(env: Env, payload: Bytes) {
    env.payloads.code(payload) == R.ServerError || env.payloads.code(payload) == R.StreamTerminated
  }

  // The stream refuses the turn before any line that has a frame.
  ghost predicate RefusedFirst(env: Env, k: nat, lines: seq<Bytes>) {
    exists i :: 0 <= i < |lines| && Refuses(env, lines[i]) &&
      forall j | 0 <= j < i :: FramesOf(env, k + j, lines[j]) == []
  }

  // A client of the bridge gets the whole translation or nothing at all.
  lemma {:induction false} AllOrNothing(env: Env, k: nat, lines: seq<Bytes>)
    ensures Deliverable(env, k, false, lines) ==
            if RefusedFirst(env, k, lines) then [] else AllFrames(env, k, lines)
    decreases |lines|
  {
    hide R.IsData, R.RawPayload;
    if lines != [] {
      var line, rest := lines[0], lines[1..];
      if Refuses(env, line) {
        assert RefusedFirst(env, k, lines);
      } else if FramesOf(env, k, line) == [] {
        AllOrNothing(env, k + 1, rest);
        RefusalMovesUp(env, k, lines);
        assert [] + Deliverable(env, k + 1, false, rest) == Deliverable(env, k + 1, false, rest);
        assert [] + AllFrames(env, k + 1, rest) == AllFrames(env, k + 1, rest);
      } else {
        OnceStarted(env, k + 1, rest);
        assert FramesOf(env, k + 0, lines[0]) != [];
      }
    }
  }

  lemma RefusalMovesUp(env: Env, k: nat, lines: seq<Bytes>)
    requires lines != [] && !Refuses(env, lines[0]) && FramesOf(env, k, lines[0]) == []
    ensures RefusedFirst(env, k, lines) <==> RefusedFirst(env, k + 1, lines[1..])
  {
    hide Refuses, FramesOf;
    var rest := lines[1..];
    if RefusedFirst(env, k, lines) {
      var i :| 0 <= i < |lines| && Refuses(env, lines[i]) &&
        forall j | 0 <= j < i :: FramesOf(env, k + j, lines[j]) == [];
      forall j | 0 <= j < i - 1 ensures FramesOf(env, k + 1 + j, rest[j]) == [] {
        assert FramesOf(env, k + (j + 1), lines[j + 1]) == [];
      }
      assert Refuses(env, rest[i - 1]);
    }
    if RefusedFirst(env, k + 1, rest) {
      var i :| 0 <= i < |rest| && Refuses(env, rest[i]) &&
        forall j | 0 <= j < i :: FramesOf(env, k + 1 + j, rest[j]) == [];
      assert Refuses(env, lines[i + 1]);
      forall j | 0 <= j < i + 1 ensures FramesOf(env, k + j, lines[j]) == [] {
        if j > 0 {
          assert FramesOf(env, k + 1 + (j - 1), rest[j - 1]) == [];
        }
      }
    }
  }

  // After the first frame nothing is held back.
  lemma {:induction false} OnceStarted(env: Env, k: nat, lines: seq<Bytes>)
    ensures Deliverable(env, k, true, lines) == AllFrames(env, k, lines)
    decreases |lines|
  {
    hide R.IsData, R.RawPayload, R.TransientError;
    if lines != [] {
      OnceStarted(env, k + 1, lines[1..]);
      assert [] + AllFrames(env, k + 1, lines[1..]) == AllFrames(env, k + 1, lines[1..]);
    }
  }

  // ---------------------------------------------------------------- what is reported

  // The refusal that was withheld, if any, and what is known of those that came too late for it.
  datatype Reports = Reports(shed: R.Shed, demoted: bool, capacity: bool)

  // What the lines give to report: before the first frame the first refusal, or the first error after it that
  // ends the attempt; later, that there was a refusal, and whether the last one was for capacity.
  function Told(env: Env, k: nat, sent: bool, latched: bool, r: Reports, lines: seq<Bytes>): Reports
    decreases |lines|
  {
    if lines == [] then r
    else if !Refuses(env, lines[0]) then
      Told(env, k + 1, sent || (!latched && FramesOf(env, k, lines[0]) != []), latched, r, lines[1..])
    else
      var payload := R.RawPayload(lines[0]);
      if !sent && EndsAttempt(env, payload) then r.(shed := R.Frame(payload))
      else if !sent then
        Told(env, k + 1, false, true, if latched then r else r.(shed := R.Frame(payload)), lines[1..])
      else
        var refused := env.payloads.classify(payload) == R.Retryable;
        var r' := if refused then r.(demoted := true, capacity := env.payloads.demote(payload).Some?) else r;
        Told(env, k + 1, true, latched, r', lines[1..])
  }

  function ReportsOf(st: State): Reports {
    Reports(st.shed, st.demoted, st.capacity)
  }

  function ToTell(env: Env, st: State, lines: seq<Bytes>): Reports {
    Told(env, st.read, st.sentAny || st.pending != [], st.shedding, ReportsOf(st), lines)
  }

  lemma LineIsTold(env: Env, st: State, line: Bytes, rest: seq<Bytes>)
    requires Consistent(st) && st.pending == []
    ensures match OnLine(env, st, line)
            case None => R.IsJson(line) && ToTell(env, st, [line] + rest) ==
                         ReportsOf(st).(shed := R.Frame(R.RawPayload(line)))
            case Some(st') => ToTell(env, st, [line] + rest) == ToTell(env, st', rest)
  {
    hide R.IsData, R.RawPayload;
    assert ([line] + rest)[1..] == rest;
    if !st.shedding && OnLine(env, st, line).Some? && R.IsJson(line) {
      var frames := env.translate(st.read, R.RawPayload(line));
      assert [] + frames == frames;
    }
  }

  lemma NothingIsTold(env: Env, k: nat, sent: bool, latched: bool, r: Reports)
    ensures Told(env, k, sent, latched, r, [[]]) == r
  {
    assert !R.IsJson([]);
    var nothing: seq<Bytes> := [[]];
    assert nothing[0] == [] && nothing[1..] == [];
  }

  lemma FirstLineTold(env: Env, k: nat, sent: bool, latched: bool, r: Reports, line: Bytes, rest: seq<Bytes>)
    ensures Told(env, k, sent, latched, r, [line] + rest) ==
      if !Refuses(env, line) then
        Told(env, k + 1, sent || (!latched && FramesOf(env, k, line) != []), latched, r, rest)
      else
        var payload := R.RawPayload(line);
        if !sent && EndsAttempt(env, payload) then r.(shed := R.Frame(payload))
        else if !sent then
          Told(env, k + 1, false, true, if latched then r else r.(shed := R.Frame(payload)), rest)
        else
          var refused := env.payloads.classify(payload) == R.Retryable;
          var r' := if refused then r.(demoted := true, capacity := env.payloads.demote(payload).Some?) else r;
          Told(env, k + 1, true, latched, r', rest)
  {
    hide R.IsData, R.RawPayload, FramesOf, EndsAttempt;
    assert ([line] + rest)[1..] == rest;
  }

  lemma PaddingTellsNothing(env: Env, st: State, line: Bytes)
    ensures ToTell(env, st, [line]) == ToTell(env, st, [line] + [[]])
  {
    var nothing: seq<Bytes> := [[]];
    var sent := st.sentAny || st.pending != [];
    forall k: nat, sent, latched, r
      ensures Told(env, k, sent, latched, r, nothing) == r && Told(env, k, sent, latched, r, []) == r
    {
      NothingIsTold(env, k, sent, latched, r);
    }
    hide R.IsData, R.RawPayload, Refuses, FramesOf, EndsAttempt, Told;
    FirstLineTold(env, st.read, sent, st.shedding, ReportsOf(st), line, []);
    FirstLineTold(env, st.read, sent, st.shedding, ReportsOf(st), line, nothing);
    assert [line] + [] == [line];
  }

  lemma RestTells(env: Env, st: State, s: Bytes, line: Bytes, rest: Bytes)
    requires L.Splits(s, line, rest)
    ensures ToTell(env, st, Rest(s)) == ToTell(env, st, [line] + Rest(rest))
  {
    hide *;
    RestAfterALine(s, line, rest);
    if '\n' !in s {
      PaddingTellsNothing(env, st, line);
    }
  }

  lemma AllToldAtTheEnd(env: Env, st: State)
    ensures ToTell(env, st, Rest([])) == ReportsOf(st)
  {
    assert L.Lines([]) == [] && L.Tail([]) == [];
    NothingIsTold(env, st.read, st.sentAny || st.pending != [], st.shedding, ReportsOf(st));
  }

  // ---------------------------------------------------------------- the stream of lines

  // The rest of the stream as the relay will see it: complete lines, then the unterminated rest.
  function Rest(s: Bytes): seq<Bytes> {
    L.Lines(s) + [L.Tail(s)]
  }

  lemma LineIsOwed(env: Env, st: State, line: Bytes, rest: seq<Bytes>)
    requires Consistent(st) && st.pending == []
    ensures match OnLine(env, st, line)
            case None => Owed(env, st, [line] + rest) == []
            case Some(st') => Consistent(st') && Owed(env, st, [line] + rest) == Owed(env, st', rest)
  {
    hide R.IsData, R.RawPayload, R.TransientError;
    assert ([line] + rest)[1..] == rest;
    if !st.shedding && OnLine(env, st, line).Some? && R.IsJson(line) {
      var frames := env.translate(st.read, R.RawPayload(line));
      assert [] + frames == frames;
    }
  }

  lemma RestAfterALine(s: Bytes, line: Bytes, rest: Bytes)
    requires L.Splits(s, line, rest)
    ensures if '\n' in s then Rest(s) == [line] + Rest(rest) else Rest(s) == [line] && Rest(rest) == [[]]
  {
    L.SplitsPeelsOneLine(s, line, rest);
    if '\n' in s {
      Assoc([line], L.Lines(rest), [L.Tail(rest)]);
    } else {
      assert rest == [] && L.Lines([]) == [] && L.Tail([]) == [];
    }
  }

  // Reading a line takes it off what is to come; past the end the stream is as good as empty.
  lemma RestPeels(env: Env, st: State, s: Bytes, line: Bytes, rest: Bytes)
    requires L.Splits(s, line, rest)
    ensures Owed(env, st, Rest(s)) == Owed(env, st, [line] + Rest(rest))
  {
    hide *;
    RestAfterALine(s, line, rest);
    if '\n' !in s {
      PaddingIsFree(env, st, line);
    }
  }

  lemma NothingIsDelivered(env: Env, k: nat, sent: bool)
    ensures Deliverable(env, k, sent, [[]]) == []
  {
    assert !R.IsJson([]);
    var nothing: seq<Bytes> := [[]];
    assert nothing[0] == [] && nothing[1..] == [];
  }

  lemma PaddingIsFree(env: Env, st: State, line: Bytes)
    ensures Owed(env, st, [line]) == Owed(env, st, [line] + [[]])
  {
    hide R.IsData, R.RawPayload, R.TransientError;
    var k, sent := st.read, st.sentAny || st.pending != [];
    NothingIsDelivered(env, k + 1, sent);
    NothingIsDelivered(env, k + 1, true);
    assert [line][1..] == [] && ([line] + [[]])[1..] == [[]];
    assert Deliverable(env, k, sent, [line]) == Deliverable(env, k, sent, [line] + [[]]);
  }

  // Handing over a queued frame takes it off what is owed.
  lemma QueuedFrameGoesFirst(env: Env, st: State, lines: seq<Bytes>)
    requires Consistent(st) && st.pending != []
    ensures var st' := st.(pending := st.pending[1..], sentAny := true);
            Consistent(st') && Owed(env, st, lines) == [st.pending[0]] + Owed(env, st', lines)
  {
    hide Deliverable;
    var later := Deliverable(env, st.read, true, lines);
    assert st.pending == [st.pending[0]] + st.pending[1..];
    Assoc([st.pending[0]], st.pending[1..], later);
  }

  lemma QueuedFrameTellsNothing(env: Env, st: State, lines: seq<Bytes>)
    requires st.pending != []
    ensures ToTell(env, st, lines) == ToTell(env, st.(pending := st.pending[1..], sentAny := true), lines)
  {
    hide Told;
  }

  lemma NothingIsOwedAtTheEnd(env: Env, st: State)
    requires st.pending == []
    ensures Owed(env, st, Rest([])) == []
  {
    assert L.Lines([]) == [] && L.Tail([]) == [];
    NothingIsDelivered(env, st.read, st.sentAny);
  }

  // ---------------------------------------------------------------- the closure

  class Closure {
    const env: Env
    const reader: L.Reader
    var pending: seq<Bytes>
    var shedding: bool
    var sentAny: bool
    var read: nat
    var shed: R.Shed
    var demoted: bool
    var capacity: bool

    constructor (env: Env, reader: L.Reader)
      ensures this.env == env && this.reader == reader && View() == INIT
    {
      this.env, this.reader := env, reader;
      pending, shedding, sentAny, read := [], false, false, 0;
      shed, demoted, capacity := R.NotShed, false, false;
    }

    ghost function View(): State
      reads this
    {
      State(pending, shedding, sentAny, read, shed, demoted, capacity)
    }

    method HandlePayload(k: nat, payload: Bytes) returns (ended: bool)
      modifies this
      ensures ended <==> OnPayload(env, old(View()), k, payload).None?
      ensures if ended then !sentAny && View() == old(View()).(shed := R.Frame(payload))
              else Some(View()) == OnPayload(env, old(View()), k, payload)
    {
      hide R.TransientError;
      if !sentAny && R.TransientError(env.payloads, payload) {
        shed := R.Frame(payload);
        return true;
      }
      if !shedding && env.payloads.classify(payload) == R.Retryable {
        if !sentAny {
          shedding := true;
          shed := R.Frame(payload);
        } else {
          demoted := true;
          capacity := env.payloads.demote(payload).Some?;
        }
      }
      if !shedding {
        pending := pending + env.translate(k, payload);
      }
      return false;
    }

    method HandleLine(line: Bytes) returns (ended: bool)
      modifies this
      ensures ended <==> OnLine(env, old(View()), line).None?
      ensures !ended ==> Some(View()) == OnLine(env, old(View()), line)
      ensures ended ==> R.IsJson(line) && shed == R.Frame(R.RawPayload(line)) &&
                        demoted == old(demoted) && capacity == old(capacity)
      ensures line == [] ==> pending == old(pending)
      ensures sentAny == old(sentAny) && (ended ==> !sentAny)
    {
      assert !R.IsJson([]);
      PayloadSendsNothing(env, View().(read := read + 1), read, if R.IsJson(line) then R.RawPayload(line) else []);
      hide R.IsJson, R.RawPayload, OnPayload;
      ended := false;
      var k := read;
      read := read + 1;
      if R.IsJson(line) {
        ended := HandlePayload(k, R.RawPayload(line));
      }
    }

    // One call hands over the next frame that is owed, or reports the end when none is.
    method Next() returns (frame: Bytes, terminal: bool, err: Option<ReadError>)
      requires reader.Valid() && Consistent(View())
      modifies this, reader, reader.mem, reader.src
      ensures reader.Valid() && (reader.mem == old(reader.mem) || fresh(reader.mem))
      ensures if err.None? then Consistent(View()) else shed != R.NotShed ==> !sentAny
      ensures var owed := Owed(env, old(View()), Rest(old(reader.Stream())));
              if err.Some? then owed == [] && !terminal && frame == [] && sentAny == old(sentAny)
              else
                owed == [frame] + Owed(env, View(), Rest(reader.Stream())) && terminal == env.isDone(frame) && sentAny
      ensures var told := ToTell(env, old(View()), Rest(old(reader.Stream())));
              told == if err.Some? then ReportsOf(View()) else ToTell(env, View(), Rest(reader.Stream()))
    {
      hide L.Reader.Valid, L.Reader.Stream, FirstNewline, OnLine, Deliverable, Rest, Owed, ToTell, R.IsJson;
      ghost var s := reader.Stream();
      ghost var owed := Owed(env, View(), Rest(s));
      ghost var told := ToTell(env, View(), Rest(s));
      while true
        invariant reader.Valid() && (reader.mem == old(reader.mem) || fresh(reader.mem))
        invariant s == reader.Stream() && Consistent(View()) && sentAny == old(sentAny)
        invariant owed == Owed(env, View(), Rest(s)) && told == ToTell(env, View(), Rest(s))
        decreases |s|, |pending|
      {
        if |pending| > 0 {
          QueuedFrameGoesFirst(env, View(), Rest(s));
          QueuedFrameTellsNothing(env, View(), Rest(s));
          frame, pending := pending[0], pending[1..];
          sentAny := true;
          return frame, env.isDone(frame), None;
        }
        var line, rerr := reader.ReadLine();
        ghost var before := s;
        s := reader.Stream();
        ghost var st := View();
        RestPeels(env, st, before, line, s);
        LineIsOwed(env, st, line, Rest(s));
        RestTells(env, st, before, line, s);
        LineIsTold(env, st, line, Rest(s));
        var ended := HandleLine(line);
        if ended {
          return [], false, Some(EOF);
        }
        if rerr.Some? {
          if |pending| > 0 && !shedding {
            continue;
          }
          NothingIsOwedAtTheEnd(env, View());
          AllToldAtTheEnd(env, View());
          return [], false, rerr;
        }
      }
    }
  }

  // The driver: the frames of the whole stream, however it is cut into reads, and what its lines give to
  // report. A recorded shed means that there were no frames, so the caller can still fail over.
  method RelayAll(c: Closure) returns (frames: seq<Bytes>)
    requires c.reader.Valid() && c.View() == INIT
    modifies c, c.reader, c.reader.mem, c.reader.src
    ensures frames == Deliverable(c.env, 0, false, Rest(old(c.reader.Stream())))
    ensures c.shed != R.NotShed ==> frames == []
    ensures ReportsOf(c.View()) ==
            Told(c.env, 0, false, false, Reports(R.NotShed, false, false), Rest(old(c.reader.Stream())))
  {
    hide L.Reader.Valid, L.Reader.Stream, Deliverable, Rest, Told;
    ghost var told := ToTell(c.env, c.View(), Rest(c.reader.Stream()));
    ghost var owed := Owed(c.env, c.View(), Rest(c.reader.Stream()));
    ghost var todo := owed;
    assert [] + Deliverable(c.env, 0, false, Rest(c.reader.Stream())) == owed;
    frames := [];
    while true
      invariant c.reader.Valid() && (c.reader.mem == old(c.reader.mem) || fresh(c.reader.mem))
      invariant Consistent(c.View()) && (c.sentAny <==> frames != [])
      invariant todo == Owed(c.env, c.View(), Rest(c.reader.Stream()))
      invariant told == ToTell(c.env, c.View(), Rest(c.reader.Stream()))
      invariant owed == frames + todo
      decreases |todo|
    {
      var frame, _, err := c.Next();
      if err.Some? {
        assert frames + [] == frames;
        return;
      }
      todo := Owed(c.env, c.View(), Rest(c.reader.Stream()));
      Assoc(frames, [frame], todo);
      frames := frames + [frame];
    }
  }
}
