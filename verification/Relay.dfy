/** The withholding SSE relay of internal/server/codex_oauth_proxy.go: the `next` closure that decides
    which bytes may reach the client, and the loop that drives it. */
module Relay {
  import opened Bytes
  import L = LineReader

  // ---------------------------------------------------------------- the surroundings

  datatype Class = Retryable | Fatal | Unclassified

  // The declared types the relay tells apart; `Untyped` is a payload that declares none.
  datatype EventType =
    | Untyped
    | ResponseCreated | ResponseInProgress | ResponseQueued | OutputItemAdded | ContentPartAdded
    | ReasoningSummaryPartAdded | Keepalive | RateLimits | ResponseMetadata | WebsocketTiming
    | OutputTextDelta
    | ResponseCompleted | ResponseFailed | ResponseIncomplete | ResponseCancelled
    | ErrorEvent
    | OtherEvent(name: Bytes)

  predicate IsContentFree(t: EventType) {
    t.ResponseCreated? || t.ResponseInProgress? || t.ResponseQueued? || t.OutputItemAdded? ||
    t.ContentPartAdded? || t.ReasoningSummaryPartAdded? || t.Keepalive? || t.RateLimits? ||
    t.ResponseMetadata? || t.WebsocketTiming?
  }

  predicate IsTerminal(t: EventType) {
    t.ResponseCompleted? || t.ResponseFailed? || t.ResponseIncomplete? || t.ResponseCancelled?
  }

  datatype ErrorCode = NoCode | ServerError | StreamTerminated | OtherCode(name: Bytes)

  // Why a turn was withheld from the client, if it was.
  datatype Shed = NotShed | StalledTurn | MissingUsage | Frame(payload: Bytes)

  // The payload readers of other packages, as arbitrary functions. `fix`, `capOpen` and `usageMissing`
  // depend on the number of the line as well: the output accumulator and the usage total have a memory,
  // and the clock moves.
  datatype Env = Env(
    apiKey: bool,                        // contentStarted != nil
    ptype: Bytes -> EventType,           // codexEventType
    parses: Bytes -> bool,               // the payload decodes as an event with a type and a delta
    emptyDelta: Bytes -> bool,           // it declares a delta and the delta is ""
    code: Bytes -> ErrorCode,            // codexErrorFrameCode
    classify: Bytes -> Class,            // codexerr.Classify
    demote: Bytes -> Option<Bytes>,      // codexerr.DemoteCapacityCode
    scrub: Bytes -> Option<Bytes>,       // downstream.ScrubCodexSSELine
    failure: Bytes -> Option<Bytes>,     // codexResponseFailure
    fix: (nat, Bytes) -> Bytes,          // output.Observe, then rewriteResponseModel
    capOpen: nat -> bool,                // time.Since(withholdStart) < codexPreOutputWithholdCap
    usageMissing: nat -> bool            // usage.MissingUsage(*counts)
  )

  predicate TransientError(env: Env, payload: Bytes) {
    var c := env.code(payload);
    c.ServerError? || c.StreamTerminated?
  }

  predicate TerminalEvent(env: Env, payload: Bytes) {
    IsTerminal(env.ptype(payload))
  }

  predicate PreambleEvent(env: Env, payload: Bytes) {
    var t := env.ptype(payload);
    env.parses(payload) && (t.Untyped? || (t.OutputTextDelta? && env.emptyDelta(payload)) || IsContentFree(t))
  }

  // ---------------------------------------------------------------- lines

  predicate IsEvent(line: Bytes) {
    "event:" <= TrimEol(line)
  }

  predicate IsData(line: Bytes) {
    "data:" <= TrimEol(line)
  }

  function Eol(line: Bytes): Bytes {
    line[|TrimEol(line)|..]
  }

  function DataLine(payload: Bytes, eol: Bytes): Bytes {
    "data: " + payload + eol
  }

  function FailedEventLine(): Bytes {
    "event: response.failed\n"
  }

  function RawPayload(line: Bytes): Bytes
    requires IsData(line)
  {
    TrimSpace(TrimEol(line)[5..])
  }

  predicate IsJson(line: Bytes) {
    IsData(line) && "{" <= RawPayload(line)
  }

  // The k-th line as the relay goes on with it, and its payload: rebuilt if the repair changed it.
  function Repaired(env: Env, k: nat, line: Bytes): (r: (Bytes, Bytes))
    requires IsJson(line)
  {
    var fixed := env.fix(k, RawPayload(line));
    if fixed == RawPayload(line) then (line, fixed)
    else (DataLine(fixed, Eol(line)), fixed)
  }

  // ---------------------------------------------------------------- the state of the closure

  // What the relay reports to the failover code besides its error.
  datatype Report = Report(
    shed: Shed, shedCode: ErrorCode, demotedShed: bool, demotedCapacity: bool, fatalCode: ErrorCode,
    committedBy: EventType)

  const NOTHING_YET: Report := Report(NotShed, NoCode, false, false, NoCode, Untyped)

  datatype State = State(
    held: Bytes, preamble: Bytes, shedding: bool, sentAny: bool, fatal: bool,
    terminal: bool,      // the named result of the closure, so it lives for one call
    lastType: EventType,
    read: nat,           // lines read so far
    out: Report)

  const INIT: State := State([], [], false, false, false, false, Untyped, 0, NOTHING_YET)

  // One round of the closure's loop: go round again, or return.
  datatype Outcome =
    | Again(st: State)
    | Return(st: State, emit: Bytes, terminal: bool, err: Option<ReadError>)

  // What the classification of a data line decides.
  datatype Flow =
    | Through(st: State, line: Bytes)
    | Buffered(st: State)
    | Quit(st: State)

  // ---------------------------------------------------------------- one round, stage by stage

  function LatchStall(st: State, rerr: Option<ReadError>): State {
    if rerr == Some(Stalled) && !st.sentAny && !st.shedding then
      st.(shedding := true, held := [], preamble := [], out := st.out.(shed := StalledTurn))
    else st
  }

  // A capacity or quota frame: withheld before output, demoted or named after it.
  function OnRetryable(env: Env, st: State, line: Bytes, payload: Bytes): (State, Bytes) {
    if !st.sentAny then
      (st.(shedding := true, held := [], preamble := [],
           out := st.out.(shed := Frame(payload), shedCode := env.code(payload))), [])
    else match env.demote(payload)
      case Some(demoted) =>
        (st.(out := st.out.(demotedShed := true, demotedCapacity := true)),
         DataLine(demoted, Eol(line)))
      case None => (st.(out := st.out.(demotedShed := true)), line)
  }

  function OnFatal(env: Env, st: State, payload: Bytes): State {
    st.(fatal := true,
        out := if st.sentAny then st.out else st.out.(fatalCode := env.code(payload)))
  }

  function Buffer(env: Env, st: State, line: Bytes): State {
    match env.scrub(line)
    case Some(scrubbed) => st.(preamble := st.preamble + st.held + scrubbed, held := [])
    case None => st.(held := [])
  }

  // The scrubber and the rewrite of a top-level error, in that order.
  function Polish(env: Env, st: State, line: Bytes): (State, Bytes) {
    match env.scrub(line)
    case None => (st.(held := []), [])
    case Some(scrubbed) =>
      if st.lastType.ErrorEvent? && scrubbed != [] then
        match env.failure(FailureInput(scrubbed))
        case Some(failed) => (st.(held := FailedEventLine()), DataLine(failed, "\n"))
        case None => (st, scrubbed)
      else (st, scrubbed)
  }

  function FailureInput(line: Bytes): Bytes {
    TrimSpace(if "data:" <= line then line[5..] else line)
  }

  // What the classification of a payload does to the latches, and to the line of a shed.
  function Classify(env: Env, st: State, line: Bytes, payload: Bytes): (State, Bytes) {
    var (st1, line1) :=
      if env.classify(payload) == Retryable then OnRetryable(env, st, line, payload) else (st, line);
    var st2 := if env.classify(payload) == Fatal then OnFatal(env, st1, payload) else st1;
    (if TerminalEvent(env, payload) && !st2.shedding then st2.(terminal := true) else st2, line1)
  }

  function OnData(env: Env, st0: State, k: nat, line0: Bytes): Flow
    requires IsJson(line0)
  {
    var (line, payload) := Repaired(env, k, line0);
    var st := st0.(lastType := env.ptype(payload));
    if env.apiKey && !st.sentAny && st.lastType.ResponseCompleted? && env.usageMissing(k) then
      Quit(st.(out := st.out.(shed := MissingUsage)))
    else if !st.sentAny && TransientError(env, payload) then
      Quit(st.(out := st.out.(shed := Frame(payload), shedCode := env.code(payload))))
    else
      var (st3, line1) := Classify(env, st, line, payload);
      if !st3.sentAny && !st3.shedding && PreambleEvent(env, payload) && (env.apiKey || env.capOpen(k)) then
        Buffered(Buffer(env, st3, line1))
      else
        var (st4, line2) := Polish(env, st3, line1);
        Through(st4, line2)
  }

  function Mute(st: State): State {
    if st.shedding then st.(held := [], terminal := false) else st
  }

  // The bytes a line releases: the held event line leaves with the line that follows it up, and
  // alone only when the stream ends for a client that is already mid-stream.
  function Pick(st: State, line: Bytes, rerr: Option<ReadError>): (State, Bytes) {
    if line != [] then (st.(held := []), st.held + line)
    else if rerr.Some? && !st.shedding then (st.(held := []), if st.sentAny then st.held else [])
    else (st, [])
  }

  // The buffered opener goes ahead of whatever released it, and never alone.
  function Flush(st: State, emit: Bytes): (State, Bytes) {
    if !st.shedding && emit != [] then (st.(preamble := []), st.preamble + emit) else (st, emit)
  }

  function Mark(st: State, emit: Bytes): State {
    if emit == [] then st
    else st.(sentAny := true, out := if st.sentAny then st.out else st.out.(committedBy := st.lastType))
  }

  function Conclude(env: Env, st: State, emit: Bytes, rerr: Option<ReadError>): Outcome {
    if st.fatal then Return(st, TrimEol(emit) + "\n\n", st.terminal, if rerr.None? then Some(EOF) else rerr)
    else if st.terminal && env.apiKey then Return(st, emit + "\n", true, Some(EOF))
    else if emit != [] || rerr.Some? then Return(st, emit, st.terminal, rerr)
    else Again(st)
  }

  // An event terminator before the first output belongs to the event that was buffered or dropped.
  predicate Buffers(st: State, line: Bytes) {
    !st.sentAny && !st.shedding && line != [] && Blank(line)
  }

  // From the `shedding` guard to the end of the round.
  function Settle(env: Env, st0: State, line0: Bytes, rerr: Option<ReadError>): Outcome {
    var st := Mute(st0);
    var line := if st0.shedding then [] else line0;
    if Buffers(st, line) then Again(st.(preamble := st.preamble + line))
    else
      var (st1, picked) := Pick(st, line, rerr);
      var (st2, emit) := Flush(st1, picked);
      Conclude(env, Mark(st2, emit), emit, rerr)
  }

  // One round of the loop, on the next line read.
  function Step(env: Env, st: State, line: Bytes, rerr: Option<ReadError>): Outcome {
    OnLine(env, LatchStall(st, rerr).(read := st.read + 1), st.read, line, rerr)
  }

  function OnLine(env: Env, st: State, k: nat, line: Bytes, rerr: Option<ReadError>): Outcome {
    if line == [] then Settle(env, st, [], rerr)
    else if IsEvent(line) then Settle(env, if st.shedding then st else st.(held := line), [], rerr)
    else if IsJson(line) then
      match OnData(env, st, k, line)
      case Quit(st') => Return(st'.(terminal := false), [], false, Some(EOF))
      case Buffered(st') => Again(st')
      case Through(st', line') => Settle(env, st', line', rerr)
    else Settle(env, st, line, rerr)
  }

  // ---------------------------------------------------------------- whole runs

  // What a run writes to the client, whether it saw a terminal event, and the closure's last state.
  datatype Trace = Trace(written: Bytes, sawTerminal: bool, st: State)

  function Prepend(emit: Bytes, terminal: bool, t: Trace): Trace {
    Trace(emit + t.written, terminal || t.sawTerminal, t.st)
  }

  function Stop(st: State, emit: Bytes, terminal: bool): Trace {
    Trace(emit, terminal, st.(terminal := false))
  }

  // The closure called until it reports an error, over a stream given by its lines.
  function Run(env: Env, st: State, lines: seq<Bytes>, tail: Bytes, fin: ReadError): Trace
    decreases |lines|
  {
    if lines == [] then RunTail(env, st, tail, fin)
    else match Step(env, st, lines[0], None)
      case Again(st') => Run(env, st', lines[1..], tail, fin)
      case Return(st', emit, terminal, err) =>
        if err.Some? then Stop(st', emit, terminal)
        else Prepend(emit, terminal, Run(env, st'.(terminal := false), lines[1..], tail, fin))
  }

  // The unterminated rest arrives with the error. Should the round go on, the next read is empty.
  function RunTail(env: Env, st: State, tail: Bytes, fin: ReadError): Trace {
    match Step(env, st, tail, Some(fin))
    case Return(st', emit, terminal, _) => Stop(st', emit, terminal)
    case Again(st') =>
      match Step(env, st', [], Some(fin))
      case Return(st'', emit, terminal, _) => Stop(st'', emit, terminal)
      case Again(st'') => Stop(st'', [], false)
  }

  // An empty read never keeps the loop going once the stream is over.
  lemma EmptyReadReturns(env: Env, st: State, fin: ReadError)
    ensures Step(env, st, [], Some(fin)).Return?
    ensures Step(env, st, [], Some(fin)).err.Some?
  {
  }

  // The error of the read, or an earlier end of the closure's own making, is always reported.
  lemma ErrorsAreReported(env: Env, st: State, line: Bytes, rerr: Option<ReadError>)
    ensures var o := Step(env, st, line, rerr); rerr.Some? && o.Return? ==> o.err.Some?
  {
    hide OnData, Pick, Flush, Mark, TrimEol, Blank, IsEvent, IsJson;
  }

  // A call that returns without an error has bytes to write.
  lemma ReturnsWithBytes(env: Env, st: State, line: Bytes, rerr: Option<ReadError>)
    ensures var o := Step(env, st, line, rerr); o.Return? && o.err.None? ==> o.emit != []
  {
    hide OnData, Pick, Flush, Mark, TrimEol, Blank, IsEvent, IsJson;
  }

  function RunBytes(env: Env, st: State, s: Bytes, fin: ReadError): Trace {
    Run(env, st, L.Lines(s), L.Tail(s), fin)
  }

  // One line of the stream is one round of the run.
  lemma RunOneLine(env: Env, st: State, s: Bytes, line: Bytes, rest: Bytes, fin: ReadError)
    requires L.Splits(s, line, rest)
    ensures var e := if '\n' in s then None else Some(fin);
            RunBytes(env, st, s, fin) ==
              match Step(env, st, line, e)
              case Again(st') => RunBytes(env, st', rest, fin)
              case Return(st', emit, terminal, err) =>
                if err.Some? then Stop(st', emit, terminal)
                else Prepend(emit, terminal, RunBytes(env, st'.(terminal := false), rest, fin))
  {
    hide Step;
    L.SplitsPeelsOneLine(s, line, rest);
    if '\n' in s {
      assert ([line] + L.Lines(rest))[1..] == L.Lines(rest);
    } else {
      ErrorsAreReported(env, st, line, Some(fin));
      assert RunBytes(env, st, s, fin) == RunTail(env, st, line, fin);
      var o := Step(env, st, line, Some(fin));
      if o.Again? {
        EmptyReadReturns(env, o.st, fin);
        assert L.Lines([]) == [] && L.Tail([]) == [];
        assert RunBytes(env, o.st, rest, fin) == RunTail(env, o.st, [], fin);
      }
    }
  }

  // ---------------------------------------------------------------- the closure

  datatype Decision = Fall | Loop | Leave

  ghost predicate Decides(flow: Flow, decision: Decision, st: State, line: Bytes) {
    flow == match decision case Fall => Through(st, line) case Loop => Buffered(st) case Leave => Quit(st)
  }

  // The results of a call: the end of the run, or its next non-empty piece and the rest of it.
  ghost predicate TakesNext(
    run: Trace, emit: Bytes, terminal: bool, err: Option<ReadError>, st: State, rest: Trace)
  {
    if err.Some? then run == Stop(st, emit, terminal)
    else emit != [] && run == Prepend(emit, terminal, rest)
  }

  // The results of a round that match its outcome.
  ghost predicate Reports(o: Outcome, again: bool, st: State, emit: Bytes, err: Option<ReadError>) {
    match o
    case Again(st') => again && st == st'
    case Return(st', e, terminal, r) => !again && st == st' && emit == e && st.terminal == terminal && err == r
  }

  // The captured variables of `next`, over the line reader of the response body.
  class Closure {
    const env: Env
    const reader: L.Reader
    var held: Bytes
    var preamble: Bytes
    var shedding: bool
    var sentAny: bool
    var fatalFrame: bool
    var lastPayloadType: EventType
    var read: nat
    var out: Report

    constructor (env: Env, reader: L.Reader)
      ensures this.env == env && this.reader == reader && View(false) == INIT
    {
      this.env, this.reader := env, reader;
      held, preamble, shedding, sentAny, fatalFrame := [], [], false, false, false;
      lastPayloadType, read, out := Untyped, 0, NOTHING_YET;
    }

    ghost function View(terminal: bool): State
      reads this
    {
      State(held, preamble, shedding, sentAny, fatalFrame, terminal, lastPayloadType, read, out)
    }

    // A capacity or quota frame: withheld before output, demoted or named after it.
    method Withhold(line0: Bytes, payload: Bytes, ghost terminal: bool) returns (line: Bytes)
      modifies this
      ensures (View(terminal), line) == OnRetryable(env, old(View(terminal)), line0, payload)
    {
      line := line0;
      if !sentAny {
        shedding := true;
        out := out.(shed := Frame(payload), shedCode := env.code(payload));
        held, preamble, line := [], [], [];
      } else {
        var demoted := env.demote(payload);
        if demoted.Some? {
          out := out.(demotedShed := true, demotedCapacity := true);
          line := DataLine(demoted.value, Eol(line));
        } else {
          out := out.(demotedShed := true);
        }
      }
    }

    method SetLatches(line0: Bytes, payload: Bytes, terminal0: bool) returns (line: Bytes, terminal: bool)
      modifies this
      ensures (View(terminal), line) == Classify(env, old(View(terminal0)), line0, payload)
    {
      line, terminal := line0, terminal0;
      if env.classify(payload) == Retryable {
        line := Withhold(line, payload, terminal);
      }
      if env.classify(payload) == Fatal {
        if !sentAny {
          out := out.(fatalCode := env.code(payload));
        }
        fatalFrame := true;
      }
      if TerminalEvent(env, payload) && !shedding {
        terminal := true;
      }
    }

    method ScrubLine(line0: Bytes, ghost terminal: bool) returns (line: Bytes)
      modifies this
      ensures (View(terminal), line) == Polish(env, old(View(terminal)), line0)
    {
      var scrubbed := env.scrub(line0);
      if scrubbed.None? {
        line, held := [], [];
      } else {
        line := scrubbed.value;
      }
      if lastPayloadType.ErrorEvent? && line != [] {
        var failed := env.failure(FailureInput(line));
        if failed.Some? {
          held := FailedEventLine();
          line := DataLine(failed.value, "\n");
        }
      }
    }

    // A content-free event waits in the preamble; the client has still seen nothing.
    method BufferLine(line: Bytes, ghost terminal: bool)
      modifies this
      ensures View(terminal) == Buffer(env, old(View(terminal)), line)
    {
      var scrubbed := env.scrub(line);
      if scrubbed.Some? {
        preamble := preamble + held;
        preamble := preamble + scrubbed.value;
      }
      held := [];
    }

    // A data line with a JSON payload: classify it, then buffer it, leave, or fall through with the
    // line as it may be emitted.
    method ClassifyData(line0: Bytes, terminal0: bool, k: nat)
      returns (line: Bytes, terminal: bool, decision: Decision)
      requires IsJson(line0)
      modifies this
      ensures Decides(OnData(env, old(View(terminal0)), k, line0), decision, View(terminal), line)
    {
      hide Repaired, Polish, Classify, Buffer, TransientError, TerminalEvent, PreambleEvent;
      var (repaired, payload) := Repaired(env, k, line0);
      line, terminal, decision := repaired, terminal0, Fall;
      lastPayloadType := env.ptype(payload);
      if env.apiKey && !sentAny && lastPayloadType.ResponseCompleted? && env.usageMissing(k) {
        out := out.(shed := MissingUsage);
        decision := Leave;
        return;
      }
      if !sentAny && TransientError(env, payload) {
        out := out.(shed := Frame(payload), shedCode := env.code(payload));
        decision := Leave;
        return;
      }
      line, terminal := SetLatches(line, payload, terminal);
      if !sentAny && !shedding && PreambleEvent(env, payload) && (env.apiKey || env.capOpen(k)) {
        BufferLine(line, terminal);
        decision := Loop;
        return;
      }
      line := ScrubLine(line, terminal);
    }

    // The emit switch and the flush of the buffered opener.
    method Collect(line: Bytes, rerr: Option<ReadError>, ghost terminal: bool) returns (emit: Bytes)
      modifies this
      ensures var (st, picked) := Pick(old(View(terminal)), line, rerr);
              (View(terminal), emit) == Flush(st, picked)
    {
      emit := [];
      if line != [] {
        emit := held + line;
        held := [];
      } else if rerr.Some? && held != [] && !shedding && sentAny {
        emit, held := held, [];
      } else if rerr.Some? && held != [] && !shedding {
        held := [];
      }
      assert [] + emit == emit;
      if preamble != [] && !shedding && emit != [] {
        emit := preamble + emit;
        preamble := [];
      }
    }

    // Marks the first output, and decides whether the call returns and with what.
    method Deliver(emit0: Bytes, terminal0: bool, rerr: Option<ReadError>)
      returns (again: bool, emit: Bytes, terminal: bool, err: Option<ReadError>)
      modifies this
      ensures Reports(Conclude(env, Mark(old(View(terminal0)), emit0), emit0, rerr),
                      again, View(terminal), emit, err)
    {
      hide TrimEol;
      again, emit, terminal, err := false, emit0, terminal0, rerr;
      if emit != [] {
        if !sentAny {
          out := out.(committedBy := lastPayloadType);
        }
        sentAny := true;
      }
      if fatalFrame {
        emit := TrimEol(emit) + "\n\n";
        if err.None? {
          err := Some(EOF);
        }
        return;
      }
      if terminal && env.apiKey {
        emit, err := emit + "\n", Some(EOF);
        return;
      }
      again := emit == [] && err.None?;
    }

    // The end of a round: the withhold of a shed stream, the buffering of event terminators, and the
    // emission of whatever the line releases.
    method Release(line0: Bytes, terminal0: bool, rerr0: Option<ReadError>)
      returns (again: bool, emit: Bytes, terminal: bool, err: Option<ReadError>)
      modifies this
      ensures Reports(Settle(env, old(View(terminal0)), line0, rerr0), again, View(terminal), emit, err)
    {
      hide Pick, Flush, Mark, Conclude, Blank;
      var line := line0;
      again, emit, terminal, err := false, [], terminal0, rerr0;
      if shedding {
        line, held, terminal := [], [], false;
      }
      if !sentAny && !shedding && line != [] && Blank(line) {
        preamble := preamble + line;
        again := true;
        return;
      }
      emit := Collect(line, err, terminal);
      again, emit, terminal, err := Deliver(emit, terminal, err);
    }

    // Over the WebSocket a turn that upstream never scheduled shows as a read that stalls: that, too, is a shed.
    method WithholdStalled(rerr: Option<ReadError>, ghost terminal: bool)
      modifies this
      ensures View(terminal) == LatchStall(old(View(terminal)), rerr)
    {
      if rerr == Some(Stalled) && !sentAny && !shedding {
        shedding := true;
        out := out.(shed := StalledTurn);
        held, preamble := [], [];
      }
    }

    // The k-th line: an event line is held, a data line classified, anything else passed on.
    method HandleLine(line0: Bytes, terminal0: bool, k: nat, rerr: Option<ReadError>)
      returns (again: bool, emit: Bytes, terminal: bool, err: Option<ReadError>)
      modifies this
      ensures Reports(OnLine(env, old(View(terminal0)), k, line0, rerr), again, View(terminal), emit, err)
    {
      hide OnData, Settle, IsEvent, IsJson;
      var line := line0;
      again, emit, terminal, err := false, [], terminal0, rerr;
      if line != [] && IsEvent(line) {
        if !shedding {
          held := line;
        }
        line := [];
      } else if line != [] && IsJson(line) {
        var decision;
        line, terminal, decision := ClassifyData(line, terminal, k);
        if decision == Leave {
          terminal, err := false, Some(EOF);
          return;
        }
        if decision == Loop {
          again := true;
          return;
        }
      }
      again, emit, terminal, err := Release(line, terminal, rerr);
    }

    // One round of the loop, on the line just read.
    method Round(line: Bytes, terminal0: bool, rerr: Option<ReadError>)
      returns (again: bool, emit: Bytes, terminal: bool, err: Option<ReadError>)
      modifies this
      ensures Reports(Step(env, old(View(terminal0)), line, rerr), again, View(terminal), emit, err)
    {
      hide OnLine;
      WithholdStalled(rerr, terminal0);
      var k := read;
      read := read + 1;
      again, emit, terminal, err := HandleLine(line, terminal0, k, rerr);
    }

    // One call of the closure takes the next non-empty piece of the run, or ends it.
    method Next() returns (emit: Bytes, terminal: bool, err: Option<ReadError>)
      requires reader.Valid()
      modifies this, reader, reader.mem, reader.src
      ensures reader.Valid() && (reader.mem == old(reader.mem) || fresh(reader.mem))
      ensures TakesNext(RunBytes(env, old(View(false)), old(reader.Stream()), reader.src.fin),
                        emit, terminal, err, View(false),
                        RunBytes(env, View(false), reader.Stream(), reader.src.fin))
      ensures err.None? ==> |reader.Stream()| < |old(reader.Stream())|
    {
      hide Step, RunBytes, Prepend, FirstNewline, L.Reader.Valid, L.Reader.Stream;
      emit, terminal, err := [], false, None;
      ghost var fin, s := reader.src.fin, reader.Stream();
      ghost var run := RunBytes(env, View(false), s, fin);
      while true
        invariant reader.Valid() && (reader.mem == old(reader.mem) || fresh(reader.mem))
        invariant s == reader.Stream() && |s| <= |old(reader.Stream())|
        invariant run == RunBytes(env, View(terminal), s, fin)
        decreases |s|
      {
        ghost var st := View(terminal);
        var line, rerr := reader.ReadLine();
        RunOneLine(env, st, s, line, reader.Stream(), fin);
        ReturnsWithBytes(env, st, line, rerr);
        if s == [] {
          EmptyReadReturns(env, st, fin);
        }
        s := reader.Stream();
        var again;
        again, emit, terminal, err := Round(line, terminal, rerr);
        if !again {
          return;
        }
      }
    }
  }

  // The driver of the relay: what the closure emits is written until it reports an error, or the client
  // takes no more (`takes(k)` is the fate of the k-th write). A client that takes everything gets the run,
  // any other a prefix of it.
  method RelayAll(c: Closure, takes: nat -> bool) returns (written: Bytes, sawTerminal: bool, refused: bool)
    requires c.reader.Valid()
    modifies c, c.reader, c.reader.mem, c.reader.src
    ensures var run := RunBytes(c.env, old(c.View(false)), old(c.reader.Stream()), c.reader.src.fin);
      (!refused ==> Trace(written, sawTerminal, c.View(false)) == run) &&
      (refused ==> written <= run.written && (sawTerminal ==> run.sawTerminal) && exists k :: !takes(k))
  {
    ghost var run := RunBytes(c.env, c.View(false), c.reader.Stream(), c.reader.src.fin);
    ghost var s := c.reader.Stream();
    written, sawTerminal, refused := [], false, false;
    var k := 0;
    while true
      invariant c.reader.Valid() && (c.reader.mem == old(c.reader.mem) || fresh(c.reader.mem))
      invariant s == c.reader.Stream() && !refused
      invariant run == Prepend(written, sawTerminal, RunBytes(c.env, c.View(false), s, c.reader.src.fin))
      decreases |s|
    {
      ghost var rest := RunBytes(c.env, c.View(false), s, c.reader.src.fin);
      var emit, terminal, err := c.Next();
      s := c.reader.Stream();
      if emit != [] && !takes(k) {
        refused := true;
        return;
      }
      k := k + 1;
      ghost var before := written;
      written, sawTerminal := written + emit, sawTerminal || terminal;
      if err.Some? {
        return;
      }
      Assoc(before, emit, RunBytes(c.env, c.View(false), s, c.reader.src.fin).written);
    }
  }
}
