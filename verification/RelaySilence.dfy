/** When the relay stays silent: the exact streams on which a failed turn can still move to another
    credential unseen. */
module RelaySilence {
  import opened Bytes
  import opened Relay

  // ---------------------------------------------------------------- who speaks first

  // The latches that outlive a round without output.
  datatype Mood = Mood(shedding: bool, fatal: bool, terminal: bool)

  // What one line means for a client that has seen nothing yet: it is answered, the attempt ends, or
  // the silence goes on. No buffer, no held line and no byte count is involved.
  datatype Verdict = Speak | Drop | Hush(mood: Mood, again: bool)

  // The bytes a data line is reduced to by the scrubber and the error rewrite.
  function Polished(env: Env, t: EventType, line: Bytes): Bytes {
    match env.scrub(line)
    case None => []
    case Some(scrubbed) =>
      if t.ErrorEvent? && scrubbed != [] then
        match env.failure(FailureInput(scrubbed))
        case Some(failed) => DataLine(failed, "\n")
        case None => scrubbed
      else scrubbed
  }

  // An API-key relay that completes without usage, or a transient error: the attempt is over.
  predicate EndsAttempt(env: Env, k: nat, payload: Bytes) {
    (env.apiKey && env.ptype(payload).ResponseCompleted? && env.usageMissing(k)) ||
    env.code(payload) == ServerError || env.code(payload) == StreamTerminated
  }

  // The events that carry nothing a client could use.
  const CONTENT_FREE: set<EventType> :=
    {Untyped, ResponseCreated, ResponseInProgress, ResponseQueued, OutputItemAdded, ContentPartAdded,
     ReasoningSummaryPartAdded, Keepalive, RateLimits, ResponseMetadata, WebsocketTiming}

  // A content-free event inside the withhold window.
  predicate Withheld(env: Env, k: nat, payload: Bytes) {
    env.parses(payload) && (env.apiKey || env.capOpen(k)) &&
    (env.ptype(payload) in CONTENT_FREE || (env.ptype(payload) == OutputTextDelta && env.emptyDelta(payload)))
  }

  // The relay's own readers agree.
  lemma ReadAlike(env: Env, k: nat, payload: Bytes)
    ensures TransientError(env, payload) <==> env.code(payload) in {ServerError, StreamTerminated}
    ensures EndsAttempt(env, k, payload) <==>
            (env.apiKey && env.ptype(payload).ResponseCompleted? && env.usageMissing(k)) || TransientError(env, payload)
    ensures PreambleEvent(env, payload) && (env.apiKey || env.capOpen(k)) <==> Withheld(env, k, payload)
  {
  }

  function JudgeData(env: Env, k: nat, m: Mood, line: Bytes): Verdict
    requires IsJson(line)
  {
    var (fixed, payload) := Repaired(env, k, line);
    var shedding := m.shedding || env.classify(payload) == Retryable;
    var fatal := m.fatal || env.classify(payload) == Fatal;
    var terminal := m.terminal || TerminalEvent(env, payload);
    if EndsAttempt(env, k, payload) then Drop
    else if shedding then Hush(Mood(true, fatal, false), false)
    else if Withheld(env, k, payload) then Hush(Mood(false, fatal, terminal), true)
    else
      var bytes := Polished(env, env.ptype(payload), fixed);
      if bytes == [] then Hush(Mood(false, fatal, terminal), false)
      else if Blank(bytes) then Hush(Mood(false, fatal, terminal), true)
      else Speak
  }

  function Judge(env: Env, k: nat, m: Mood, line: Bytes): Verdict {
    var calm := if m.shedding then m.(terminal := false) else m;
    if line == [] || IsEvent(line) then Hush(calm, false)
    else if IsJson(line) then JudgeData(env, k, m, line)
    else if m.shedding then Hush(calm, false)
    else if Blank(line) then Hush(m, true)
    else Speak
  }

  // A latched fatal frame, or the end of an API-key answer, puts at least a newline on the wire.
  predicate Armed(env: Env, m: Mood) {
    m.fatal || (env.apiKey && m.terminal)
  }

  // Some byte reaches the client, told from the lines alone.
  predicate Commits(env: Env, k: nat, m: Mood, lines: seq<Bytes>, tail: Bytes, fin: ReadError)
    decreases |lines|
  {
    if lines == [] then
      match Judge(env, k, if fin.Stalled? then m.(shedding := true) else m, tail)
      case Speak => true
      case Drop => false
      case Hush(m', _) => Armed(env, m')
    else
      match Judge(env, k, m, lines[0])
      case Speak => true
      case Drop => false
      case Hush(m', again) => (!again && Armed(env, m')) || Commits(env, k + 1, m', lines[1..], tail, fin)
  }

  function MoodOf(st: State): Mood {
    Mood(st.shedding, st.fatal, st.terminal)
  }

  // ---------------------------------------------------------------- one round

  // The round did what the verdict says.
  ghost predicate Obeys(env: Env, v: Verdict, o: Outcome, k: nat, rerr: Option<ReadError>) {
    match v
    case Speak => o.Return? && o.emit != []
    case Drop => o.Return? && o.emit == [] && o.err.Some?
    case Hush(m, again) =>
      if !again && Armed(env, m) then o.Return? && o.emit != []
      else if again || rerr.None? then
        o.Again? && MoodOf(o.st) == m && !o.st.sentAny && o.st.read == k + 1
      else o.Return? && o.emit == [] && o.err.Some?
  }

  // The verdict on a round that reaches the emit switch in state st with the given line.
  function FallThrough(st: State, line: Bytes): Verdict {
    if st.shedding then Hush(MoodOf(st).(terminal := false), false)
    else if line == [] then Hush(MoodOf(st), false)
    else if Blank(line) then Hush(MoodOf(st), true)
    else Speak
  }

  lemma SettleIsJudged(env: Env, st: State, k: nat, line: Bytes, rerr: Option<ReadError>)
    requires !st.sentAny && st.read == k + 1
    ensures Obeys(env, FallThrough(st, line), Settle(env, st, line, rerr), k, rerr)
  {
    hide TrimEol, Blank;
  }

  lemma LatchesBeforeOutput(env: Env, st: State, line: Bytes, payload: Bytes)
    requires !st.sentAny
    ensures var (st', line') := Classify(env, st, line, payload);
            var shedding := st.shedding || env.classify(payload) == Retryable;
            !st'.sentAny && st'.read == st.read && st'.lastType == st.lastType && st'.shedding == shedding &&
            st'.fatal == (st.fatal || env.classify(payload) == Fatal) &&
            st'.terminal == (st.terminal || (TerminalEvent(env, payload) && !shedding)) &&
            (env.classify(payload) != Retryable ==> line' == line)
  {
    hide TerminalEvent, Eol, DataLine;
  }

  // What classification decides, in terms of the verdict.
  ghost predicate FlowObeys(v: Verdict, flow: Flow, k: nat) {
    match flow
    case Quit(_) => v == Drop
    case Buffered(st) => v == Hush(MoodOf(st), true) && !st.sentAny && st.read == k + 1
    case Through(st, line) => v == FallThrough(st, line) && !st.sentAny && st.read == k + 1
  }

  // Scrubbing touches nothing but the held line.
  lemma PolishIs(env: Env, st: State, line: Bytes)
    ensures var (st', line') := Polish(env, st, line);
      line' == Polished(env, st.lastType, line) && st' == st.(held := st'.held)
    ensures var st' := Buffer(env, st, line); st' == st.(held := st'.held, preamble := st'.preamble)
  {
    hide FailureInput, DataLine;
  }

  lemma FlowIsJudged(env: Env, st: State, k: nat, line: Bytes)
    requires !st.sentAny && st.read == k + 1 && IsJson(line)
    ensures FlowObeys(JudgeData(env, k, MoodOf(st), line), OnData(env, st, k, line), k)
  {
    ReadAlike(env, k, Repaired(env, k, line).1);
    hide TrimEol, Blank, Repaired, IsJson, Classify, TransientError, TerminalEvent, PreambleEvent, Withheld;
    hide EndsAttempt;
    var (fixed, payload) := Repaired(env, k, line);
    var st1 := st.(lastType := env.ptype(payload));
    LatchesBeforeOutput(env, st1, fixed, payload);
    var (st2, line2) := Classify(env, st1, fixed, payload);
    PolishIs(env, st2, line2);
    hide Polish, Polished, Buffer;
  }

  lemma DataIsJudged(env: Env, st: State, k: nat, line: Bytes, rerr: Option<ReadError>)
    requires !st.sentAny && st.read == k + 1 && IsJson(line)
    ensures Obeys(env, JudgeData(env, k, MoodOf(st), line), OnLine(env, st, k, line, rerr), k, rerr)
  {
    JsonIsNoEvent(line);
    hide IsEvent, IsJson, TrimEol, Blank, Settle, JudgeData, OnData;
    FlowIsJudged(env, st, k, line);
    match OnData(env, st, k, line)
    case Quit(_) =>
    case Buffered(_) =>
    case Through(st', line') => SettleIsJudged(env, st', k, line', rerr);
  }

  lemma EventOrData(line: Bytes)
    ensures IsEvent(line) ==> line != [] && line[0] == 'e'
    ensures IsData(line) ==> line != [] && line[0] == 'd'
  {
    if IsEvent(line) {
      assert line[0] == TrimEol(line)[0] == "event:"[0];
    }
    if IsData(line) {
      assert line[0] == TrimEol(line)[0] == "data:"[0];
    }
  }

  lemma JsonIsNoEvent(line: Bytes)
    ensures IsJson(line) ==> line != [] && !IsEvent(line)
  {
    EventOrData(line);
  }

  lemma AgainMeansOpen(env: Env, k: nat, m: Mood, line: Bytes)
    ensures var v := Judge(env, k, m, line); v.Hush? && v.again ==> !m.shedding && !v.mood.shedding
  {
    hide IsEvent, IsJson, Blank, Repaired, Polished, EndsAttempt, Withheld;
  }

  lemma JudgeNothing(env: Env, k: nat, m: Mood)
    ensures Judge(env, k, m, []) == Hush(if m.shedding then m.(terminal := false) else m, false)
  {
  }

  lemma RoundIsJudged(env: Env, st: State, line: Bytes, rerr: Option<ReadError>)
    requires !st.sentAny
    ensures var m := MoodOf(LatchStall(st, rerr));
            Obeys(env, Judge(env, st.read, m, line), Step(env, st, line, rerr), st.read, rerr)
  {
    hide Settle, JudgeData, Blank, Obeys;
    var st1 := LatchStall(st, rerr).(read := st.read + 1);
    if line == [] || IsEvent(line) {
      hide IsEvent;
      SettleIsJudged(env, if line == [] || st1.shedding then st1 else st1.(held := line), st.read, [], rerr);
    } else if IsJson(line) {
      hide IsEvent, IsJson;
      DataIsJudged(env, st1, st.read, line, rerr);
    } else {
      hide IsEvent, IsJson;
      SettleIsJudged(env, st1, st.read, line, rerr);
    }
  }

  // ---------------------------------------------------------------- whole runs

  // A run writes nothing exactly when no line of it commits, in both modes, whatever the clock, the
  // classifier and the scrubber do, and however the stream ends.
  lemma {:induction false} SilentExactly(
    env: Env, st: State, lines: seq<Bytes>, tail: Bytes, fin: ReadError)
    requires !st.sentAny
    ensures Run(env, st, lines, tail, fin).written == [] <==>
            !Commits(env, st.read, MoodOf(st), lines, tail, fin)
    decreases |lines|
  {
    hide Step, Judge;
    if lines == [] {
      RoundIsJudged(env, st, tail, Some(fin));
      var o := Step(env, st, tail, Some(fin));
      if o.Again? {
        RoundIsJudged(env, o.st, [], Some(fin));
        EmptyReadReturns(env, o.st, fin);
        AgainMeansOpen(env, st.read, MoodOf(LatchStall(st, Some(fin))), tail);
        JudgeNothing(env, o.st.read, MoodOf(o.st));
      }
    } else {
      RoundIsJudged(env, st, lines[0], None);
      var o := Step(env, st, lines[0], None);
      if o.Again? {
        SilentExactly(env, o.st, lines[1..], tail, fin);
      }
    }
  }

  // ---------------------------------------------------------------- withheld sheds

  // A later frame that the classifier calls fatal is reached before one that ends the attempt.
  predicate FatalSurfaces(env: Env, k: nat, lines: seq<Bytes>)
    decreases |lines|
  {
    lines != [] &&
    (if IsJson(lines[0]) then
       var payload := Repaired(env, k, lines[0]).1;
       !EndsAttempt(env, k, payload) &&
       (env.classify(payload) == Fatal || FatalSurfaces(env, k + 1, lines[1..]))
     else FatalSurfaces(env, k + 1, lines[1..]))
  }

  // Once a shed is latched, the rest of the run stays silent unless a fatal frame surfaces: the fatal branch
  // does not look at the latch.
  lemma {:induction false} ShedIsInvisibleExactly(
    env: Env, st: State, lines: seq<Bytes>, tail: Bytes, fin: ReadError)
    requires st.shedding && !st.sentAny && !st.fatal
    ensures Run(env, st, lines, tail, fin).written == [] <==> !FatalSurfaces(env, st.read, lines + [tail])
  {
    SilentExactly(env, st, lines, tail, fin);
    ShedCommits(env, st.read, MoodOf(st), lines, tail, fin);
  }

  lemma {:induction false} ShedCommits(
    env: Env, k: nat, m: Mood, lines: seq<Bytes>, tail: Bytes, fin: ReadError)
    requires m.shedding && !m.fatal
    ensures Commits(env, k, m, lines, tail, fin) <==> FatalSurfaces(env, k, lines + [tail])
    decreases |lines|
  {
    hide IsEvent, IsJson, Repaired, EndsAttempt, Withheld, Polished, Blank;
    var all := lines + [tail];
    JsonIsNoEvent(all[0]);
    if lines == [] {
      assert all[1..] == [];
    } else {
      assert all[1..] == lines[1..] + [tail];
      ShedCommits(env, k + 1, Mood(true, false, false), lines[1..], tail, fin);
    }
  }

  // A recorded shed is latched, and a latched one has released nothing.
  ghost predicate ShedUnseen(st: State) {
    (st.out.shed != NotShed ==> st.shedding) && (st.shedding ==> !st.sentAny)
  }

  predicate HasShed(st: State) {
    st.shedding || st.out.shed != NotShed
  }

  predicate AtMostTwoNewlines(written: Bytes) {
    written == [] || written == "\n\n"
  }

  // A run that has shed when it ends has written nothing at all, but for the two newlines that close a
  // fatal frame.
  lemma {:induction false} ShedMeansNoOutput(
    env: Env, st: State, lines: seq<Bytes>, tail: Bytes, fin: ReadError)
    requires ShedUnseen(st)
    ensures var run := Run(env, st, lines, tail, fin);
      (HasShed(run.st) ==> !st.sentAny && !run.st.sentAny && AtMostTwoNewlines(run.written)) &&
      (st.shedding ==> HasShed(run.st))
    decreases |lines|
  {
    hide Step, AtMostTwoNewlines;
    if lines == [] {
      RoundKeepsShedUnseen(env, st, tail, Some(fin));
      var o := Step(env, st, tail, Some(fin));
      if o.Again? {
        RoundKeepsShedUnseen(env, o.st, [], Some(fin));
        EmptyReadReturns(env, o.st, fin);
      } else {
        ErrorsAreReported(env, st, tail, Some(fin));
      }
    } else {
      RoundKeepsShedUnseen(env, st, lines[0], None);
      var o := Step(env, st, lines[0], None);
      if o.Again? || o.err.None? {
        ShedMeansNoOutput(env, o.st.(terminal := if o.Again? then o.st.terminal else false), lines[1..], tail, fin);
      }
    }
  }

  // Once a shed is latched the bytes of the rest are known: the two newlines if a fatal frame surfaces,
  // and otherwise none.
  lemma ShedWritesExactly(env: Env, st: State, lines: seq<Bytes>, tail: Bytes, fin: ReadError)
    requires st.shedding && !st.sentAny && !st.fatal
    ensures Run(env, st, lines, tail, fin).written ==
            if FatalSurfaces(env, st.read, lines + [tail]) then "\n\n" else []
  {
    hide Run, FatalSurfaces;
    ShedIsInvisibleExactly(env, st, lines, tail, fin);
    ShedMeansNoOutput(env, st, lines, tail, fin);
  }

  lemma RoundKeepsShedUnseen(env: Env, st: State, line: Bytes, rerr: Option<ReadError>)
    requires ShedUnseen(st)
    ensures StillUnseen(st, Step(env, st, line, rerr))
  {
    hide IsEvent, IsJson, OnData, Settle;
    var st1 := LatchStall(st, rerr).(read := st.read + 1);
    if line == [] || IsEvent(line) {
      SettleKeepsShedUnseen(env, if line == [] || st1.shedding then st1 else st1.(held := line), [], rerr);
    } else if IsJson(line) {
      DataKeepsShedUnseen(env, st1, st.read, line);
      match OnData(env, st1, st.read, line)
      case Quit(_) =>
      case Buffered(_) =>
      case Through(st', line') => SettleKeepsShedUnseen(env, st', line', rerr);
    } else {
      SettleKeepsShedUnseen(env, st1, line, rerr);
    }
  }

  ghost predicate StillUnseen(st: State, o: Outcome) {
    (st.sentAny ==> o.st.sentAny) && (st.shedding ==> HasShed(o.st)) &&
    if o.Again? then ShedUnseen(o.st)
    else if o.err.None? then ShedUnseen(o.st) && o.st.sentAny
    else HasShed(o.st) ==> !o.st.sentAny && AtMostTwoNewlines(o.emit)
  }

  lemma SettleKeepsShedUnseen(env: Env, st: State, line: Bytes, rerr: Option<ReadError>)
    requires ShedUnseen(st)
    ensures StillUnseen(st, Settle(env, st, line, rerr))
  {
    hide Blank;
  }

  predicate Later(st: State, st': State) {
    (st.sentAny ==> st'.sentAny) && (st.shedding ==> st'.shedding)
  }

  lemma DataKeepsShedUnseen(env: Env, st: State, k: nat, line: Bytes)
    requires ShedUnseen(st) && IsJson(line)
    ensures match OnData(env, st, k, line)
            case Quit(st') => !st.sentAny && !st'.sentAny && HasShed(st')
            case Buffered(st') => ShedUnseen(st') && Later(st, st')
            case Through(st', _) => ShedUnseen(st') && Later(st, st')
  {
    hide IsJson, Repaired, Classify, TransientError, PreambleEvent, DataLine, FailureInput;
    var (fixed, payload) := Repaired(env, k, line);
    LatchesKeepShedUnseen(env, st.(lastType := env.ptype(payload)), fixed, payload);
  }

  lemma LatchesKeepShedUnseen(env: Env, st: State, line: Bytes, payload: Bytes)
    requires ShedUnseen(st)
    ensures var st' := Classify(env, st, line, payload).0; ShedUnseen(st') && Later(st, st')
  {
    hide TerminalEvent, DataLine, Eol;
  }

  // ---------------------------------------------------------------- what a silent run reports

  // Why the turn was withheld, and the error code that goes with it.
  datatype Record = Record(shed: Shed, code: ErrorCode)

  // A line that names a reason replaces the one before.
  function LineRecord(env: Env, k: nat, r: Record, line: Bytes): Record {
    if line == [] || IsEvent(line) || !IsJson(line) then r
    else
      var payload := Repaired(env, k, line).1;
      if env.apiKey && env.ptype(payload).ResponseCompleted? && env.usageMissing(k) then r.(shed := MissingUsage)
      else if env.code(payload) in {ServerError, StreamTerminated} || env.classify(payload) == Retryable
      then Record(Frame(payload), env.code(payload))
      else r
  }

  predicate Latches(env: Env, k: nat, line: Bytes) {
    line != [] && !IsEvent(line) && IsJson(line) && env.classify(Repaired(env, k, line).1) == Retryable
  }

  predicate Ends(env: Env, k: nat, line: Bytes) {
    line != [] && !IsEvent(line) && IsJson(line) && EndsAttempt(env, k, Repaired(env, k, line).1)
  }

  // The last reason before the attempt ends, told from the lines. A stall is one if there is none yet.
  function LastRecord(
    env: Env, k: nat, latched: bool, r: Record, lines: seq<Bytes>, tail: Bytes, fin: ReadError): Record
    decreases |lines|
  {
    if lines == [] then
      LineRecord(env, k, if fin.Stalled? && !latched then r.(shed := StalledTurn) else r, tail)
    else
      var r' := LineRecord(env, k, r, lines[0]);
      if Ends(env, k, lines[0]) then r'
      else LastRecord(env, k + 1, latched || Latches(env, k, lines[0]), r', lines[1..], tail, fin)
  }

  function RecordOf(st: State): Record {
    Record(st.out.shed, st.out.shedCode)
  }

  lemma RoundRecords(env: Env, st: State, line: Bytes, rerr: Option<ReadError>)
    requires !st.sentAny
    ensures RecordOf(Step(env, st, line, rerr).st) ==
            LineRecord(env, st.read, RecordOf(LatchStall(st, rerr)), line)
  {
    hide IsEvent, IsJson, OnData, Settle;
    var st1 := LatchStall(st, rerr).(read := st.read + 1);
    if line == [] || IsEvent(line) {
      SettleRecords(env, if line == [] || st1.shedding then st1 else st1.(held := line), [], rerr);
    } else if IsJson(line) {
      DataRecords(env, st1, st.read, line);
      match OnData(env, st1, st.read, line)
      case Quit(_) =>
      case Buffered(_) =>
      case Through(st', line') => SettleRecords(env, st', line', rerr);
    } else {
      SettleRecords(env, st1, line, rerr);
    }
  }

  lemma SettleRecords(env: Env, st: State, line: Bytes, rerr: Option<ReadError>)
    ensures RecordOf(Settle(env, st, line, rerr).st) == RecordOf(st)
  {
    hide TrimEol, Blank;
  }

  lemma ClassifyRecords(env: Env, st: State, line: Bytes, payload: Bytes)
    requires !st.sentAny
    ensures RecordOf(Classify(env, st, line, payload).0) ==
            if env.classify(payload) == Retryable then Record(Frame(payload), env.code(payload)) else RecordOf(st)
  {
    hide TerminalEvent, DataLine, Eol;
  }

  lemma PolishRecords(env: Env, st: State, line: Bytes)
    ensures RecordOf(Polish(env, st, line).0) == RecordOf(st) && RecordOf(Buffer(env, st, line)) == RecordOf(st)
  {
    hide FailureInput, DataLine;
  }

  lemma DataRecords(env: Env, st: State, k: nat, line: Bytes)
    requires !st.sentAny && line != [] && !IsEvent(line) && IsJson(line)
    ensures match OnData(env, st, k, line)
            case Quit(st') => RecordOf(st') == LineRecord(env, k, RecordOf(st), line)
            case Buffered(st') => RecordOf(st') == LineRecord(env, k, RecordOf(st), line)
            case Through(st', _) => RecordOf(st') == LineRecord(env, k, RecordOf(st), line)
  {
    var (fixed, payload) := Repaired(env, k, line);
    ReadAlike(env, k, payload);
    var st1 := st.(lastType := env.ptype(payload));
    ClassifyRecords(env, st1, fixed, payload);
    var (st2, line2) := Classify(env, st1, fixed, payload);
    PolishRecords(env, st2, line2);
    hide IsEvent, IsJson, Repaired, TransientError, PreambleEvent, Classify, Polish, Buffer, EndsAttempt, Withheld;
  }

  lemma VerdictLatches(env: Env, k: nat, m: Mood, line: Bytes)
    ensures var v := Judge(env, k, m, line);
      (v.Drop? <==> Ends(env, k, line)) && (v.Hush? ==> v.mood.shedding == (m.shedding || Latches(env, k, line)))
  {
    JsonIsNoEvent(line);
    hide IsEvent, IsJson, Blank, Repaired, Polished, Withheld, EndsAttempt;
  }

  // What a run that wrote nothing reports to the failover loop: the last reason upstream gave.
  lemma {:induction false} SilentRunReports(env: Env, st: State, lines: seq<Bytes>, tail: Bytes, fin: ReadError)
    requires !st.sentAny && !Commits(env, st.read, MoodOf(st), lines, tail, fin)
    ensures RecordOf(Run(env, st, lines, tail, fin).st) ==
            LastRecord(env, st.read, st.shedding, RecordOf(st), lines, tail, fin)
    decreases |lines|
  {
    hide Step, Judge, LineRecord, Latches, Ends;
    if lines == [] {
      RoundIsJudged(env, st, tail, Some(fin));
      RoundRecords(env, st, tail, Some(fin));
      var o := Step(env, st, tail, Some(fin));
      if o.Again? {
        RoundRecords(env, o.st, [], Some(fin));
        EmptyReadReturns(env, o.st, fin);
        NoLineRecord(env, o.st.read, RecordOf(o.st));
        AgainMeansOpen(env, st.read, MoodOf(LatchStall(st, Some(fin))), tail);
      }
    } else {
      RoundIsJudged(env, st, lines[0], None);
      RoundRecords(env, st, lines[0], None);
      VerdictLatches(env, st.read, MoodOf(st), lines[0]);
      var o := Step(env, st, lines[0], None);
      if o.Again? {
        SilentRunReports(env, o.st, lines[1..], tail, fin);
      }
    }
  }

  lemma NoLineRecord(env: Env, k: nat, r: Record)
    ensures LineRecord(env, k, r, []) == r
  {
  }

  // ---------------------------------------------------------------- quiet streams

  // Event lines, event terminators, and content-free events inside the withhold window. Capacity
  // errors and transient errors may be among them; fatal errors may not.
  predicate Quiet(env: Env, k: nat, line: Bytes) {
    line == [] || IsEvent(line) || (!IsJson(line) && Blank(line)) ||
    (IsJson(line) &&
     var payload := Repaired(env, k, line).1;
     Withheld(env, k, payload) && env.classify(payload) != Fatal)
  }

  // The pre-output failover stays open: nothing is written and no terminal event is reported.
  lemma {:induction false} QuietStreamsKeepFailoverOpen(
    env: Env, st: State, lines: seq<Bytes>, tail: Bytes, fin: ReadError)
    requires !st.sentAny && !st.fatal && !st.terminal
    requires forall i | 0 <= i < |lines| :: Quiet(env, st.read + i, lines[i])
    requires Quiet(env, st.read + |lines|, tail)
    ensures var run := Run(env, st, lines, tail, fin);
            run.written == [] && !run.sawTerminal && !run.st.sentAny
    decreases |lines|
  {
    hide Step, Quiet;
    if lines == [] {
      QuietRound(env, st, tail, Some(fin));
      var o := Step(env, st, tail, Some(fin));
      if o.Again? {
        QuietNothing(env, o.st.read);
        QuietRound(env, o.st, [], Some(fin));
        EmptyReadReturns(env, o.st, fin);
      }
    } else {
      QuietRound(env, st, lines[0], None);
      var o := Step(env, st, lines[0], None);
      if o.Again? {
        forall i | 0 <= i < |lines[1..]| ensures Quiet(env, o.st.read + i, lines[1..][i]) {
          assert Quiet(env, st.read + (i + 1), lines[i + 1]);
        }
        QuietStreamsKeepFailoverOpen(env, o.st, lines[1..], tail, fin);
      }
    }
  }

  lemma QuietNothing(env: Env, k: nat)
    ensures Quiet(env, k, [])
  {
  }

  lemma QuietRound(env: Env, st: State, line: Bytes, rerr: Option<ReadError>)
    requires !st.sentAny && !st.fatal && !st.terminal && Quiet(env, st.read, line)
    ensures var o := Step(env, st, line, rerr);
            !o.st.sentAny &&
            if o.Again? then !o.st.fatal && !o.st.terminal && o.st.read == st.read + 1
            else o.emit == [] && !o.terminal && o.err.Some?
  {
    JsonIsNoEvent(line);
    hide IsEvent, IsJson, OnData, TrimEol, Blank, Withheld, Repaired;
    if line != [] && IsJson(line) {
      QuietData(env, LatchStall(st, rerr).(read := st.read + 1), st.read, line);
    }
  }

  lemma QuietData(env: Env, st: State, k: nat, line: Bytes)
    requires !st.sentAny && !st.fatal && !st.terminal && st.read == k + 1 && IsJson(line)
    requires var payload := Repaired(env, k, line).1;
             Withheld(env, k, payload) && env.classify(payload) != Fatal
    ensures match OnData(env, st, k, line)
            case Quit(st') => !st'.sentAny
            case Buffered(st') => !st'.sentAny && !st'.fatal && !st'.terminal && st'.read == st.read
            case Through(st', _) =>
              st'.shedding && !st'.sentAny && !st'.fatal && !st'.terminal && st'.read == st.read
  {
    hide Repaired, TransientError, DataLine, FailureInput, Eol;
  }

  // ---------------------------------------------------------------- the withheld shed that is seen

  const SHED_LINE: Bytes := "data:{s\n"
  const FATAL_LINE: Bytes := "data:{f\n"

  // An environment in which the payload "{s" is a capacity error and any other a fatal one.
  function SampleEnv(): Env {
    Env(false, _ => ErrorEvent, _ => true, _ => false, _ => NoCode,
        p => if p == "{s" then Retryable else Fatal,
        _ => None, l => Some(l), _ => None, (_, p) => p, _ => true, _ => false)
  }

  lemma SamplePayloads()
    ensures IsJson(SHED_LINE) && RawPayload(SHED_LINE) == "{s"
    ensures IsJson(FATAL_LINE) && RawPayload(FATAL_LINE) == "{f"
  {
    assert SHED_LINE[..7] == "data:{s" && FATAL_LINE[..7] == "data:{f";
    assert TrimEol("data:{s") == "data:{s" && TrimEol("data:{f") == "data:{f";
    assert TrimEol(SHED_LINE) == "data:{s" && TrimEol(FATAL_LINE) == "data:{f";
    assert "data:{s"[5..] == "{s" && "data:{f"[5..] == "{f";
  }

  lemma SampleShed()
    ensures Step(SampleEnv(), INIT, SHED_LINE, None) ==
            Again(INIT.(read := 1, shedding := true, lastType := ErrorEvent,
                        out := NOTHING_YET.(shed := Frame("{s"))))
  {
    SamplePayloads();
    JsonIsNoEvent(SHED_LINE);
    hide IsEvent, IsJson, RawPayload, SHED_LINE;
  }

  lemma SampleFatal(st: State)
    requires st.shedding && !st.sentAny && st.preamble == []
    ensures var o := Step(SampleEnv(), st, FATAL_LINE, None);
            o.Return? && o.emit == "\n\n" && o.err == Some(EOF) && !o.st.sentAny &&
            o.st.out.shed == st.out.shed
  {
    SamplePayloads();
    JsonIsNoEvent(FATAL_LINE);
    hide IsEvent, IsJson, RawPayload, FATAL_LINE;
    assert TrimEol([]) == [] && [] + "\n\n" == "\n\n";
  }

  // A capacity error followed by a fatal frame writes two newlines although the shed was recorded, so
  // the attempt counts as one that has answered the client.
  lemma ShedThenFatalIsSeen()
    ensures var run := Run(SampleEnv(), INIT, [SHED_LINE, FATAL_LINE], [], EOF);
            run.written == "\n\n" && run.st.out.shed == Frame("{s") && !run.st.sentAny
  {
    hide Step, SampleEnv;
    var lines := [SHED_LINE, FATAL_LINE];
    assert lines[1..] == [FATAL_LINE];
    SampleShed();
    SampleFatal(Step(SampleEnv(), INIT, SHED_LINE, None).st);
  }
}
