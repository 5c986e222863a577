/** What the relay does with a stream once it speaks: every line from the first released one on has its
    share of the client's bytes, whatever errors are among them, until a frame ends the turn. */
module RelayMidstream {
  import opened Bytes
  import opened Relay
  import S = RelaySilence

  // ---------------------------------------------------------------- the share of a line

  function PayloadOf(env: Env, k: nat, line: Bytes): Bytes
    requires IsJson(line)
  {
    env.fix(k, RawPayload(line))
  }

  // The payload of a data line is what stands between the field name and the line's end, without blanks.
  lemma PayloadIsRead(before: Bytes, payload: Bytes, after: Bytes, end: Bytes)
    requires Blank(before) && Bare(payload) && payload != [] && Blank(after) && LineEnd(end)
    requires after != [] ==> !LineEnd([after[|after| - 1]])
    ensures var line := "data:" + before + payload + after + end;
      IsData(line) && RawPayload(line) == payload && Eol(line) == end && (IsJson(line) <==> payload[0] == '{')
  {
    var text := "data:" + before + payload + after;
    assert after == [] ==> text[|text| - 1] == payload[|payload| - 1];
    assert after != [] ==> text[|text| - 1] == after[|after| - 1];
    TrimEolDrops(text, end);
    assert text + end == "data:" + before + payload + after + end;
    assert text[5..] == before + payload + after;
    TrimSpaceExactly(before, payload, after);
    assert "{" <= payload <==> payload[0] == '{';
  }

  // What becomes of a data line before the scrubber: repaired, and a capacity refusal in its demoted form.
  function Forwarded(env: Env, k: nat, line: Bytes): Bytes
    requires IsJson(line)
  {
    var payload := PayloadOf(env, k, line);
    var fixed := if payload == RawPayload(line) then line else "data: " + payload + Eol(line);
    if env.classify(payload) == Retryable && env.demote(payload).Some?
    then "data: " + env.demote(payload).value + Eol(fixed)
    else fixed
  }

  // The bytes a line adds, and the event line that goes ahead of them.
  datatype Part = Part(open: Bytes, share: Bytes)

  function PartOf(env: Env, k: nat, open: Bytes, line: Bytes): Part {
    if line == [] then Part(open, [])
    else if IsEvent(line) then Part(line, [])
    else if !IsJson(line) then Part(open, line)
    else
      match env.scrub(Forwarded(env, k, line))
      case None => Part([], [])
      case Some(kept) =>
        if kept == [] || !env.ptype(PayloadOf(env, k, line)).ErrorEvent? then Part(open, kept)
        else
          match env.failure(TrimSpace(if "data:" <= kept then kept[5..] else kept))
          case None => Part(open, kept)
          case Some(failed) => Part("event: response.failed\n", "data: " + failed + "\n")
  }

  // What is released with the line, and the event line that still waits after it. The end of the stream
  // releases a waiting one.
  function Released(env: Env, k: nat, open: Bytes, line: Bytes, last: bool): Bytes {
    var part := PartOf(env, k, open, line);
    if part.share != [] || last then part.open + part.share else []
  }

  function Waiting(env: Env, k: nat, open: Bytes, line: Bytes, last: bool): Bytes {
    var part := PartOf(env, k, open, line);
    if part.share != [] || last then [] else part.open
  }

  // ---------------------------------------------------------------- what a line reports

  datatype Mark = Deadly | Finishing | Refusing | Demoted

  predicate Bears(env: Env, k: nat, line: Bytes, mark: Mark) {
    IsJson(line) && !IsEvent(line) &&
    var payload := PayloadOf(env, k, line);
    match mark
    case Deadly => env.classify(payload) == Fatal
    case Finishing =>
      env.ptype(payload) in {ResponseCompleted, ResponseFailed, ResponseIncomplete, ResponseCancelled}
    case Refusing => env.classify(payload) == Retryable
    case Demoted => env.classify(payload) == Retryable && env.demote(payload).Some?
  }

  predicate EndsTurn(env: Env, k: nat, line: Bytes) {
    Bears(env, k, line, Deadly) || (env.apiKey && Bears(env, k, line, Finishing))
  }

  // Some line with that mark is reached before the turn ends.
  predicate Reaches(env: Env, k: nat, lines: seq<Bytes>, mark: Mark)
    decreases |lines|
  {
    lines != [] &&
    (Bears(env, k, lines[0], mark) || (!EndsTurn(env, k, lines[0]) && Reaches(env, k + 1, lines[1..], mark)))
  }

  // The bytes of the lines to come, the unterminated rest being the last, when `open` is the event line that
  // waits: their shares in order. A fatal frame is closed as an event and ends the turn, and so does the
  // terminal event of an API-key relay.
  function Rest(env: Env, k: nat, open: Bytes, lines: seq<Bytes>): Bytes
    requires lines != []
    decreases |lines|
  {
    var line, last := lines[0], |lines| == 1;
    var bytes := Released(env, k, open, line, last);
    if Bears(env, k, line, Deadly) then TrimEol(bytes) + "\n\n"
    else if EndsTurn(env, k, line) then bytes + "\n"
    else if last then bytes
    else bytes + Rest(env, k + 1, Waiting(env, k, open, line, last), lines[1..])
  }

  // ---------------------------------------------------------------- one round

  // The stream is under way, or this line starts it.
  predicate Speaking(env: Env, st: State, line: Bytes) {
    !st.shedding && !st.fatal && (env.apiKey ==> !st.terminal) &&
    if st.sentAny then st.preamble == [] else S.Judge(env, st.read, S.Mood(false, false, st.terminal), line).Speak?
  }

  // A fault of the read is passed on; a frame that ends the turn ends the stream cleanly.
  function EndedBy(rerr: Option<ReadError>): ReadError {
    if rerr.Some? then rerr.value else EOF
  }

  // The end of a round that has this part to give.
  ghost predicate Gives(env: Env, st: State, bytes: Bytes, waiting: Bytes, rerr: Option<ReadError>, o: Outcome) {
    var st' := o.st;
    st'.sentAny && st'.preamble == [] && !st'.shedding && st'.fatal == st.fatal && st'.read == st.read &&
    st'.held == waiting && st'.terminal == st.terminal &&
    st'.out == (if st.sentAny then st.out else st.out.(committedBy := st.lastType)) &&
    if st.fatal then
      o.Return? && o.emit == TrimEol(st.preamble + bytes) + "\n\n" && o.err == Some(EndedBy(rerr))
    else if env.apiKey && st.terminal then o.Return? && o.emit == st.preamble + bytes + "\n" && o.err == Some(EOF)
    else if bytes != [] || rerr.Some? then o.Return? && o.emit == st.preamble + bytes && o.err == rerr
    else o.Again?
  }

  lemma SettleGives(env: Env, st: State, share: Bytes, rerr: Option<ReadError>)
    requires !st.shedding && if st.sentAny then st.preamble == [] else share != [] && !Blank(share)
    ensures var last := rerr.Some?; var o := Settle(env, st, share, rerr);
      Gives(env, st, if share != [] || last then st.held + share else [], if share != [] || last then [] else st.held,
            rerr, o) && (o.Return? ==> o.terminal == st.terminal)
  {
    hide TrimEol, Blank;
    assert st.held + [] == st.held && [] + (st.held + share) == st.held + share;
    assert st.preamble == [] ==> st.preamble + st.held == st.held;
  }

  // What classification makes of the latches and the reports, by the marks of the line.
  ghost predicate Latched(env: Env, k: nat, line: Bytes, st: State, st': State) {
    st'.sentAny == st.sentAny && st'.preamble == st.preamble && !st'.shedding && st'.read == st.read &&
    st'.fatal == Bears(env, k, line, Deadly) && st'.terminal == (st.terminal || Bears(env, k, line, Finishing)) &&
    st'.out == st.out.(
      demotedShed := st.out.demotedShed || Bears(env, k, line, Refusing),
      demotedCapacity := st.out.demotedCapacity || Bears(env, k, line, Demoted),
      fatalCode := if Bears(env, k, line, Deadly) && !st.sentAny then env.code(PayloadOf(env, k, line))
                   else st.out.fatalCode)
  }

  // The declared type that stands for the line in the reports.
  function TypeOf(env: Env, k: nat, st: State, line: Bytes): EventType {
    if IsJson(line) && !IsEvent(line) then env.ptype(PayloadOf(env, k, line)) else st.lastType
  }

  lemma ClassifySpeaks(env: Env, k: nat, line: Bytes, st: State)
    requires IsJson(line) && !IsEvent(line) && !st.shedding && !st.fatal
    requires var payload := Repaired(env, k, line).1;
      st.lastType == env.ptype(payload) && (!st.sentAny ==> env.classify(payload) != Retryable)
    ensures var (fixed, payload) := Repaired(env, k, line);
      var (st', line') := Classify(env, st, fixed, payload);
      Latched(env, k, line, st, st') && line' == Forwarded(env, k, line) &&
      st'.held == st.held && st'.lastType == st.lastType
  {
    hide IsJson, IsEvent, Eol, RawPayload;
  }

  lemma FixedIsForwarded(env: Env, k: nat, line: Bytes)
    requires IsJson(line)
    ensures var (fixed, payload) := Repaired(env, k, line);
      payload == PayloadOf(env, k, line) && (env.classify(payload) != Retryable ==> fixed == Forwarded(env, k, line))
  {
    hide IsJson;
  }

  lemma PolishGives(env: Env, st: State, k: nat, line: Bytes)
    requires IsJson(line) && !IsEvent(line) && st.lastType == env.ptype(PayloadOf(env, k, line))
    ensures var part := PartOf(env, k, st.held, line);
      Polish(env, st, Forwarded(env, k, line)) == (st.(held := part.open), part.share) &&
      part.share == S.Polished(env, st.lastType, Forwarded(env, k, line))
  {
    JsonIsNotEmpty(line);
    hide IsJson, IsEvent, Forwarded, TrimSpace, PayloadOf;
  }

  lemma JsonIsNotEmpty(line: Bytes)
    requires IsJson(line)
    ensures line != []
  {
    S.EventOrData(line);
  }

  lemma DataSpeaks(env: Env, st: State, k: nat, line: Bytes)
    requires IsJson(line) && !IsEvent(line) && Speaking(env, st.(read := k), line) && st.read == k + 1
    ensures match OnData(env, st, k, line)
            case Quit(_) => false
            case Buffered(_) => false
            case Through(st', share) =>
              var part := PartOf(env, k, st.held, line);
              share == part.share && st'.held == part.open && Latched(env, k, line, st, st') &&
              st'.lastType == TypeOf(env, k, st, line) &&
              (st'.sentAny || (share != [] && !Blank(share)))
  {
    var (fixed, payload) := Repaired(env, k, line);
    var st1 := st.(lastType := env.ptype(payload));
    S.ReadAlike(env, k, payload);
    JsonIsNotEmpty(line);
    ClassifySpeaks(env, k, line, st1);
    PolishGives(env, Classify(env, st1, fixed, payload).0, k, line);
    FixedIsForwarded(env, k, line);
    hide IsJson, IsEvent, Repaired, Classify, Blank, Forwarded, Bears, PreambleEvent, TransientError, Polish, PartOf;
    hide S.Polished, S.EndsAttempt, S.Withheld, PayloadOf;
  }

  // A round under way: what it releases, how it is left, and what it adds to the reports.
  ghost predicate Speaks(env: Env, st: State, line: Bytes, rerr: Option<ReadError>, o: Outcome) {
    var k, st' := st.read, o.st;
    var bytes := st.preamble + Released(env, k, st.held, line, rerr.Some?);
    (st.sentAny || !Blank(Released(env, k, st.held, line, rerr.Some?))) &&
    st'.sentAny && st'.preamble == [] && st'.held == Waiting(env, k, st.held, line, rerr.Some?) &&
    Latched(env, k, line, st, st'.(sentAny := st.sentAny, preamble := st.preamble, read := k,
                                   out := st'.out.(committedBy := st.out.committedBy))) &&
    st'.read == k + 1 &&
    st'.out.committedBy == (if st.sentAny then st.out.committedBy else TypeOf(env, k, st, line)) &&
    (o.Return? ==> o.terminal == st'.terminal) &&
    if Bears(env, k, line, Deadly) then
      o.Return? && o.emit == TrimEol(bytes) + "\n\n" && o.err == Some(EndedBy(rerr))
    else if EndsTurn(env, k, line) then o.Return? && o.emit == bytes + "\n" && o.err == Some(EOF)
    else if bytes != [] || rerr.Some? then o.Return? && o.emit == bytes && o.err == rerr
    else o.Again?
  }

  lemma PlainRound(env: Env, st: State, line: Bytes, rerr: Option<ReadError>)
    requires Speaking(env, st, line) && (rerr == Some(Stalled) ==> st.sentAny)
    requires line == [] || IsEvent(line) || !IsJson(line)
    ensures Speaks(env, st, line, rerr, Step(env, st, line, rerr))
  {
    S.JsonIsNoEvent(line);
    hide IsEvent, IsJson, Settle, Blank, TrimEol;
    var st1 := st.(read := st.read + 1);
    var st2 := if line != [] && IsEvent(line) then st1.(held := line) else st1;
    var share := if line != [] && IsEvent(line) then [] else line;
    SettleGives(env, st2, share, rerr);
    BlankBehind(st2.held, share);
    assert Step(env, st, line, rerr) == Settle(env, st2, share, rerr);
  }

  lemma BlankBehind(a: Bytes, b: Bytes)
    ensures !Blank(b) ==> b != [] && !Blank(a + b)
  {
    if !Blank(b) {
      var i :| 0 <= i < |b| && !IsSpace(b[i]);
      assert (a + b)[|a| + i] == b[i];
    }
  }

  lemma JsonRound(env: Env, st: State, line: Bytes, rerr: Option<ReadError>)
    requires Speaking(env, st, line) && (rerr == Some(Stalled) ==> st.sentAny) && IsJson(line)
    ensures Speaks(env, st, line, rerr, Step(env, st, line, rerr))
  {
    S.JsonIsNoEvent(line);
    hide IsEvent, IsJson, Settle, OnData, Blank, TrimEol, PartOf, S.Judge;
    var st1 := st.(read := st.read + 1);
    DataSpeaks(env, st1, st.read, line);
    match OnData(env, st1, st.read, line)
    case Quit(_) =>
    case Buffered(_) =>
    case Through(st2, share) =>
      SettleGives(env, st2, share, rerr);
      BlankBehind(st2.held, share);
      assert Step(env, st, line, rerr) == Settle(env, st2, share, rerr);
  }

  lemma RoundSpeaks(env: Env, st: State, line: Bytes, rerr: Option<ReadError>)
    requires Speaking(env, st, line) && (rerr == Some(Stalled) ==> st.sentAny)
    ensures Speaks(env, st, line, rerr, Step(env, st, line, rerr))
  {
    hide *;
    if line == [] || IsEvent(line) || !IsJson(line) {
      PlainRound(env, st, line, rerr);
    } else {
      JsonRound(env, st, line, rerr);
    }
  }

  // The state in which the round after it starts.
  function Next(o: Outcome): State {
    if o.Again? then o.st else o.st.(terminal := false)
  }

  lemma StaysSpeaking(env: Env, st: State, line: Bytes, o: Outcome, next: Bytes)
    requires Speaking(env, st, line) && Speaks(env, st, line, None, o) && !EndsTurn(env, st.read, line)
    ensures Speaking(env, Next(o), next) && Next(o).sentAny && Next(o).preamble == []
  {
  }

  // ---------------------------------------------------------------- the rest of a run

  predicate Reported(env: Env, st: State, lines: seq<Bytes>, run: Trace)
    requires lines != []
  {
    (run.sawTerminal <==> st.terminal || Reaches(env, st.read, lines, Finishing)) &&
    (run.st.out.demotedShed <==> st.out.demotedShed || Reaches(env, st.read, lines, Refusing)) &&
    (run.st.out.demotedCapacity <==> st.out.demotedCapacity || Reaches(env, st.read, lines, Demoted)) &&
    Named(env, st, lines[0], run.st.out)
  }

  // The line that starts the output is named, with its code if it is a fatal frame; nothing after it is.
  predicate Named(env: Env, st: State, first: Bytes, out: Report) {
    out.shed == st.out.shed && out.shedCode == st.out.shedCode &&
    out.committedBy == (if st.sentAny then st.out.committedBy else TypeOf(env, st.read, st, first)) &&
    out.fatalCode == if Bears(env, st.read, first, Deadly) && !st.sentAny then env.code(PayloadOf(env, st.read, first))
                     else st.out.fatalCode
  }

  // From the line on that starts it, in both modes and whatever errors upstream reports, the stream reaches
  // the client with each line's share in order, behind what was buffered before; and the run reports a
  // terminal event, a refusal and a demoted one exactly if it comes to such a line.
  lemma {:induction false} RestIsExact(env: Env, st: State, lines: seq<Bytes>, tail: Bytes, fin: ReadError)
    requires Speaking(env, st, (lines + [tail])[0]) && (fin.Stalled? && lines == [] ==> st.sentAny)
    ensures var run := Run(env, st, lines, tail, fin); var all := lines + [tail];
      run.written == st.preamble + Rest(env, st.read, st.held, all) && Reported(env, st, all, run)
    decreases |lines|
  {
    hide *;
    var all := lines + [tail];
    if lines == [] {
      LastRound(env, st, tail, fin);
      assert all == [tail];
    } else {
      var line := lines[0];
      assert all[0] == line && all[1..] == lines[1..] + [tail];
      RoundSpeaks(env, st, line, None);
      if EndsTurn(env, st.read, line) {
        TurnEnds(env, st, lines, tail, fin);
      } else {
        var o := Step(env, st, line, None);
        var st' := Next(o);
        StaysSpeaking(env, st, line, o, all[1..][0]);
        EmptyPreamble(Rest(env, st'.read, st'.held, all[1..]));
        RestIsExact(env, st', lines[1..], tail, fin);
        TurnGoesOn(env, st, lines, tail, fin);
      }
    }
  }

  // The round that reads the end of the stream with its last line.
  lemma LastRound(env: Env, st: State, tail: Bytes, fin: ReadError)
    requires Speaking(env, st, tail) && (fin.Stalled? ==> st.sentAny)
    ensures var run := Run(env, st, [], tail, fin);
      run.written == st.preamble + Rest(env, st.read, st.held, [tail]) && Reported(env, st, [tail], run)
  {
    RoundSpeaks(env, st, tail, Some(fin));
    PreambleGoesAhead(env, st, tail, Some(fin), Step(env, st, tail, Some(fin)));
    RunLast(env, st, tail, fin);
    RoundMarks(env, st, tail, Some(fin), Step(env, st, tail, Some(fin)));
    RestFirst(env, st.read, st.held, [tail]);
    ReachesFirst(env, st.read, [tail], Finishing);
    ReachesFirst(env, st.read, [tail], Refusing);
    ReachesFirst(env, st.read, [tail], Demoted);
    hide Run, Rest, Reaches, Step, Bears, Released, Waiting, Speaking, TrimEol, Blank, EndsTurn, Latched, Named;
  }

  lemma TurnEnds(env: Env, st: State, lines: seq<Bytes>, tail: Bytes, fin: ReadError)
    requires lines != [] && Speaking(env, st, lines[0]) && EndsTurn(env, st.read, lines[0])
    requires Speaks(env, st, lines[0], None, Step(env, st, lines[0], None))
    ensures var run := Run(env, st, lines, tail, fin); var all := lines + [tail];
      run.written == st.preamble + Rest(env, st.read, st.held, all) && Reported(env, st, all, run)
  {
    PreambleGoesAhead(env, st, lines[0], None, Step(env, st, lines[0], None));
    RoundMarks(env, st, lines[0], None, Step(env, st, lines[0], None));
    RunFirst(env, st, lines, tail, fin);
    RestFirst(env, st.read, st.held, lines + [tail]);
    ReachesFirst(env, st.read, lines + [tail], Finishing);
    ReachesFirst(env, st.read, lines + [tail], Refusing);
    ReachesFirst(env, st.read, lines + [tail], Demoted);
    hide Run, Rest, Reaches, Step, Bears, Released, Waiting, Speaking, TrimEol, Blank, EndsTurn, Latched, Named;
  }

  lemma TurnGoesOn(env: Env, st: State, lines: seq<Bytes>, tail: Bytes, fin: ReadError)
    requires lines != [] && Speaking(env, st, lines[0]) && !EndsTurn(env, st.read, lines[0])
    requires Speaks(env, st, lines[0], None, Step(env, st, lines[0], None))
    requires var st' := Next(Step(env, st, lines[0], None)); var rest := (lines + [tail])[1..];
      var run := Run(env, st', lines[1..], tail, fin);
      run.written == Rest(env, st'.read, st'.held, rest) && Reported(env, st', rest, run)
    ensures var run := Run(env, st, lines, tail, fin); var all := lines + [tail];
      run.written == st.preamble + Rest(env, st.read, st.held, all) && Reported(env, st, all, run)
  {
    hide *;
    BytesGoOn(env, st, lines, tail, fin);
    ReportsGoOn(env, st, lines, tail, fin);
  }

  lemma BytesGoOn(env: Env, st: State, lines: seq<Bytes>, tail: Bytes, fin: ReadError)
    requires lines != [] && Speaking(env, st, lines[0]) && !EndsTurn(env, st.read, lines[0])
    requires Speaks(env, st, lines[0], None, Step(env, st, lines[0], None))
    requires var st' := Next(Step(env, st, lines[0], None));
      Run(env, st', lines[1..], tail, fin).written == Rest(env, st'.read, st'.held, (lines + [tail])[1..])
    ensures Run(env, st, lines, tail, fin).written == st.preamble + Rest(env, st.read, st.held, lines + [tail])
  {
    hide *;
    var all, o := lines + [tail], Step(env, st, lines[0], None);
    DeadlyEnds(env, st.read, lines[0]);
    RunFirst(env, st, lines, tail, fin);
    RoundBytes(env, st, lines[0], o);
    RestFirst(env, st.read, st.held, all);
    var bytes, rest := Released(env, st.read, st.held, lines[0], false), Rest(env, o.st.read, o.st.held, all[1..]);
    Assoc(st.preamble, bytes, rest);
    EmptyPreamble(rest);
  }

  lemma ReportsGoOn(env: Env, st: State, lines: seq<Bytes>, tail: Bytes, fin: ReadError)
    requires lines != [] && Speaking(env, st, lines[0]) && !EndsTurn(env, st.read, lines[0])
    requires Speaks(env, st, lines[0], None, Step(env, st, lines[0], None))
    requires var st' := Next(Step(env, st, lines[0], None));
      Reported(env, st', (lines + [tail])[1..], Run(env, st', lines[1..], tail, fin))
    ensures Reported(env, st, lines + [tail], Run(env, st, lines, tail, fin))
  {
    hide Run, Rest, Reaches, Step, Bears, Speaking, EndsTurn, Speaks, TypeOf, PayloadOf;
    var all, o := lines + [tail], Step(env, st, lines[0], None);
    RunFirst(env, st, lines, tail, fin);
    RoundBytes(env, st, lines[0], o);
    RoundMarks(env, st, lines[0], None, o);
    ReachesFirst(env, st.read, all, Finishing);
    ReachesFirst(env, st.read, all, Refusing);
    ReachesFirst(env, st.read, all, Demoted);
  }

  // The bytes of a round that goes on, and the reports.
  lemma RoundBytes(env: Env, st: State, line: Bytes, o: Outcome)
    requires Speaking(env, st, line) && Speaks(env, st, line, None, o) && !EndsTurn(env, st.read, line)
    ensures var bytes := st.preamble + Released(env, st.read, st.held, line, false);
      o.st.held == Waiting(env, st.read, st.held, line, false) && o.st.read == st.read + 1 &&
      Next(o).held == o.st.held && Next(o).read == o.st.read &&
      if o.Again? then bytes == [] else o.emit == bytes && o.err.None?
  {
  }

  lemma RoundMarks(env: Env, st: State, line: Bytes, rerr: Option<ReadError>, o: Outcome)
    requires Speaks(env, st, line, rerr, o)
    ensures (o.st.terminal <==> st.terminal || Bears(env, st.read, line, Finishing)) &&
      (o.st.out.demotedShed <==> st.out.demotedShed || Bears(env, st.read, line, Refusing)) &&
      (o.st.out.demotedCapacity <==> st.out.demotedCapacity || Bears(env, st.read, line, Demoted)) &&
      Named(env, st, line, o.st.out) && o.st.sentAny &&
      (o.Return? ==> o.terminal == o.st.terminal)
  {
  }

  lemma RunFirst(env: Env, st: State, lines: seq<Bytes>, tail: Bytes, fin: ReadError)
    requires lines != []
    ensures var o := Step(env, st, lines[0], None);
      Run(env, st, lines, tail, fin) ==
      if o.Again? then Run(env, Next(o), lines[1..], tail, fin)
      else if o.err.Some? then Stop(o.st, o.emit, o.terminal)
      else Prepend(o.emit, o.terminal, Run(env, Next(o), lines[1..], tail, fin))
    ensures var o, run := Step(env, st, lines[0], None), Run(env, st, lines, tail, fin);
      o.Return? && o.err.None? ==> run.written == o.emit + Run(env, Next(o), lines[1..], tail, fin).written
  {
    hide Step;
  }

  lemma RunLast(env: Env, st: State, tail: Bytes, fin: ReadError)
    requires Step(env, st, tail, Some(fin)).Return?
    ensures var o := Step(env, st, tail, Some(fin));
      Run(env, st, [], tail, fin) == Stop(o.st, o.emit, o.terminal)
  {
    hide Step;
  }

  lemma RestFirst(env: Env, k: nat, open: Bytes, lines: seq<Bytes>)
    requires lines != []
    ensures var line, last := lines[0], |lines| == 1; var bytes := Released(env, k, open, line, last);
      Rest(env, k, open, lines) ==
      if Bears(env, k, line, Deadly) then TrimEol(bytes) + "\n\n"
      else if EndsTurn(env, k, line) then bytes + "\n"
      else if last then bytes
      else bytes + Rest(env, k + 1, Waiting(env, k, open, line, last), lines[1..])
  {
    hide Released, Waiting, Bears, EndsTurn, TrimEol;
  }

  lemma ReachesFirst(env: Env, k: nat, lines: seq<Bytes>, mark: Mark)
    requires lines != []
    ensures Reaches(env, k, lines, mark) <==>
      Bears(env, k, lines[0], mark) || (!EndsTurn(env, k, lines[0]) && Reaches(env, k + 1, lines[1..], mark))
  {
    hide Bears, EndsTurn;
  }

  // A fatal frame is trimmed behind the preamble.
  lemma PreambleGoesAhead(env: Env, st: State, line: Bytes, rerr: Option<ReadError>, o: Outcome)
    requires Speaking(env, st, line) && Speaks(env, st, line, rerr, o)
    ensures var bytes := Released(env, st.read, st.held, line, rerr.Some?);
      TrimEol(st.preamble + bytes) + "\n\n" == st.preamble + (TrimEol(bytes) + "\n\n") &&
      st.preamble + bytes + "\n" == st.preamble + (bytes + "\n")
  {
    TrimsBehind(st.preamble, Released(env, st.read, st.held, line, rerr.Some?));
  }

  lemma EmptyPreamble(bytes: Bytes)
    ensures [] + bytes == bytes
  {
  }

  lemma {:induction false} TrimsBehind(a: Bytes, b: Bytes)
    ensures a == [] || !Blank(b) ==> TrimEol(a + b) == a + TrimEol(b)
  {
    if a == [] {
      assert a + b == b && a + TrimEol(b) == TrimEol(b);
    } else if !Blank(b) && (b[|b| - 1] == '\n' || b[|b| - 1] == '\r') {
      assert (a + b)[..|a + b| - 1] == a + b[..|b| - 1];
      TrimsBehind(a, b[..|b| - 1]);
    }
  }

  lemma SpeakingMeans(env: Env, st: State, line: Bytes)
    requires Speaking(env, st, line)
    ensures st.sentAny ==> st.preamble == []
  {
  }

  lemma DeadlyEnds(env: Env, k: nat, line: Bytes)
    ensures Bears(env, k, line, Deadly) ==> EndsTurn(env, k, line)
  {
  }

  // ---------------------------------------------------------------- the states a run speaks from

  // A stream that has been released is neither withheld nor over while the run goes on.
  predicate Open(env: Env, st: State) {
    st.sentAny ==> st.preamble == [] && !st.shedding && !st.fatal && (env.apiKey ==> !st.terminal)
  }

  predicate GoesOn(o: Outcome) {
    o.Again? || o.err.None?
  }

  lemma SettleKeepsOpen(env: Env, st: State, line: Bytes, rerr: Option<ReadError>)
    requires st.sentAny ==> st.preamble == [] && !st.shedding
    ensures var o := Settle(env, st, line, rerr); GoesOn(o) ==> Open(env, Next(o))
  {
    hide TrimEol, Blank;
  }

  lemma RoundKeepsOpen(env: Env, st: State, line: Bytes)
    requires Open(env, st)
    ensures var o := Step(env, st, line, None); GoesOn(o) ==> Open(env, Next(o))
  {
    hide IsEvent, IsJson, OnData, Settle, GoesOn;
    var st1 := st.(read := st.read + 1);
    if line == [] || IsEvent(line) {
      SettleKeepsOpen(env, if line == [] || st1.shedding then st1 else st1.(held := line), [], None);
    } else if IsJson(line) {
      DataKeepsOpen(env, st1, st.read, line);
      match OnData(env, st1, st.read, line)
      case Quit(_) => QuitEnds(env, st, line);
      case Buffered(_) =>
      case Through(st', line') => SettleKeepsOpen(env, st', line', None);
    } else {
      SettleKeepsOpen(env, st1, line, None);
    }
  }

  lemma QuitEnds(env: Env, st: State, line: Bytes)
    requires line != [] && !IsEvent(line) && IsJson(line) && OnData(env, st.(read := st.read + 1), st.read, line).Quit?
    ensures !GoesOn(Step(env, st, line, None))
  {
    hide IsEvent, IsJson, OnData;
  }

  lemma DataKeepsOpen(env: Env, st: State, k: nat, line: Bytes)
    requires IsJson(line) && (st.sentAny ==> st.preamble == [] && !st.shedding)
    ensures match OnData(env, st, k, line)
            case Quit(_) => true
            case Buffered(st') => !st'.sentAny
            case Through(st', _) => st'.sentAny ==> st'.preamble == [] && !st'.shedding
  {
    hide IsJson, Repaired, TransientError, TerminalEvent, PreambleEvent, DataLine, FailureInput, Eol;
  }

  // The state and the bytes of a run that has come through some lines.
  function Fed(env: Env, st: State, lines: seq<Bytes>): (State, Bytes)
    decreases |lines|
  {
    if lines == [] then (st, [])
    else
      var o := Step(env, st, lines[0], None);
      var (st', w) := Fed(env, Next(o), lines[1..]);
      (st', (if o.Again? then [] else o.emit) + w)
  }

  predicate ComesThrough(env: Env, st: State, lines: seq<Bytes>)
    decreases |lines|
  {
    lines == [] ||
    (var o := Step(env, st, lines[0], None); GoesOn(o) && ComesThrough(env, Next(o), lines[1..]))
  }

  lemma {:induction false} FedIsOpen(
    env: Env, st: State, lines: seq<Bytes>, more: seq<Bytes>, tail: Bytes, fin: ReadError)
    requires Open(env, st) && ComesThrough(env, st, lines)
    ensures var (st', w) := Fed(env, st, lines);
      Open(env, st') && Run(env, st, lines + more, tail, fin).written == w + Run(env, st', more, tail, fin).written
    decreases |lines|
  {
    hide Step, Open;
    if lines == [] {
      assert lines + more == more;
      EmptyPreamble(Run(env, st, more, tail, fin).written);
    } else {
      var all, o := lines + more, Step(env, st, lines[0], None);
      assert all[1..] == lines[1..] + more;
      RoundKeepsOpen(env, st, lines[0]);
      RunFirst(env, st, all, tail, fin);
      FedIsOpen(env, Next(o), lines[1..], more, tail, fin);
      var (st', w) := Fed(env, Next(o), lines[1..]);
      var rest := Run(env, st', more, tail, fin).written;
      EmptyPreamble(w);
      EmptyPreamble(rest);
      if o.Return? {
        Assoc(o.emit, w, rest);
      }
    }
  }

  // Wherever a run stands that has released a byte and goes on, the lines to come add their shares to what it
  // has written, and nothing else.
  lemma OnceReleased(env: Env, lines: seq<Bytes>, more: seq<Bytes>, tail: Bytes, fin: ReadError)
    requires ComesThrough(env, INIT, lines) && Fed(env, INIT, lines).0.sentAny
    ensures var (st, w) := Fed(env, INIT, lines);
      Run(env, INIT, lines + more, tail, fin).written == w + Rest(env, st.read, st.held, more + [tail])
  {
    FedIsOpen(env, INIT, lines, more, tail, fin);
    var st := Fed(env, INIT, lines).0;
    OpenSpeaks(env, st, (more + [tail])[0]);
    RestIsExact(env, st, more, tail, fin);
    EmptyPreamble(Rest(env, st.read, st.held, more + [tail]));
  }

  lemma OpenSpeaks(env: Env, st: State, line: Bytes)
    requires Open(env, st) && st.sentAny
    ensures Speaking(env, st, line) && st.preamble == []
  {
  }
}
