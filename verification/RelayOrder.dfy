/** What the relay does to a stream without error frames: it delays bytes, and it may lose or swap an
    event line that its event does not follow. Both directions are exact. */
module RelayOrder {
  import opened Bytes
  import opened Relay
  import S = RelaySilence

  // ---------------------------------------------------------------- what the client is owed

  // A line that reports no error of any kind.
  predicate Clean(env: Env, k: nat, line: Bytes) {
    IsJson(line) ==>
      var payload := Repaired(env, k, line).1;
      env.classify(payload) == Unclassified && !TransientError(env, payload) && !env.ptype(payload).ErrorEvent?
  }

  // The scrubber rewrites a data line or drops it.
  ghost predicate ScrubsToData(env: Env) {
    forall l | IsData(l) && env.scrub(l).Some? :: IsData(env.scrub(l).value)
  }

  // The client's share of the lines so far, in order: `open` is an event line whose data has not come.
  // An event line goes with its data line if the scrubber drops that.
  datatype Owed = Owed(closed: Bytes, open: Bytes)

  function Total(o: Owed): Bytes {
    o.closed + o.open
  }

  function Owe(env: Env, k: nat, o: Owed, line: Bytes): Owed {
    if line == [] then o
    else if IsEvent(line) then Owed(o.closed + o.open, line)
    else if IsJson(line) then
      match env.scrub(Repaired(env, k, line).0)
      case None => Owed(o.closed, [])
      case Some(scrubbed) => Owed(o.closed + o.open + scrubbed, [])
    else Owed(o.closed + o.open + line, [])
  }

  function OweAll(env: Env, k: nat, o: Owed, lines: seq<Bytes>): Owed
    decreases |lines|
  {
    if lines == [] then o else OweAll(env, k + 1, Owe(env, k, o, lines[0]), lines[1..])
  }

  // ---------------------------------------------------------------- which event lines are orphaned

  predicate IsBlankLine(line: Bytes) {
    line != [] && !IsEvent(line) && !IsJson(line) && Blank(line)
  }

  // The first bytes go out with this line, if none went before.
  predicate Opens(env: Env, k: nat, line: Bytes) {
    line != [] && !IsEvent(line) &&
    if IsJson(line) then
      var (fixed, payload) := Repaired(env, k, line);
      !S.Withheld(env, k, payload) && env.scrub(fixed).Some?
    else !Blank(line)
  }

  // An event line is orphaned by another event line, and before any output also by a blank line.
  predicate Orphans(sent: bool, open: Bytes, line: Bytes) {
    open != [] && (IsEvent(line) || (!sent && IsBlankLine(line)))
  }

  predicate OrphanSeen(env: Env, k: nat, sent: bool, open: Bytes, lines: seq<Bytes>)
    decreases |lines|
  {
    lines != [] &&
    (Orphans(sent, open, lines[0]) ||
     OrphanSeen(env, k + 1, sent || Opens(env, k, lines[0]), Owe(env, k, Owed([], open), lines[0]).open, lines[1..]))
  }

  // ---------------------------------------------------------------- the invariant

  // Nothing lost, nothing moved: written, then the preamble, then the held line.
  ghost predicate Faithful(st: State, written: Bytes, o: Owed) {
    written + st.preamble == o.closed && st.held == o.open
  }

  // Lost for good: shorter than what is owed, or different at a place that is already fixed.
  ghost predicate Astray(st: State, written: Bytes, o: Owed) {
    var kept := written + st.preamble;
    |kept| + |st.held| <= |Total(o)| && (st.held == o.open || o.open == []) &&
    (|kept| + |st.held| < |Total(o)| || Differs(kept, o.closed))
  }

  ghost predicate Differs(a: Bytes, b: Bytes) {
    exists i :: 0 <= i < |a| && i < |b| && a[i] != b[i]
  }

  // The latches of a run without errors, and the lines a client has or has not seen.
  ghost predicate Calm(st: State, written: Bytes, o: Owed) {
    !st.shedding && !st.fatal &&
    (st.sentAny ==> st.preamble == [] && st.held == o.open) && (!st.sentAny ==> written == []) &&
    (o.open != [] ==> o.open[0] == 'e')
  }

  // ---------------------------------------------------------------- one round, as a transition

  // The state and the emission of a round on a clean line, whichever way it is left.
  function After(o: Outcome): State {
    if o.Again? then o.st else o.st.(terminal := false)
  }

  function Emission(o: Outcome): Bytes {
    if o.Again? then [] else o.emit
  }

  // The closure's answer to one clean line of the stream, in one formula.
  ghost predicate CleanMove(env: Env, st: State, line: Bytes, st': State, emit: Bytes) {
    !st'.shedding && !st'.fatal && st'.read == st.read + 1 &&
    st'.sentAny == (st.sentAny || Opens(env, st.read, line)) &&
    if line == [] then
      emit == [] && st'.held == st.held && st'.preamble == st.preamble
    else if IsEvent(line) then
      emit == [] && st'.held == line && st'.preamble == st.preamble
    else if IsJson(line) && env.scrub(Repaired(env, st.read, line).0).None? then
      emit == [] && st'.held == [] && st'.preamble == st.preamble
    else
      var share := if IsJson(line) then env.scrub(Repaired(env, st.read, line).0).value else line;
      if st.sentAny || Opens(env, st.read, line) then
        emit == st.preamble + (st.held + share) && st'.held == [] && st'.preamble == []
      else if IsJson(line) then
        emit == [] && st'.held == [] && st'.preamble == st.preamble + st.held + share
      else
        emit == [] && st'.held == st.held && st'.preamble == st.preamble + line
  }

  lemma {:induction false} TrimEolKeeps(s: Bytes, n: nat)
    requires n < |s| && s[n] != '\n' && s[n] != '\r'
    ensures |TrimEol(s)| > n
    decreases |s|
  {
    if s[|s| - 1] == '\n' || s[|s| - 1] == '\r' {
      TrimEolKeeps(s[..|s| - 1], n);
    }
  }

  lemma RepairedIsData(env: Env, k: nat, line: Bytes)
    requires IsJson(line)
    ensures IsData(Repaired(env, k, line).0)
  {
    var fixed := Repaired(env, k, line).0;
    if fixed != line {
      assert "data: " <= fixed;
      assert fixed[5] == ' ';
      TrimEolKeeps(fixed, 5);
    }
  }

  lemma DataIsNotBlank(line: Bytes)
    requires IsData(line)
    ensures line != [] && !Blank(line)
  {
    S.EventOrData(line);
    assert !IsSpace(line[0]);
  }

  lemma CleanLatches(env: Env, st: State, line: Bytes, payload: Bytes)
    requires env.classify(payload) == Unclassified
    ensures exists t :: Classify(env, st, line, payload) == (st.(terminal := t), line)
  {
    hide TerminalEvent, DataLine, Eol;
    var t := Classify(env, st, line, payload).0.terminal;
    assert Classify(env, st, line, payload) == (st.(terminal := t), line);
  }

  lemma CleanData(env: Env, st: State, k: nat, line: Bytes)
    requires !env.apiKey && ScrubsToData(env) && IsJson(line) && Clean(env, k, line)
    requires !st.shedding && !st.fatal
    ensures var (fixed, payload) := Repaired(env, k, line);
            var scrubbed := env.scrub(fixed);
            match OnData(env, st, k, line)
            case Quit(_) => false
            case Buffered(st') =>
              !st.sentAny && S.Withheld(env, k, payload) &&
              st' == st.(held := [], terminal := st'.terminal, lastType := st'.lastType,
                         preamble := if scrubbed.Some? then st.preamble + st.held + scrubbed.value else st.preamble)
            case Through(st', line') =>
              (st.sentAny || !S.Withheld(env, k, payload)) &&
              line' == (if scrubbed.Some? then scrubbed.value else []) &&
              st' == st.(held := if scrubbed.Some? then st.held else [], terminal := st'.terminal,
                  lastType := st'.lastType)
  {
    S.ReadAlike(env, k, Repaired(env, k, line).1);
    hide IsJson, Repaired, Classify, TransientError, PreambleEvent, FailureInput, DataLine, S.Withheld;
    var (fixed, payload) := Repaired(env, k, line);
    CleanLatches(env, st.(lastType := env.ptype(payload)), fixed, payload);
  }

  // What the end of a round makes of the line it is given.
  ghost predicate Settled(st: State, line: Bytes, o: Outcome) {
    var st' := After(o);
    !st'.shedding && !st'.fatal && st'.read == st.read && (o.Return? ==> o.err.None?) &&
    if line == [] then
      Emission(o) == [] && st'.sentAny == st.sentAny && st'.held == st.held && st'.preamble == st.preamble
    else if !st.sentAny && Blank(line) then
      Emission(o) == [] && !st'.sentAny && st'.held == st.held && st'.preamble == st.preamble + line
    else
      Emission(o) == st.preamble + (st.held + line) && st'.sentAny && st'.held == [] && st'.preamble == []
  }

  lemma CleanSettle(env: Env, st: State, line: Bytes)
    requires !env.apiKey && !st.shedding && !st.fatal
    ensures Settled(st, line, Settle(env, st, line, None))
  {
    hide TrimEol, Blank;
  }

  // A kept data line neither is empty nor looks like an event terminator.
  lemma ScrubbedIsData(env: Env, k: nat, line: Bytes)
    requires ScrubsToData(env) && IsJson(line)
    ensures var s := env.scrub(Repaired(env, k, line).0); s.Some? ==> s.value != [] && !Blank(s.value)
  {
    RepairedIsData(env, k, line);
    var scrubbed := env.scrub(Repaired(env, k, line).0);
    if scrubbed.Some? {
      DataIsNotBlank(scrubbed.value);
    }
  }

  lemma CleanJson(env: Env, st: State, line: Bytes)
    requires !env.apiKey && ScrubsToData(env) && IsJson(line) && Clean(env, st.read, line)
    requires !st.shedding && !st.fatal
    ensures var o := Step(env, st, line, None);
            CleanMove(env, st, line, After(o), Emission(o)) && (o.Return? ==> o.err.None?)
  {
    S.JsonIsNoEvent(line);
    ScrubbedIsData(env, st.read, line);
    hide IsEvent, IsJson, IsData, Blank, Repaired, Settle, OnData, S.Withheld, ScrubsToData, Clean;
    var st1 := st.(read := st.read + 1);
    CleanData(env, st1, st.read, line);
    match OnData(env, st1, st.read, line)
    case Quit(_) =>
    case Buffered(_) =>
    case Through(st', line') =>
      CleanSettle(env, st', line');
      assert Step(env, st, line, None) == Settle(env, st', line', None);
  }

  lemma CleanRound(env: Env, st: State, line: Bytes)
    requires !env.apiKey && ScrubsToData(env) && Clean(env, st.read, line)
    requires !st.shedding && !st.fatal
    ensures var o := Step(env, st, line, None);
            CleanMove(env, st, line, After(o), Emission(o)) && (o.Return? ==> o.err.None?)
  {
    hide IsEvent, IsJson, Blank, Settle, OnData;
    var st1 := st.(read := st.read + 1);
    if line == [] || IsEvent(line) {
      CleanSettle(env, if line == [] then st1 else st1.(held := line), []);
    } else if IsJson(line) {
      CleanJson(env, st, line);
    } else {
      CleanSettle(env, st1, line);
    }
  }

  // ---------------------------------------------------------------- the invariant over one round

  // What a round adds to the written and buffered bytes, and to the closed part of what is owed.
  ghost predicate Adds(st: State, w: Bytes, st': State, w': Bytes, x: Bytes) {
    w' + st'.preamble == (w + st.preamble) + x
  }

  lemma KeptGrows(env: Env, st: State, w: Bytes, line: Bytes, st': State, emit: Bytes)
    requires CleanMove(env, st, line, st', emit)
    ensures var k := st.read;
            if line == [] || IsEvent(line) || (IsJson(line) && env.scrub(Repaired(env, k, line).0).None?) then
              Adds(st, w, st', w + emit, [])
            else if IsJson(line) then
              Adds(st, w, st', w + emit, st.held + env.scrub(Repaired(env, k, line).0).value)
            else if st.sentAny || Opens(env, k, line) then Adds(st, w, st', w + emit, st.held + line)
            else Adds(st, w, st', w + emit, line)
  {
    hide IsEvent, IsJson, Blank, Repaired, S.Withheld, Opens;
  }

  lemma DiffersGrows(a: Bytes, b: Bytes, x: Bytes, y: Bytes)
    requires Differs(a, b)
    ensures Differs(a + x, b + y)
  {
    var i :| 0 <= i < |a| && i < |b| && a[i] != b[i];
    assert (a + x)[i] != (b + y)[i];
  }

  lemma BlankLineStarts(line: Bytes)
    requires IsBlankLine(line)
    ensures line[0] != 'e'
  {
    assert IsSpace(line[0]);
  }

  lemma MoveIsCalm(env: Env, st: State, w: Bytes, o: Owed, line: Bytes, st': State, emit: Bytes)
    requires CleanMove(env, st, line, st', emit) && Calm(st, w, o)
    ensures Calm(st', w + emit, Owe(env, st.read, o, line))
  {
    S.EventOrData(line);
    hide IsEvent, IsJson, Blank, Repaired, S.Withheld;
  }

  // The round carries the invariant on, unless it orphans an event line; and nothing repairs that.
  lemma MoveIsFaithfulExactly(env: Env, st: State, w: Bytes, o: Owed, line: Bytes, st': State, emit: Bytes)
    requires CleanMove(env, st, line, st', emit) && Calm(st, w, o) && Faithful(st, w, o)
    ensures var o' := Owe(env, st.read, o, line);
            if Orphans(st.sentAny, o.open, line) then Astray(st', w + emit, o')
            else Faithful(st', w + emit, o')
  {
    KeptGrows(env, st, w, line, st', emit);
    if IsBlankLine(line) {
      BlankLineStarts(line);
    }
    hide IsEvent, IsJson, Blank, Repaired, S.Withheld;
    var kept, kept' := w + st.preamble, (w + emit) + st'.preamble;
    if line == [] || (IsJson(line) && env.scrub(Repaired(env, st.read, line).0).None?) {
      assert kept' == kept;
    } else if IsEvent(line) {
      assert kept' == kept;
      assert o.open == [] ==> o.closed + o.open == o.closed;
    } else if IsJson(line) {
      Assoc(kept, st.held, env.scrub(Repaired(env, st.read, line).0).value);
    } else if st.sentAny || Opens(env, st.read, line) {
      Assoc(kept, st.held, line);
    } else if o.open == [] {
      assert o.closed + o.open == kept;
    } else {
      assert kept'[|kept|] == line[0] && (o.closed + o.open + line)[|kept|] == o.open[0];
    }
  }

  lemma MoveStaysAstray(env: Env, st: State, w: Bytes, o: Owed, line: Bytes, st': State, emit: Bytes)
    requires CleanMove(env, st, line, st', emit) && Astray(st, w, o)
    ensures Astray(st', w + emit, Owe(env, st.read, o, line))
  {
    KeptGrows(env, st, w, line, st', emit);
    hide IsEvent, IsJson, Blank, Repaired, S.Withheld;
    var kept, o' := w + st.preamble, Owe(env, st.read, o, line);
    if Differs(kept, o.closed) {
      GrowthStaysDifferent(kept, (w + emit) + st'.preamble, o.closed, o'.closed);
    }
  }

  lemma GrowthStaysDifferent(a: Bytes, a': Bytes, b: Bytes, b': Bytes)
    requires Differs(a, b) && a <= a' && b <= b'
    ensures Differs(a', b')
  {
    DiffersGrows(a, b, a'[|a|..], b'[|b|..]);
    assert a + a'[|a|..] == a' && b + b'[|b|..] == b';
  }

  // ---------------------------------------------------------------- the end of the stream

  // The error that comes with the last piece releases a held event line to a client mid-stream.
  lemma SettleAtEnd(env: Env, st: State, line: Bytes, fin: ReadError)
    requires !env.apiKey && !st.shedding && !st.fatal && (st.sentAny ==> st.preamble == [])
    ensures var o, e := Settle(env, st, line, None), Settle(env, st, line, Some(fin));
            if e.Again? then e == o && !e.st.sentAny
            else e.emit == Emission(o) + (if After(o).sentAny then After(o).held else [])
  {
    hide TrimEol, Blank;
    assert line != [] ==> (st.preamble + (st.held + line)) + [] == st.preamble + (st.held + line);
  }

  // The last round, read with the error, against the same round read without it.
  ghost predicate EndsLike(o: Outcome, e: Outcome) {
    if e.Again? then e == o && !e.st.sentAny && !e.st.shedding && !e.st.fatal
    else e.emit == Emission(o) + (if After(o).sentAny then After(o).held else [])
  }

  lemma JsonAtEnd(env: Env, st: State, k: nat, line: Bytes, fin: ReadError)
    requires !env.apiKey && ScrubsToData(env) && IsJson(line) && Clean(env, k, line)
    requires !st.shedding && !st.fatal && (st.sentAny ==> st.preamble == [])
    ensures EndsLike(OnLine(env, st, k, line, None), OnLine(env, st, k, line, Some(fin)))
  {
    S.JsonIsNoEvent(line);
    hide IsEvent, IsJson, Blank, Settle, OnData, ScrubsToData, Clean, Repaired, S.Withheld;
    CleanData(env, st, k, line);
    match OnData(env, st, k, line)
    case Quit(_) =>
    case Buffered(_) =>
    case Through(st', line') =>
      SettleAtEnd(env, st', line', fin);
      CleanSettle(env, st', line');
  }

  lemma RoundAtEnd(env: Env, st: State, line: Bytes, fin: ReadError)
    requires !env.apiKey && ScrubsToData(env) && Clean(env, st.read, line)
    requires !st.shedding && !st.fatal && (st.sentAny ==> st.preamble == []) && (fin.Stalled? ==> st.sentAny)
    ensures EndsLike(Step(env, st, line, None), Step(env, st, line, Some(fin)))
  {
    hide IsEvent, IsJson, Blank, Settle, OnData, ScrubsToData, Clean;
    var st1 := st.(read := st.read + 1);
    if line == [] || IsEvent(line) {
      SettleAtEnd(env, if line == [] then st1 else st1.(held := line), [], fin);
      CleanSettle(env, if line == [] then st1 else st1.(held := line), []);
    } else if IsJson(line) {
      hide OnLine;
      JsonAtEnd(env, st1, st.read, line, fin);
    } else {
      SettleAtEnd(env, st1, line, fin);
      CleanSettle(env, st1, line);
    }
  }

  lemma TailWrites(env: Env, st: State, tail: Bytes, fin: ReadError)
    requires !env.apiKey && ScrubsToData(env) && Clean(env, st.read, tail)
    requires !st.shedding && !st.fatal && (st.sentAny ==> st.preamble == [])
    ensures var o := Step(env, st, tail, None);
            RunTail(env, st, tail, fin).written ==
              if fin.Stalled? && !st.sentAny then []
              else Emission(o) + (if After(o).sentAny then After(o).held else [])
  {
    hide Step, IsEvent, IsJson, Blank, Repaired;
    if fin.Stalled? && !st.sentAny {
      S.SilentExactly(env, st, [], tail, fin);
      assert Run(env, st, [], tail, fin) == RunTail(env, st, tail, fin);
    } else {
      RoundAtEnd(env, st, tail, fin);
      var e := Step(env, st, tail, Some(fin));
      if e.Again? {
        S.SilentExactly(env, e.st, [], [], fin);
        EmptyReadReturns(env, e.st, fin);
      }
    }
  }

  // ---------------------------------------------------------------- whole runs

  ghost predicate AllClean(env: Env, k: nat, lines: seq<Bytes>) {
    forall i | 0 <= i < |lines| :: Clean(env, k + i, lines[i])
  }

  // What a run that has written w adds up to, against what the lines still to come add to the debt.
  ghost predicate EndsRight(w: Bytes, o: Owed, orphaned: bool) {
    w != [] ==> (w == Total(o) <==> !orphaned)
  }

  lemma {:induction false} OrderFrom(
    env: Env, st: State, w: Bytes, o: Owed, lines: seq<Bytes>, tail: Bytes, fin: ReadError)
    requires !env.apiKey && ScrubsToData(env) && AllClean(env, st.read, lines + [tail])
    requires Calm(st, w, o) && (Faithful(st, w, o) || Astray(st, w, o))
    ensures var all := lines + [tail];
            EndsRight(w + Run(env, st, lines, tail, fin).written, OweAll(env, st.read, o, all),
                      Astray(st, w, o) || OrphanSeen(env, st.read, st.sentAny, o.open, all))
    decreases |lines|
  {
    hide Step, Clean, CleanMove, Calm, Faithful, Astray, IsEvent, IsJson, Opens, EndsRight;
    var all := lines + [tail];
    var line := all[0];
    assert Clean(env, st.read + 0, all[0]);
    var out := Step(env, st, line, None);
    var st', w', o' := After(out), w + Emission(out), Owe(env, st.read, o, line);
    CalmMeans(st, w, o);
    CleanRound(env, st, line);
    MoveIsCalm(env, st, w, o, line, st', Emission(out));
    MoveMeans(env, st, line, st', Emission(out));
    OnlyOpenMatters(env, st.read, o, line);
    FaithfulXorAstray(st, w, o);
    FaithfulXorAstray(st', w', o');
    if Faithful(st, w, o) {
      MoveIsFaithfulExactly(env, st, w, o, line, st', Emission(out));
    } else {
      MoveStaysAstray(env, st, w, o, line, st', Emission(out));
    }
    if lines == [] {
      assert all[1..] == [];
      TailWrites(env, st, tail, fin);
      LastBytes(env, st, w, o, st', Emission(out), o', Run(env, st, lines, tail, fin).written, fin);
    } else {
      assert all[1..] == lines[1..] + [tail];
      forall i | 0 <= i < |all[1..]| ensures Clean(env, st'.read + i, all[1..][i]) {
        assert Clean(env, st.read + (i + 1), all[i + 1]);
      }
      OrderFrom(env, st', w', o', lines[1..], tail, fin);
      var rest := Run(env, st', lines[1..], tail, fin).written;
      Assoc(w, Emission(out), rest);
      assert Run(env, st, lines, tail, fin).written == Emission(out) + rest;
    }
  }

  // The closure's state and the bytes written after some lines of a stream that goes on.
  datatype Progress = Progress(st: State, written: Bytes)

  function Feed(env: Env, st: State, w: Bytes, lines: seq<Bytes>): Progress
    decreases |lines|
  {
    if lines == [] then Progress(st, w)
    else
      var o := Step(env, st, lines[0], None);
      Feed(env, After(o), w + Emission(o), lines[1..])
  }

  // From any state that owes nothing or has lost something, however many lines follow.
  lemma {:induction false} FaithfulFrom(env: Env, st: State, w: Bytes, o: Owed, lines: seq<Bytes>)
    requires !env.apiKey && ScrubsToData(env) && AllClean(env, st.read, lines)
    requires Calm(st, w, o) && (Faithful(st, w, o) || Astray(st, w, o))
    ensures var p := Feed(env, st, w, lines); var o' := OweAll(env, st.read, o, lines);
      Calm(p.st, p.written, o') && (Faithful(p.st, p.written, o') || Astray(p.st, p.written, o')) &&
      (Faithful(p.st, p.written, o') <==>
         Faithful(st, w, o) && !OrphanSeen(env, st.read, st.sentAny, o.open, lines))
    decreases |lines|
  {
    hide Step, Clean, CleanMove, Calm, Faithful, Astray, IsEvent, IsJson, Opens;
    if lines != [] {
      var line := lines[0];
      assert Clean(env, st.read + 0, lines[0]);
      var out := Step(env, st, line, None);
      var st', w', o' := After(out), w + Emission(out), Owe(env, st.read, o, line);
      CalmMeans(st, w, o);
      CleanRound(env, st, line);
      MoveIsCalm(env, st, w, o, line, st', Emission(out));
      MoveMeans(env, st, line, st', Emission(out));
      OnlyOpenMatters(env, st.read, o, line);
      FaithfulXorAstray(st, w, o);
      FaithfulXorAstray(st', w', o');
      if Faithful(st, w, o) {
        MoveIsFaithfulExactly(env, st, w, o, line, st', Emission(out));
      } else {
        MoveStaysAstray(env, st, w, o, line, st', Emission(out));
      }
      forall i | 0 <= i < |lines[1..]| ensures Clean(env, st'.read + i, lines[1..][i]) {
        assert Clean(env, st.read + (i + 1), lines[i + 1]);
      }
      FaithfulFrom(env, st', w', o', lines[1..]);
    }
  }

  // At every point of a stream without errors the written bytes, the preamble and the held line are
  // together what the lines so far owe the client, exactly if none of them orphaned an event line.
  lemma NothingIsLostOrMoved(env: Env, lines: seq<Bytes>)
    requires !env.apiKey && ScrubsToData(env) && AllClean(env, 0, lines)
    ensures var p := Feed(env, INIT, [], lines); var owed := OweAll(env, 0, Owed([], []), lines);
      p.written + p.st.preamble == owed.closed && p.st.held == owed.open <==>
        !OrphanSeen(env, 0, false, [], lines)
  {
    hide Step, OweAll, OrphanSeen, Feed;
    FaithfulFrom(env, INIT, [], Owed([], []), lines);
  }

  // Those are the state and the bytes that a run has after the lines, whatever follows.
  lemma {:induction false} FeedIsTheRunSoFar(
    env: Env, st: State, w: Bytes, lines: seq<Bytes>, more: seq<Bytes>, tail: Bytes, fin: ReadError)
    requires !env.apiKey && ScrubsToData(env) && AllClean(env, st.read, lines)
    requires !st.shedding && !st.fatal
    ensures var p := Feed(env, st, w, lines);
      w + Run(env, st, lines + more, tail, fin).written == p.written + Run(env, p.st, more, tail, fin).written
    decreases |lines|
  {
    hide Step, Clean, CleanMove, IsEvent, IsJson, Opens;
    if lines == [] {
      assert lines + more == more;
    } else {
      var all, line := lines + more, lines[0];
      assert Clean(env, st.read + 0, lines[0]);
      var out := Step(env, st, line, None);
      CleanRound(env, st, line);
      MoveMeans(env, st, line, After(out), Emission(out));
      MoveStaysQuiet(env, st, line, After(out), Emission(out));
      forall i | 0 <= i < |lines[1..]| ensures Clean(env, After(out).read + i, lines[1..][i]) {
        assert Clean(env, st.read + (i + 1), lines[i + 1]);
      }
      FeedIsTheRunSoFar(env, After(out), w + Emission(out), lines[1..], more, tail, fin);
      assert all[1..] == lines[1..] + more;
      var rest := Run(env, After(out), all[1..], tail, fin).written;
      Assoc(w, Emission(out), rest);
      assert Run(env, st, all, tail, fin).written == Emission(out) + rest;
    }
  }

  lemma MoveStaysQuiet(env: Env, st: State, line: Bytes, st': State, emit: Bytes)
    requires CleanMove(env, st, line, st', emit)
    ensures !st'.shedding && !st'.fatal
  {
  }

  lemma CalmMeans(st: State, w: Bytes, o: Owed)
    requires Calm(st, w, o)
    ensures !st.shedding && !st.fatal && (st.sentAny ==> st.preamble == [])
  {
  }

  lemma MoveMeans(env: Env, st: State, line: Bytes, st': State, emit: Bytes)
    requires CleanMove(env, st, line, st', emit)
    ensures st'.read == st.read + 1 && st'.sentAny == (st.sentAny || Opens(env, st.read, line))
  {
  }

  lemma OnlyOpenMatters(env: Env, k: nat, o: Owed, line: Bytes)
    ensures Owe(env, k, Owed([], o.open), line).open == Owe(env, k, o, line).open
  {
  }

  lemma FaithfulXorAstray(st: State, w: Bytes, o: Owed)
    ensures !(Faithful(st, w, o) && Astray(st, w, o))
  {
  }

  // The held event line of a client mid-stream is written at the end; anything before output is dropped.
  lemma LastBytes(
    env: Env, st: State, w: Bytes, o: Owed, st': State, emit: Bytes, o': Owed, last: Bytes, fin: ReadError)
    requires Calm(st, w, o) && Calm(st', w + emit, o')
    requires Faithful(st', w + emit, o') || Astray(st', w + emit, o')
    requires last == if fin.Stalled? && !st.sentAny then []
                     else emit + (if st'.sentAny then st'.held else [])
    ensures EndsRight(w + last, o', Astray(st', w + emit, o'))
  {
    if !(fin.Stalled? && !st.sentAny) && st'.sentAny {
      Assoc(w, emit, st'.held);
      assert (w + emit) + st'.preamble == w + emit;
      if Differs(w + emit, o'.closed) {
        GrowthStaysDifferent(w + emit, w + last, o'.closed, Total(o'));
      }
    }
  }

  // A stream without errors reaches the client byte for byte and in order, or not at all; the exception
  // is an orphaned event line, which is always a loss or a swap.
  lemma OrderIsExact(env: Env, lines: seq<Bytes>, tail: Bytes, fin: ReadError)
    requires !env.apiKey && ScrubsToData(env) && AllClean(env, 0, lines + [tail])
    ensures var written := Run(env, INIT, lines, tail, fin).written;
            var owed := Total(OweAll(env, 0, Owed([], []), lines + [tail]));
            (written == [] <==> !S.Commits(env, 0, S.Mood(false, false, false), lines, tail, fin)) &&
            (written != [] ==> (written == owed <==> !OrphanSeen(env, 0, false, [], lines + [tail])))
  {
    hide Run, OweAll, OrphanSeen, S.Commits;
    S.SilentExactly(env, INIT, lines, tail, fin);
    OrderFrom(env, INIT, [], Owed([], []), lines, tail, fin);
    FaithfulXorAstray(INIT, [], Owed([], []));
    assert [] + Run(env, INIT, lines, tail, fin).written == Run(env, INIT, lines, tail, fin).written;
  }

  // ---------------------------------------------------------------- well-formed event streams

  predicate Follows(lines: seq<Bytes>, i: nat)
    requires i < |lines|
  {
    IsData(lines[i]) || (lines[i] == [] && i + 1 == |lines|)
  }

  // Each event line is directly followed by the data of its event, if by anything.
  predicate WellFormed(lines: seq<Bytes>) {
    forall i | 0 <= i && i + 1 < |lines| && IsEvent(lines[i]) :: Follows(lines, i + 1)
  }

  lemma {:induction false} WellFormedOrphansNothing(
    env: Env, k: nat, sent: bool, open: Bytes, lines: seq<Bytes>)
    requires WellFormed(lines)
    requires open != [] && lines != [] ==> Follows(lines, 0)
    ensures !OrphanSeen(env, k, sent, open, lines)
    decreases |lines|
  {
    if lines != [] {
      var line, rest := lines[0], lines[1..];
      if IsData(line) {
        DataIsNotBlank(line);
      }
      S.EventOrData(line);
      hide IsEvent, IsData, IsJson, Blank, Opens;
      forall i | 0 <= i && i + 1 < |rest| && IsEvent(rest[i]) ensures Follows(rest, i + 1) {
        assert IsEvent(lines[i + 1]) && Follows(lines, i + 2);
      }
      if IsEvent(line) && rest != [] {
        assert Follows(lines, 1);
      }
      WellFormedOrphansNothing(env, k + 1, sent || Opens(env, k, line), Owe(env, k, Owed([], open), line).open, rest);
    }
  }

  // ---------------------------------------------------------------- the orphan, by example

  const EVENT: Bytes := "event:a\n"
  const END: Bytes := "\n"
  const DATA: Bytes := "data:x\n"

  lemma ExampleLines()
    ensures EVENT != [] && IsEvent(EVENT) && !IsJson(EVENT)
    ensures END != [] && !IsEvent(END) && !IsJson(END) && Blank(END)
    ensures DATA != [] && !IsEvent(DATA) && !IsJson(DATA) && !Blank(DATA)
  {
    assert EVENT[..7] == "event:a" && DATA[..6] == "data:x" && END[..0] == [];
    assert TrimEol("event:a") == "event:a" && TrimEol("data:x") == "data:x";
    assert TrimEol(EVENT) == "event:a" && TrimEol(DATA) == "data:x" && TrimEol(END) == [];
    S.EventOrData(EVENT);
    S.EventOrData(DATA);
    assert "data:x"[5..] == "x";
    assert !IsSpace(DATA[0]);
  }

  // An event line whose terminator comes before any data is overtaken by it.
  lemma OrphanedEventIsOvertaken(env: Env)
    requires !env.apiKey
    ensures Run(env, INIT, [EVENT, END, DATA], [], EOF).written == END + (EVENT + DATA)
  {
    ExampleLines();
    hide IsEvent, IsJson, Blank, TrimEol, EVENT, END, DATA;
    var lines := [EVENT, END, DATA];
    assert lines[1..] == [END, DATA] && [END, DATA][1..] == [DATA] && [DATA][1..] == [];
    var held := INIT.(read := 1, held := EVENT);
    var swapped := held.(read := 2, preamble := END);
    var out := swapped.(read := 3, held := [], preamble := [], sentAny := true);
    assert Step(env, INIT, EVENT, None) == Again(held);
    assert [] + END == END;
    assert Step(env, held, END, None) == Again(swapped);
    assert Step(env, swapped, DATA, None) == Return(out, END + (EVENT + DATA), false, None);
    assert Step(env, out, [], Some(EOF)).emit == [];
    assert Run(env, out, [], [], EOF).written == [];
    assert (END + (EVENT + DATA)) + [] == END + (EVENT + DATA);
    assert Run(env, swapped, [DATA], [], EOF).written == END + (EVENT + DATA);
    assert Run(env, held, [END, DATA], [], EOF) == Run(env, swapped, [DATA], [], EOF);
  }
}
