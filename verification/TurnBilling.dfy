/** Per-turn billing of a WebSocket session: the upstream half of pumpCodexWS (internal/server/codex_ws.go)
    and the usage merge of internal/server/codex_proxy.go. */
module TurnBilling {
  datatype Counts = Counts(
    input: int, output: int, cacheRead: int, cacheCreate: int, cacheCreate1h: int, reasoning: int,
    imageText: int, imageInput: int, imageOutput: int, requests: int)

  const ZERO := Counts(0, 0, 0, 0, 0, 0, 0, 0, 0, 0)

  // A frame from upstream. `parsed` frames are non-empty text; `keep` is what the scrub decides about what
  // the client gets, `arrives` whether the client took it.
  datatype Frame = Frame(parsed: bool, usage: Counts, terminal: bool, keep: bool, arrives: bool)

  // `image` is HasImageGen.
  type HasImages = Counts -> bool

  // ---------------------------------------------------------------- usage reports

  datatype OpenAIUsage = OpenAIUsage(
    promptTokens: int, completionTokens: int, promptCached: int, completionReasoning: int,
    inputTokens: int, outputTokens: int, inputCached: int, outputReasoning: int)

  function Either(a: int, b: int): int {
    if a == 0 then b else a
  }

  function ToCounts(u: OpenAIUsage): Counts {
    var input := Either(u.promptTokens, u.inputTokens);
    var output := Either(u.completionTokens, u.outputTokens);
    var cached := Either(u.promptCached, u.inputCached);
    var nonCached := if input - cached < 0 then 0 else input - cached;
    if input == 0 && output == 0 && cached == 0 then ZERO
    else Counts(nonCached, output, cached, 0, 0, Either(u.completionReasoning, u.outputReasoning), 0, 0, 0, 1)
  }

  // The prompt is billed once: its cached part at the cache rate and the rest as input, whichever dialect
  // reports it, and a report without tokens counts no request.
  lemma PromptIsSplit(u: OpenAIUsage)
    ensures var c := ToCounts(u); var input := Either(u.promptTokens, u.inputTokens);
            var cached := Either(u.promptCached, u.inputCached);
      c.input >= 0 && c.cacheRead == cached && (cached <= input ==> c.input + c.cacheRead == input) &&
      (cached > input ==> c.input == 0) &&
      (c.requests == 0 <==> input == 0 && cached == 0 && Either(u.completionTokens, u.outputTokens) == 0)
  {
  }

  // The chat and the responses dialect count alike, and where both speak the chat dialect goes first.
  lemma DialectsCountAlike(prompt: int, output: int, cached: int, reasoning: int, other: OpenAIUsage)
    ensures var chat := OpenAIUsage(prompt, output, cached, reasoning, 0, 0, 0, 0);
      var responses := OpenAIUsage(0, 0, 0, 0, prompt, output, cached, reasoning);
      var both := other.(promptTokens := prompt, completionTokens := output, promptCached := cached,
                         completionReasoning := reasoning);
      var rest := if cached <= prompt then prompt - cached else 0;
      var counts := Counts(rest, output, cached, 0, 0, reasoning, 0, 0, 0, 1);
      ToCounts(chat) == ToCounts(responses) &&
      ToCounts(chat) == (if prompt == 0 && output == 0 && cached == 0 then ZERO else counts) &&
      (prompt != 0 && output != 0 && cached != 0 && reasoning != 0 ==> ToCounts(both) == counts)
  {
  }

  function Overwrite(known: int, reported: int): int {
    if reported > 0 then reported else known
  }

  function Merge(image: HasImages, d: Counts, u: Counts): Counts {
    Counts(
      Overwrite(d.input, u.input), Overwrite(d.output, u.output),
      Overwrite(d.cacheRead, u.cacheRead), Overwrite(d.cacheCreate, u.cacheCreate),
      Overwrite(d.cacheCreate1h, u.cacheCreate1h), Overwrite(d.reasoning, u.reasoning),
      if image(u) then u.imageText else d.imageText,
      if image(u) then u.imageInput else d.imageInput,
      if image(u) then u.imageOutput else d.imageOutput,
      if u.requests > 0 && d.requests == 0 then 1 else d.requests)
  }

  method MergeCodexUsage(image: HasImages, dst: Counts, u: Counts) returns (r: Counts)
    ensures r == Merge(image, dst, u)
  {
    r := dst;
    if u.input > 0 { r := r.(input := u.input); }
    if u.output > 0 { r := r.(output := u.output); }
    if u.cacheRead > 0 { r := r.(cacheRead := u.cacheRead); }
    if u.cacheCreate > 0 { r := r.(cacheCreate := u.cacheCreate); }
    if u.cacheCreate1h > 0 { r := r.(cacheCreate1h := u.cacheCreate1h); }
    if u.reasoning > 0 { r := r.(reasoning := u.reasoning); }
    if image(u) {
      r := r.(imageText := u.imageText, imageInput := u.imageInput, imageOutput := u.imageOutput);
    }
    if u.requests > 0 && r.requests == 0 { r := r.(requests := 1); }
  }

  // ---------------------------------------------------------------- what a turn used

  // The last positive report of one axis.
  function Last(us: seq<Counts>, axis: Counts -> int): int {
    if us == [] then 0
    else if axis(us[|us| - 1]) > 0 then axis(us[|us| - 1])
    else Last(us[..|us| - 1], axis)
  }

  // The last report with image usage.
  function LastImage(image: HasImages, us: seq<Counts>): Counts {
    if us == [] then ZERO
    else if image(us[|us| - 1]) then us[|us| - 1]
    else LastImage(image, us[..|us| - 1])
  }

  predicate Observed(us: seq<Counts>) {
    exists i :: 0 <= i < |us| && us[i].requests > 0
  }

  // Reports are running totals, so per axis the last one that says something holds.
  function Used(image: HasImages, us: seq<Counts>): Counts {
    Counts(
      Last(us, (u: Counts) => u.input), Last(us, (u: Counts) => u.output),
      Last(us, (u: Counts) => u.cacheRead), Last(us, (u: Counts) => u.cacheCreate),
      Last(us, (u: Counts) => u.cacheCreate1h), Last(us, (u: Counts) => u.reasoning),
      LastImage(image, us).imageText, LastImage(image, us).imageInput, LastImage(image, us).imageOutput,
      if Observed(us) then 1 else 0)
  }

  lemma LastGrows(us: seq<Counts>, u: Counts, axis: Counts -> int)
    ensures Last(us + [u], axis) == Overwrite(Last(us, axis), axis(u))
  {
    assert (us + [u])[..|us|] == us;
  }

  lemma ObservedGrows(us: seq<Counts>, u: Counts)
    ensures Observed(us + [u]) <==> Observed(us) || u.requests > 0
  {
    var more := us + [u];
    if Observed(us) {
      var i :| 0 <= i < |us| && us[i].requests > 0;
      assert more[i].requests > 0;
    }
    if u.requests > 0 {
      assert more[|us|].requests > 0;
    }
  }

  // Merging reports one by one keeps the last word of each axis.
  lemma MergeIsLastWord(image: HasImages, us: seq<Counts>, u: Counts)
    ensures Used(image, us + [u]) == Merge(image, Used(image, us), u)
  {
    LastGrows(us, u, (v: Counts) => v.input);
    LastGrows(us, u, (v: Counts) => v.output);
    LastGrows(us, u, (v: Counts) => v.cacheRead);
    LastGrows(us, u, (v: Counts) => v.cacheCreate);
    LastGrows(us, u, (v: Counts) => v.cacheCreate1h);
    LastGrows(us, u, (v: Counts) => v.reasoning);
    ObservedGrows(us, u);
    assert (us + [u])[..|us|] == us;
  }

  // ---------------------------------------------------------------- turns

  // The usage reports of each completed turn, and of the turn in progress.
  datatype Turns = Turns(done: seq<seq<Counts>>, open: seq<Counts>)

  function Split(frames: seq<Frame>): Turns {
    if frames == [] then Turns([], [])
    else
      var t, f := Split(frames[..|frames| - 1]), frames[|frames| - 1];
      if !f.parsed then t
      else if f.terminal then Turns(t.done + [t.open + [f.usage]], [])
      else Turns(t.done, t.open + [f.usage])
  }

  function Plus(a: Counts, b: Counts): Counts {
    Counts(a.input + b.input, a.output + b.output, a.cacheRead + b.cacheRead, a.cacheCreate + b.cacheCreate,
           a.cacheCreate1h + b.cacheCreate1h, a.reasoning + b.reasoning,
           a.imageText + b.imageText, a.imageInput + b.imageInput, a.imageOutput + b.imageOutput,
           a.requests + b.requests)
  }

  // The axes a bill carries, as one request.
  function Billable(c: Counts): Counts {
    Counts(c.input, c.output, c.cacheRead, c.cacheCreate, 0, 0, c.imageText, c.imageInput, c.imageOutput, 1)
  }

  function Bills(image: HasImages, done: seq<seq<Counts>>): seq<Counts> {
    if done == [] then []
    else Bills(image, done[..|done| - 1]) + [Billable(Used(image, done[|done| - 1]))]
  }

  function Total(image: HasImages, done: seq<seq<Counts>>): Counts {
    if done == [] then ZERO
    else Plus(Total(image, done[..|done| - 1]), Used(image, done[|done| - 1]).(requests := 1))
  }

  function Sum(cs: seq<Counts>): Counts {
    if cs == [] then ZERO else Plus(Sum(cs[..|cs| - 1]), cs[|cs| - 1])
  }

  // The bills add up to the session total, on every axis a bill has.
  lemma {:induction false} BillsTelescope(image: HasImages, done: seq<seq<Counts>>)
    ensures |Bills(image, done)| == |done| && Total(image, done).requests == |done|
    ensures Billable(Sum(Bills(image, done))) == Billable(Total(image, done))
  {
    if done != [] {
      BillsTelescope(image, done[..|done| - 1]);
      var fewer := Bills(image, done[..|done| - 1]);
      assert Bills(image, done)[..|done| - 1] == fewer;
    }
  }

  // One axis, summed over the turns.
  function AxisTotal(image: HasImages, done: seq<seq<Counts>>, axis: Counts -> int): int {
    if done == [] then 0
    else AxisTotal(image, done[..|done| - 1], axis) + axis(Used(image, done[|done| - 1]))
  }

  // The session total is the sum of its turns on every axis, those that are not billed included.
  lemma {:induction false} TotalIsTheSumOfTurns(image: HasImages, done: seq<seq<Counts>>)
    ensures var total := Total(image, done);
      total.input == AxisTotal(image, done, (c: Counts) => c.input) &&
      total.output == AxisTotal(image, done, (c: Counts) => c.output) &&
      total.cacheRead == AxisTotal(image, done, (c: Counts) => c.cacheRead) &&
      total.cacheCreate == AxisTotal(image, done, (c: Counts) => c.cacheCreate) &&
      total.cacheCreate1h == AxisTotal(image, done, (c: Counts) => c.cacheCreate1h) &&
      total.reasoning == AxisTotal(image, done, (c: Counts) => c.reasoning) &&
      total.imageText == AxisTotal(image, done, (c: Counts) => c.imageText) &&
      total.imageInput == AxisTotal(image, done, (c: Counts) => c.imageInput) &&
      total.imageOutput == AxisTotal(image, done, (c: Counts) => c.imageOutput) && total.requests == |done|
  {
    hide Used;
    if done != [] {
      TotalIsTheSumOfTurns(image, done[..|done| - 1]);
    }
  }

  predicate NonNegative(c: Counts) {
    c.input >= 0 && c.output >= 0 && c.cacheRead >= 0 && c.cacheCreate >= 0 &&
    c.imageText >= 0 && c.imageInput >= 0 && c.imageOutput >= 0
  }

  lemma {:induction false} LastIsNotNegative(us: seq<Counts>, axis: Counts -> int)
    ensures Last(us, axis) >= 0
  {
    if us != [] {
      LastIsNotNegative(us[..|us| - 1], axis);
    }
  }

  predicate ImagesNotNegative(c: Counts) {
    c.imageText >= 0 && c.imageInput >= 0 && c.imageOutput >= 0
  }

  // The token axes are never negative, whatever upstream puts in them; the image axes are what the last
  // image report says.
  lemma UsedIsNotNegative(image: HasImages, us: seq<Counts>)
    ensures NonNegative(Used(image, us)) <==> ImagesNotNegative(LastImage(image, us))
    ensures var c := Used(image, us); c.input >= 0 && c.output >= 0 && c.cacheRead >= 0 && c.cacheCreate >= 0
  {
    LastIsNotNegative(us, (u: Counts) => u.input);
    LastIsNotNegative(us, (u: Counts) => u.output);
    LastIsNotNegative(us, (u: Counts) => u.cacheRead);
    LastIsNotNegative(us, (u: Counts) => u.cacheCreate);
  }

  lemma {:induction false} LastImageNotNegative(image: HasImages, us: seq<Counts>)
    requires forall i | 0 <= i < |us| :: ImagesNotNegative(us[i])
    ensures ImagesNotNegative(LastImage(image, us))
  {
    if us != [] {
      LastImageNotNegative(image, us[..|us| - 1]);
    }
  }

  lemma {:induction false} BillAt(image: HasImages, done: seq<seq<Counts>>, i: nat)
    requires i < |done|
    ensures |Bills(image, done)| == |done| && Bills(image, done)[i] == Billable(Used(image, done[i]))
  {
    hide Billable, Used;
    var fewer := done[..|done| - 1];
    BillsAreAsMany(image, done);
    BillsAreAsMany(image, fewer);
    if i < |fewer| {
      BillAt(image, fewer, i);
    }
  }

  lemma {:induction false} BillsAreAsMany(image: HasImages, done: seq<seq<Counts>>)
    ensures |Bills(image, done)| == |done|
  {
    if done != [] {
      BillsAreAsMany(image, done[..|done| - 1]);
    }
  }

  // Each bill is its own turn's usage, as one request. It is negative nowhere, exactly if the last image
  // report of the turn is not: and no report with a negative image count means no such bill.
  lemma BillIsItsTurn(image: HasImages, done: seq<seq<Counts>>, i: nat)
    requires i < |done|
    ensures |Bills(image, done)| == |done| && Bills(image, done)[i] == Billable(Used(image, done[i]))
    ensures NonNegative(Bills(image, done)[i]) <==> ImagesNotNegative(LastImage(image, done[i]))
    ensures (forall j | 0 <= j < |done[i]| :: ImagesNotNegative(done[i][j])) ==> NonNegative(Bills(image, done)[i])
  {
    BillAt(image, done, i);
    UsedIsNotNegative(image, done[i]);
    hide Bills, Used, LastImage, ImagesNotNegative;
    if forall j | 0 <= j < |done[i]| :: ImagesNotNegative(done[i][j]) {
      LastImageNotNegative(image, done[i]);
    }
  }

  // ---------------------------------------------------------------- repeated reports

  // What a session bills and what it has counted, as a state.
  datatype Session = Session(bills: seq<Counts>, total: Counts, turn: Counts)

  function After(image: HasImages, frames: seq<Frame>): Session {
    var t := Split(frames);
    Session(Bills(image, t.done), Total(image, t.done), Used(image, t.open))
  }

  lemma FrameMoves(image: HasImages, frames: seq<Frame>, f: Frame)
    ensures After(image, frames + [f]) == Settle(image, After(image, frames), f)
  {
    var t := Split(frames);
    assert (frames + [f])[..|frames|] == frames;
    MergeIsLastWord(image, t.open, f.usage);
    var turn := t.open + [f.usage];
    assert (t.done + [turn])[..|t.done|] == t.done;
    hide Used, Split;
  }

  function Settle(image: HasImages, s: Session, f: Frame): Session {
    if !f.parsed then s
    else
      var turn := Merge(image, s.turn, f.usage);
      if f.terminal then Session(s.bills + [Billable(turn)], Plus(s.total, turn.(requests := 1)), ZERO)
      else s.(turn := turn)
  }

  lemma {:induction false} SameFromHereOn(image: HasImages, a: seq<Frame>, b: seq<Frame>, rest: seq<Frame>)
    requires After(image, a) == After(image, b)
    ensures After(image, a + rest) == After(image, b + rest)
  {
    hide After, Settle;
    if rest == [] {
      assert a + rest == a && b + rest == b;
    } else {
      var fewer, f := rest[..|rest| - 1], rest[|rest| - 1];
      SameFromHereOn(image, a, b, fewer);
      FrameMoves(image, a + fewer, f);
      FrameMoves(image, b + fewer, f);
      assert a + rest == a + fewer + [f] && b + rest == b + fewer + [f];
    }
  }

  // On every axis the report is silent or repeats the last word.
  predicate SaysNothingNew(image: HasImages, d: Counts, u: Counts) {
    (u.input <= 0 || u.input == d.input) && (u.output <= 0 || u.output == d.output) &&
    (u.cacheRead <= 0 || u.cacheRead == d.cacheRead) && (u.cacheCreate <= 0 || u.cacheCreate == d.cacheCreate) &&
    (u.cacheCreate1h <= 0 || u.cacheCreate1h == d.cacheCreate1h) && (u.reasoning <= 0 || u.reasoning == d.reasoning) &&
    (image(u) ==> u.imageText == d.imageText && u.imageInput == d.imageInput && u.imageOutput == d.imageOutput) &&
    (u.requests <= 0 || d.requests != 0)
  }

  // Exactly such a report, in the middle of a turn, might as well not have come: neither the bills nor the
  // totals nor anything after it are different.
  lemma ReportChangesNothingExactly(image: HasImages, before: seq<Frame>, f: Frame, rest: seq<Frame>)
    requires f.parsed && !f.terminal
    ensures var turn := Used(image, Split(before).open);
      (After(image, before + [f]) == After(image, before) <==> SaysNothingNew(image, turn, f.usage)) &&
      (SaysNothingNew(image, turn, f.usage) ==> After(image, before + [f] + rest) == After(image, before + rest))
  {
    FrameMoves(image, before, f);
    MergeChangesNothingExactly(image, Used(image, Split(before).open), f.usage);
    hide Merge, SaysNothingNew, Used, Split, Bills, Total;
    if After(image, before + [f]) == After(image, before) {
      SameFromHereOn(image, before + [f], before, rest);
    }
  }

  lemma MergeChangesNothingExactly(image: HasImages, d: Counts, u: Counts)
    ensures Merge(image, d, u) == d <==> SaysNothingNew(image, d, u)
  {
  }

  // `v` speaks on every axis on which `u` does.
  predicate Covers(image: HasImages, v: Counts, u: Counts) {
    (u.input > 0 ==> v.input > 0) && (u.output > 0 ==> v.output > 0) && (u.cacheRead > 0 ==> v.cacheRead > 0) &&
    (u.cacheCreate > 0 ==> v.cacheCreate > 0) && (u.cacheCreate1h > 0 ==> v.cacheCreate1h > 0) &&
    (u.reasoning > 0 ==> v.reasoning > 0) && (image(u) ==> image(v)) && (u.requests > 0 ==> v.requests > 0)
  }

  // Two sessions that will be the same once `v` is reported.
  predicate AlikeUpTo(image: HasImages, v: Counts, s: Session, t: Session) {
    s.bills == t.bills && s.total == t.total &&
    (s.turn.input == t.turn.input || v.input > 0) && (s.turn.output == t.turn.output || v.output > 0) &&
    (s.turn.cacheRead == t.turn.cacheRead || v.cacheRead > 0) &&
    (s.turn.cacheCreate == t.turn.cacheCreate || v.cacheCreate > 0) &&
    (s.turn.cacheCreate1h == t.turn.cacheCreate1h || v.cacheCreate1h > 0) &&
    (s.turn.reasoning == t.turn.reasoning || v.reasoning > 0) &&
    (image(v) || (s.turn.imageText == t.turn.imageText && s.turn.imageInput == t.turn.imageInput &&
                  s.turn.imageOutput == t.turn.imageOutput)) &&
    (s.turn.requests == t.turn.requests || (s.turn.requests == 1 && t.turn.requests == 0 && v.requests > 0))
  }

  lemma CoveredReport(image: HasImages, v: Counts, s: Session, f: Frame)
    requires f.parsed && !f.terminal && Covers(image, v, f.usage)
    ensures AlikeUpTo(image, v, Settle(image, s, f), s)
  {
  }

  lemma StaysAlike(image: HasImages, v: Counts, s: Session, t: Session, f: Frame)
    requires AlikeUpTo(image, v, s, t) && (f.parsed ==> !f.terminal)
    ensures AlikeUpTo(image, v, Settle(image, s, f), Settle(image, t, f))
  {
  }

  lemma BecomesSame(image: HasImages, s: Session, t: Session, again: Frame)
    requires again.parsed && AlikeUpTo(image, again.usage, s, t)
    ensures Settle(image, s, again) == Settle(image, t, again)
  {
  }

  lemma {:induction false} AlikeThrough(
    image: HasImages, v: Counts, a: seq<Frame>, b: seq<Frame>, mid: seq<Frame>)
    requires AlikeUpTo(image, v, After(image, a), After(image, b))
    requires forall i | 0 <= i < |mid| && mid[i].parsed :: !mid[i].terminal
    ensures AlikeUpTo(image, v, After(image, a + mid), After(image, b + mid))
  {
    hide After, Settle, AlikeUpTo;
    if mid == [] {
      assert a + mid == a && b + mid == b;
    } else {
      var fewer, f := mid[..|mid| - 1], mid[|mid| - 1];
      AlikeThrough(image, v, a, b, fewer);
      FrameMoves(image, a + fewer, f);
      FrameMoves(image, b + fewer, f);
      StaysAlike(image, v, After(image, a + fewer), After(image, b + fewer), f);
      assert a + mid == a + fewer + [f] && b + mid == b + fewer + [f];
    }
  }

  // A snapshot that a later report of the same turn covers might as well not have come, whatever is reported
  // in between, and whether the later one is another snapshot or the terminal event itself.
  lemma CoveredReportChangesNothing(
    image: HasImages, before: seq<Frame>, f: Frame, mid: seq<Frame>, again: Frame, rest: seq<Frame>)
    requires f.parsed && !f.terminal && again.parsed && Covers(image, again.usage, f.usage)
    requires forall i | 0 <= i < |mid| && mid[i].parsed :: !mid[i].terminal
    ensures After(image, before + [f] + mid + [again] + rest) == After(image, before + mid + [again] + rest)
  {
    hide After, Settle, AlikeUpTo, Covers;
    FrameMoves(image, before, f);
    CoveredReport(image, again.usage, After(image, before), f);
    AlikeThrough(image, again.usage, before + [f], before, mid);
    FrameMoves(image, before + [f] + mid, again);
    FrameMoves(image, before + mid, again);
    BecomesSame(image, After(image, before + [f] + mid), After(image, before + mid), again);
    SameFromHereOn(image, before + [f] + mid + [again], before + mid + [again], rest);
  }

  // In particular upstream may repeat a report anywhere in a turn, up to and with its terminal event: what
  // was reported twice is billed once.
  lemma RepeatedReportChangesNothing(
    image: HasImages, before: seq<Frame>, f: Frame, mid: seq<Frame>, again: Frame, rest: seq<Frame>)
    requires f.parsed && !f.terminal && again.parsed && again.usage == f.usage
    requires forall i | 0 <= i < |mid| && mid[i].parsed :: !mid[i].terminal
    ensures After(image, before + [f] + mid + [again] + rest) == After(image, before + mid + [again] + rest)
  {
    CoveredReportChangesNothing(image, before, f, mid, again, rest);
  }

  // ---------------------------------------------------------------- the pump

  function Delta(cur: Counts, billed: Counts): Counts {
    Counts(cur.input - billed.input, cur.output - billed.output,
           cur.cacheRead - billed.cacheRead, cur.cacheCreate - billed.cacheCreate, 0, 0,
           cur.imageText - billed.imageText, cur.imageInput - billed.imageInput,
           cur.imageOutput - billed.imageOutput, 1)
  }

  // The frames the loop handles: all of them, or those up to the first the client would not take.
  function Handled(frames: seq<Frame>): (n: nat)
    ensures n <= |frames|
  {
    if frames == [] then 0
    else if Forwarded(frames[0]) && !frames[0].arrives then 1
    else 1 + Handled(frames[1..])
  }

  predicate Forwarded(f: Frame) {
    !f.parsed || f.keep
  }

  // The loop stops behind the first frame that the client did not take, be it not text or kept by the scrub,
  // and otherwise at the end.
  lemma {:induction false} HandledExactly(frames: seq<Frame>)
    ensures var n := Handled(frames);
      (forall i | 0 <= i < n - 1 :: frames[i].arrives || (frames[i].parsed && !frames[i].keep)) &&
      (n < |frames| ==> n > 0 && !frames[n - 1].arrives && (!frames[n - 1].parsed || frames[n - 1].keep))
  {
    if frames != [] && !(Forwarded(frames[0]) && !frames[0].arrives) {
      HandledExactly(frames[1..]);
    }
  }

  lemma {:induction false} HandledIs(frames: seq<Frame>, n: nat)
    requires n <= |frames| && forall i | 0 <= i < n :: Forwarded(frames[i]) ==> frames[i].arrives
    ensures n == |frames| ==> Handled(frames) == n
    ensures n < |frames| && Forwarded(frames[n]) && !frames[n].arrives ==> Handled(frames) == n + 1
  {
    if n > 0 {
      HandledIs(frames[1..], n - 1);
    }
  }

  /** The upstream-to-client relay loop. `bills` are the deltas handed to onTurn, `counts` the session
      total after the loop; a turn without its terminal event is counted, but not billed. */
  method PumpUpstream(image: HasImages, frames: seq<Frame>) returns (bills: seq<Counts>, counts: Counts)
    ensures var t := Split(frames[..Handled(frames)]);
      bills == Bills(image, t.done) &&
      counts == (if Observed(t.open) then Plus(Total(image, t.done), Used(image, t.open)) else Total(image, t.done))
  {
    hide After, Handled, Merge, Split, Bills, Total, Used, Delta, Plus, Billable, Observed;
    var billed, turn := ZERO, ZERO;
    bills, counts := [], ZERO;
    var n := 0;
    Opening(image);
    while n < |frames|
      invariant n <= |frames| && forall i | 0 <= i < n :: Forwarded(frames[i]) ==> frames[i].arrives
      invariant After(image, frames[..n]) == Session(bills, counts, turn)
      invariant Delta(counts, billed) == Billable(ZERO)
    {
      var f := frames[n];
      FrameMoves(image, frames[..n], f);
      assert frames[..n + 1] == frames[..n] + [f];
      n := n + 1;
      if f.parsed {
        turn := MergeCodexUsage(image, turn, f.usage);
        if f.terminal {
          DeltaIsTheTurn(counts, billed, turn);
          turn := turn.(requests := 1);
          counts := Plus(counts, turn);
          turn := ZERO;
          bills := bills + [Delta(counts, billed)];
          billed := counts.(requests := 0);
        }
        if !f.keep {
          continue;
        }
      }
      if !f.arrives {
        HandledIs(frames, n - 1);
        break;
      }
    }
    if n == |frames| && forall i | 0 <= i < n :: Forwarded(frames[i]) ==> frames[i].arrives {
      HandledIs(frames, n);
    }
    Closing(image, frames[..n]);
    if turn.requests > 0 {
      counts := Plus(counts, turn);
    }
  }

  // With everything before the turn settled, the delta is the turn, and then the turn is settled too.
  lemma DeltaIsTheTurn(counts: Counts, billed: Counts, turn: Counts)
    requires Delta(counts, billed) == Billable(ZERO)
    ensures var total := Plus(counts, turn.(requests := 1));
      Delta(total, billed) == Billable(turn) && Delta(total, total.(requests := 0)) == Billable(ZERO)
  {
  }

  lemma Opening(image: HasImages)
    ensures After(image, []) == Session([], ZERO, ZERO) && Delta(ZERO, ZERO) == Billable(ZERO)
  {
  }

  lemma Closing(image: HasImages, frames: seq<Frame>)
    ensures var t := Split(frames); var s := After(image, frames);
      s.bills == Bills(image, t.done) && s.total == Total(image, t.done) && s.turn == Used(image, t.open) &&
      (s.turn.requests > 0 <==> Observed(t.open))
  {
  }
}
