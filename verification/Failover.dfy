/** The credential failover loop of internal/server/proxy.go: which credentials one request may burn,
    why the loop ends without its clock, and what the client is told when it does. */
module Failover {
  import opened Bytes

  type Id = string

  datatype Kind = OAuth | APIKey

  // An upstream error withheld from the client.
  datatype Deferred = Deferred(status: int, origin: Id)

  // What one forward attempt reports. `stale` and `shed` are the flags of the Codex OAuth path for a
  // dead pooled socket and for a capacity refusal.
  datatype Outcome = Outcome(retry: bool, done: bool, deferred: Option<Deferred>, stale: bool, shed: bool)

  datatype Probe = Granted | Refused(wait: nat)

  // The surroundings, per round of the loop: the pool, the clock and the upstream.
  datatype Env = Env(
    kinds: map<Id, Kind>,                          // every credential the pool can hand out
    codex: bool,                                   // the provider is OpenAI
    unsupported: set<Id>,                          // OAuth credentials that may not serve this model
    available: nat -> set<Id>,                     // those the pool finds fit to serve in a round
    due: nat -> set<Id>,                           // API keys owed a recovery probe in a round
    pool: (nat, set<Id>, bool) -> Option<Id>,      // AcquireWithOptions: excluded ids, API keys only
    pastDeadline: nat -> bool,
    rateLimited: (nat, Id) -> bool,                // IsModelRateLimited, asked of API keys
    prepares: (nat, Id) -> bool,                   // the Claude body and headers can be prepared
    probe: (nat, Id) -> Probe,                     // beginAPIKeyAttempt
    forward: (nat, Id) -> Outcome,
    clientWaits: nat -> bool                       // sleepCtx ran its full time
  )

  const MAX_OAUTH: nat := 12
  const SHED_RETRIES: nat := 2

  // The pool hands out only credentials it knows and finds fit, never an excluded one, honours
  // API-key-only, and returns nothing only if nothing fits.
  ghost predicate Acquires(kinds: map<Id, Kind>, fit: set<Id>, excluded: set<Id>, only: bool, got: Option<Id>) {
    match got
    case Some(id) => id in kinds && id in fit && id !in excluded && (only ==> kinds[id] == APIKey)
    case None => forall id | id in fit && id in kinds :: id in excluded || (only && kinds[id] == OAuth)
  }

  ghost predicate Fair(env: Env) {
    (forall n, excluded, only ::
       Acquires(env.kinds, env.available(n), excluded, only, env.pool(n, excluded, only))) &&
    (forall n, id | id in env.kinds && env.kinds[id] == APIKey ::
       !env.forward(n, id).stale && !env.forward(n, id).shed)
  }

  // acquireWithAPIKeyRecovery: a due recovery probe goes first, through the same gates; then anything.
  function Acquire(env: Env, n: nat, excluded: set<Id>, only: bool): Option<Id> {
    var barred := excluded + env.unsupported;
    var probe := env.pool(n, barred + (env.kinds.Keys - env.due(n)), true);
    if env.due(n) != {} && probe.Some? then probe else env.pool(n, barred, only)
  }

  // Probing first costs the caller nothing the pool promised, and a due key that can serve is never
  // passed over for another credential.
  lemma RecoveryKeepsTheContract(env: Env, n: nat, excluded: set<Id>, only: bool)
    requires Fair(env)
    ensures Acquires(env.kinds, env.available(n) - env.unsupported, excluded, only, Acquire(env, n, excluded, only))
    ensures (exists id :: id in env.due(n) && id in env.available(n) - env.unsupported - excluded &&
                          id in env.kinds && env.kinds[id] == APIKey) ==>
            Acquire(env, n, excluded, only).Some? && Acquire(env, n, excluded, only).value in env.due(n)
  {
    var barred := excluded + env.unsupported;
    var others := env.kinds.Keys - env.due(n);
    assert Acquires(env.kinds, env.available(n), barred + others, true, env.pool(n, barred + others, true));
    assert Acquires(env.kinds, env.available(n), barred, only, env.pool(n, barred, only));
  }

  // ---------------------------------------------------------------- the record of a request

  datatype What = SkippedLimited | PrepFailed | ProbeRefused(wait: nat) | Forwarded(out: Outcome)

  datatype Event = Event(id: Id, kind: Kind, what: What)

  function Picks(log: seq<Event>, id: Id): nat {
    if log == [] then 0 else Picks(log[..|log| - 1], id) + (if log[|log| - 1].id == id then 1 else 0)
  }

  function OAuthPicks(log: seq<Event>): nat {
    if log == [] then 0 else OAuthPicks(log[..|log| - 1]) + (if log[|log| - 1].kind == OAuth then 1 else 0)
  }

  // The most recent withheld error since the last failed preparation.
  function LastDeferred(log: seq<Event>): Option<Deferred> {
    if log == [] then None
    else match log[|log| - 1].what
      case PrepFailed => None
      case Forwarded(out) =>
        if out.retry && !out.done && out.deferred.Some? then out.deferred else LastDeferred(log[..|log| - 1])
      case _ => LastDeferred(log[..|log| - 1])
  }

  // Attempts that count towards the deadline and the request log.
  function Attempts(log: seq<Event>): nat {
    if log == [] then 0
    else Attempts(log[..|log| - 1]) + One(log[|log| - 1].what.PrepFailed? || log[|log| - 1].what.Forwarded?)
  }

  // The shortest pause a refused probe announced; 0 when none did.
  function LeastWait(log: seq<Event>): nat {
    if log == [] then 0
    else match log[|log| - 1].what
      case ProbeRefused(wait) => Shorter(LeastWait(log[..|log| - 1]), wait)
      case _ => LeastWait(log[..|log| - 1])
  }

  function Shorter(known: nat, wait: nat): nat {
    if wait > 0 && (known == 0 || wait < known) then wait else known
  }

  // The event withheld this error from the client.
  predicate Withheld(e: Event, d: Deferred) {
    e.what.Forwarded? && e.what.out.retry && !e.what.out.done && e.what.out.deferred == Some(d)
  }

  // The error on record is the one withheld last, unless a preparation failed since.
  lemma {:induction false} LastDeferredExactly(log: seq<Event>, d: Deferred)
    ensures LastDeferred(log) == Some(d) <==>
      exists i :: 0 <= i < |log| && Withheld(log[i], d) &&
                  forall j | i < j < |log| :: !log[j].what.PrepFailed? && forall d' :: !Withheld(log[j], d')
  {
    if log != [] {
      var fewer, e := log[..|log| - 1], log[|log| - 1];
      LastDeferredExactly(fewer, d);
      assert forall i | 0 <= i < |fewer| :: fewer[i] == log[i];
      if e.what.Forwarded? && e.what.out.deferred.Some? {
        assert Withheld(e, e.what.out.deferred.value) <==> e.what.out.retry && !e.what.out.done;
      }
    }
  }

  // The announced pause is the shortest that a refused probe asked for, if any did.
  lemma {:induction false} LeastWaitExactly(log: seq<Event>)
    ensures LeastWait(log) > 0 ==>
      exists i :: 0 <= i < |log| && log[i].what.ProbeRefused? && log[i].what.wait == LeastWait(log)
    ensures forall i | 0 <= i < |log| && log[i].what.ProbeRefused? && log[i].what.wait > 0 ::
              0 < LeastWait(log) <= log[i].what.wait
  {
    if log != [] {
      var fewer := log[..|log| - 1];
      LeastWaitExactly(fewer);
      assert forall i | 0 <= i < |fewer| :: fewer[i] == log[i];
    }
  }

  // The retried forwards that found a dead pooled socket, or met a capacity refusal.
  predicate IsStale(env: Env, e: Event) {
    env.codex && e.what.Forwarded? && e.what.out.retry && e.what.out.stale
  }

  predicate IsShed(env: Env, e: Event) {
    env.codex && e.what.Forwarded? && e.what.out.retry && e.what.out.shed
  }

  function Stales(env: Env, log: seq<Event>, id: Id): nat {
    if log == [] then 0
    else Stales(env, log[..|log| - 1], id) + One(log[|log| - 1].id == id && IsStale(env, log[|log| - 1]))
  }

  function Refusals(env: Env, log: seq<Event>, id: Id): nat {
    if log == [] then 0
    else Refusals(env, log[..|log| - 1], id) + One(log[|log| - 1].id == id && IsShed(env, log[|log| - 1]))
  }

  // The event leaves its credential in the running: its first dead socket, or one of its first refusals.
  predicate AskedAgain(env: Env, before: seq<Event>, e: Event) {
    (IsStale(env, e) && Stales(env, before, e.id) == 0) ||
    (IsShed(env, e) && Refusals(env, before, e.id) < SHED_RETRIES)
  }

  // The last event of the credential did not.
  predicate Spent(env: Env, log: seq<Event>, id: Id) {
    log != [] &&
    var before, e := log[..|log| - 1], log[|log| - 1];
    if e.id == id then !AskedAgain(env, before, e) else Spent(env, before, id)
  }

  function SpentIds(env: Env, log: seq<Event>): set<Id> {
    set id | id in env.kinds && Spent(env, log, id)
  }

  // OAuth credentials are not used any more.
  ghost predicate KeysOnly(log: seq<Event>, seeded: bool) {
    seeded || OAuthPicks(log) >= MAX_OAUTH || exists i :: 0 <= i < |log| && log[i].what.PrepFailed?
  }

  // The client went away during the pause before a capacity retry.
  predicate GaveUp(env: Env, log: seq<Event>) {
    log != [] &&
    var before, e := log[..|log| - 1], log[|log| - 1];
    IsShed(env, e) && Refusals(env, before, e.id) < SHED_RETRIES && !env.clientWaits(|log| - 1)
  }

  predicate OutOfTime(env: Env, log: seq<Event>) {
    Attempts(log) > 0 && env.pastDeadline(|log|)
  }

  // The round after `log` is held, and picks what the pool offers besides the spent credentials.
  ghost predicate PicksNext(env: Env, log: seq<Event>, id: Id, seeded: bool) {
    !OutOfTime(env, log) && !GaveUp(env, log) && AllWentOn(log) &&
    Acquire(env, |log|, SpentIds(env, log), KeysOnly(log, seeded)) == Some(id)
  }

  ghost predicate Traced(env: Env, log: seq<Event>, seeded: bool) {
    forall i | 0 <= i < |log| :: PicksNext(env, log[..i], log[i].id, seeded)
  }

  // A preparation failure ends the use of OAuth credentials.
  ghost predicate NoOAuthAfterPrepFailure(log: seq<Event>) {
    forall i, j | 0 <= i < j < |log| && log[i].what.PrepFailed? :: log[j].kind == APIKey
  }

  // Only a credential-level failure before any byte keeps the request going.
  ghost predicate WentOn(e: Event) {
    e.what.Forwarded? ==> e.what.out.retry && !e.what.out.done
  }

  ghost predicate AllWentOn(log: seq<Event>) {
    forall i | 0 <= i < |log| :: WentOn(log[i])
  }

  // What round n does with a credential.
  function Does(env: Env, n: nat, id: Id): (w: What)
    requires id in env.kinds
    ensures w.SkippedLimited? <==> env.kinds[id] == APIKey && env.rateLimited(n, id)
    ensures w.PrepFailed? <==> !env.codex && env.kinds[id] == OAuth && !env.prepares(n, id)
    ensures w.ProbeRefused? <==>
              env.kinds[id] == APIKey && !env.rateLimited(n, id) && env.probe(n, id).Refused?
    ensures w.ProbeRefused? ==> env.probe(n, id) == Refused(w.wait)
    ensures w.Forwarded? ==> w.out == env.forward(n, id)
  {
    var kind := env.kinds[id];
    if kind == APIKey && env.rateLimited(n, id) then SkippedLimited
    else if !env.codex && kind == OAuth && !env.prepares(n, id) then PrepFailed
    else if kind == APIKey && env.probe(n, id).Refused? then ProbeRefused(env.probe(n, id).wait)
    else Forwarded(env.forward(n, id))
  }

  // Every round leaves one event: a credential of the pool, and what the round did with it.
  ghost predicate Recorded(env: Env, log: seq<Event>) {
    forall i | 0 <= i < |log| ::
      log[i].id in env.kinds && log[i].kind == env.kinds[log[i].id] && log[i].what == Does(env, i, log[i].id)
  }

  datatype Reply =
    | Answered                                // the attempt wrote the response, or its error is final
    | Exhausted(shown: Option<Deferred>, retryAfter: nat)      // no credential is left
    | TimedOut(shown: Option<Deferred>)
    | ClientGone

  // ---------------------------------------------------------------- the loop's bookkeeping

  datatype Books = Books(
    tried: set<Id>, stale: set<Id>, shed: map<Id, nat>, oauth: nat, apiKeyOnly: bool,
    last: Option<Deferred>, attempts: nat, wait: nat)

  function Sheds(shed: map<Id, nat>, id: Id): nat {
    if id in shed then shed[id] else 0
  }

  function One(b: bool): nat {
    if b then 1 else 0
  }

  // Second chances for a dead socket that are still unused.
  function StaleLeft(env: Env, b: Books): set<Id> {
    env.kinds.Keys - b.stale
  }

  // Same-credential retries after a capacity refusal that are still unused.
  function ShedLeft(env: Env, b: Books): set<(Id, nat)> {
    set id, k | id in env.kinds.Keys && k in {0, 1} && Sheds(b.shed, id) <= k :: (id, k)
  }

  function Untried(env: Env, b: Books): set<Id> {
    env.kinds.Keys - b.tried
  }

  // The running totals are those of the record.
  ghost predicate Tallied(b: Books, log: seq<Event>) {
    b.oauth == OAuthPicks(log) && b.last == LastDeferred(log) && b.attempts == Attempts(log) &&
    b.wait == LeastWait(log)
  }

  ghost predicate Kept(env: Env, b: Books, log: seq<Event>, seeded: bool) {
    (forall id :: Sheds(b.shed, id) <= SHED_RETRIES) &&
    (forall id :: Picks(log, id) <= One(id in b.tried) + One(id in b.stale) + Sheds(b.shed, id)) &&
    (forall id | id in env.kinds && env.kinds[id] == APIKey :: id !in b.stale && Sheds(b.shed, id) == 0) &&
    (forall id | id in b.tried :: Picks(log, id) > 0) &&
    AllWentOn(log) && Tallied(b, log) && b.oauth <= MAX_OAUTH && (seeded ==> b.oauth == 0) &&
    NoOAuthAfterPrepFailure(log) &&
    (b.apiKeyOnly <==> seeded || exists i :: 0 <= i < |log| && log[i].what.PrepFailed?)
  }

  function Least(x: nat, y: nat): nat {
    if x < y then x else y
  }

  // The exclusions and the second chances are those of the record.
  ghost predicate Remembers(env: Env, b: Books, log: seq<Event>) {
    b.tried <= env.kinds.Keys &&
    forall id :: (id in b.tried <==> Spent(env, log, id)) && (id in b.stale <==> Stales(env, log, id) > 0) &&
                 Sheds(b.shed, id) == Least(Refusals(env, log, id), SHED_RETRIES)
  }

  // The event uses up its credential, or a second chance of it.
  ghost predicate Uses(env: Env, b: Books, tried: set<Id>, stale: set<Id>, shed: map<Id, nat>, e: Event) {
    var staleChance := IsStale(env, e) && e.id !in b.stale;
    var shedChance := IsShed(env, e) && Sheds(b.shed, e.id) < SHED_RETRIES;
    tried == (if staleChance || shedChance then b.tried else b.tried + {e.id}) &&
    stale == (if staleChance then b.stale + {e.id} else b.stale) &&
    forall id :: Sheds(shed, id) == Sheds(b.shed, id) + One(id == e.id && shedChance)
  }

  lemma RemembersMore(env: Env, b: Books, b': Books, log: seq<Event>, e: Event)
    requires Remembers(env, b, log) && e.id !in b.tried && e.id in env.kinds
    requires Uses(env, b, b'.tried, b'.stale, b'.shed, e)
    ensures Remembers(env, b', log + [e])
  {
    var log' := log + [e];
    hide IsStale, IsShed, Spent, Stales, Refusals, AskedAgain;
    forall id
      ensures (id in b'.tried <==> Spent(env, log', id)) && (id in b'.stale <==> Stales(env, log', id) > 0)
      ensures Sheds(b'.shed, id) == Least(Refusals(env, log', id), SHED_RETRIES)
    {
      RecordOf(env, log, e, id);
    }
  }

  // What one more event says of a credential.
  lemma RecordOf(env: Env, log: seq<Event>, e: Event, id: Id)
    ensures var log' := log + [e];
      (Spent(env, log', id) <==>
         if e.id == id
         then !((IsStale(env, e) && Stales(env, log, id) == 0) ||
                (IsShed(env, e) && Refusals(env, log, id) < SHED_RETRIES))
         else Spent(env, log, id)) &&
      Stales(env, log', id) == Stales(env, log, id) + One(e.id == id && IsStale(env, e)) &&
      Refusals(env, log', id) == Refusals(env, log, id) + One(e.id == id && IsShed(env, e))
  {
    hide IsStale, IsShed;
    assert (log + [e])[..|log|] == log;
  }

  lemma RemembersNothing(env: Env, seeded: bool)
    ensures Remembers(env, Books({}, {}, map[], 0, seeded, None, 0, 0), [])
  {
  }

  // What holds of every request, however it ends.
  ghost predicate Bounded(env: Env, log: seq<Event>, seeded: bool) {
    (forall id | id in env.kinds ::
       Picks(log, id) <= (if env.kinds[id] == OAuth then 2 + SHED_RETRIES else 1)) &&
    OAuthPicks(log) <= MAX_OAUTH && (seeded ==> OAuthPicks(log) == 0) &&
    NoOAuthAfterPrepFailure(log)
  }

  // Every credential fit to serve in round n was used up by this request, second chances included, or is an
  // OAuth credential that the request may not use any more.
  ghost predicate NothingLeft(env: Env, n: nat, log: seq<Event>, seeded: bool) {
    forall id | id in env.available(n) - env.unsupported && id in env.kinds ::
      Spent(env, log, id) || (env.kinds[id] == OAuth && KeysOnly(log, seeded))
  }

  // What it takes for a credential to be used up, in terms of its last event.
  lemma {:induction false} SpentExactly(env: Env, log: seq<Event>, id: Id)
    ensures Spent(env, log, id) <==>
      exists i :: 0 <= i < |log| && log[i].id == id && (forall j | i < j < |log| :: log[j].id != id) &&
                  !AskedAgain(env, log[..i], log[i])
  {
    if log != [] {
      var before, e := log[..|log| - 1], log[|log| - 1];
      forall i | 0 <= i < |before| ensures before[i] == log[i] && before[..i] == log[..i] {
      }
      SpentExactly(env, before, id);
      hide AskedAgain, Spent;
      SpentIs(env, log, id);
    }
  }

  lemma SpentIs(env: Env, log: seq<Event>, id: Id)
    requires log != []
    ensures var before, e := log[..|log| - 1], log[|log| - 1];
      Spent(env, log, id) <==> if e.id == id then !AskedAgain(env, before, e) else Spent(env, before, id)
  {
    hide AskedAgain;
  }

  // ---------------------------------------------------------------- one more pick

  lemma LogGrows(log: seq<Event>, e: Event)
    ensures forall id :: Picks(log + [e], id) == Picks(log, id) + One(e.id == id)
    ensures OAuthPicks(log + [e]) == OAuthPicks(log) + One(e.kind == OAuth)
    ensures Attempts(log + [e]) == Attempts(log) + One(e.what.PrepFailed? || e.what.Forwarded?)
    ensures LeastWait(log + [e]) ==
            if e.what.ProbeRefused? then Shorter(LeastWait(log), e.what.wait) else LeastWait(log)
    ensures LastDeferred(log + [e]) ==
            match e.what
            case PrepFailed => None
            case Forwarded(out) =>
              if out.retry && !out.done && out.deferred.Some? then out.deferred else LastDeferred(log)
            case _ => LastDeferred(log)
  {
    assert (log + [e])[..|log|] == log;
  }

  lemma RecordGrows(env: Env, log: seq<Event>, e: Event)
    requires Recorded(env, log) && e.id in env.kinds && e.kind == env.kinds[e.id] && e.what == Does(env, |log|, e.id)
    ensures Recorded(env, log + [e])
  {
  }

  lemma NothingRecorded(env: Env)
    ensures Recorded(env, [])
  {
  }

  // The pick is paid for: the credential stays excluded, or a second chance of its own was used up.
  ghost predicate Paid(b: Books, tried: set<Id>, stale: set<Id>, shed: map<Id, nat>, id: Id) {
    id !in b.tried &&
    (forall x | x != id :: (x in tried <==> x in b.tried) && (x in stale <==> x in b.stale) &&
                           Sheds(shed, x) == Sheds(b.shed, x)) &&
    (id in b.stale ==> id in stale) && Sheds(b.shed, id) <= Sheds(shed, id) <= SHED_RETRIES &&
    (id in tried || id in stale - b.stale || Sheds(shed, id) > Sheds(b.shed, id))
  }

  lemma ExclusionPays(b: Books, id: Id)
    requires id !in b.tried && Sheds(b.shed, id) <= SHED_RETRIES
    ensures Paid(b, b.tried + {id}, b.stale, b.shed, id)
  {
  }

  ghost predicate MayPick(env: Env, b: Books, e: Event) {
    e.id !in b.tried && e.id in env.kinds && e.kind == env.kinds[e.id] &&
    (b.apiKeyOnly || b.oauth >= MAX_OAUTH ==> e.kind == APIKey)
  }

  lemma PickKeeps(env: Env, b: Books, b': Books, log: seq<Event>, e: Event, seeded: bool)
    requires Kept(env, b, log, seeded) && MayPick(env, b, e) && Paid(b, b'.tried, b'.stale, b'.shed, e.id) && WentOn(e)
    requires e.kind == APIKey ==> b'.stale == b.stale && b'.shed == b.shed
    requires b'.apiKeyOnly == (b.apiKeyOnly || e.what.PrepFailed?)
    requires Tallied(b', log + [e])
    ensures Kept(env, b', log + [e], seeded)
  {
    LogGrows(log, e);
    var log' := log + [e];
    if e.what.PrepFailed? {
      assert log'[|log|].what.PrepFailed?;
    }
    assert forall i | 0 <= i < |log| :: log'[i] == log[i];
    forall id | id in env.kinds && env.kinds[id] == APIKey ensures id !in b'.stale && Sheds(b'.shed, id) == 0 {
    }
  }

  lemma KeptAtStart(env: Env, b: Books, seeded: bool)
    requires b == Books({}, {}, map[], 0, seeded, None, 0, 0)
    ensures Kept(env, b, [], seeded)
  {
  }

  lemma KeptIsBounded(env: Env, b: Books, log: seq<Event>, seeded: bool)
    requires Kept(env, b, log, seeded)
    ensures Bounded(env, log, seeded) && AllWentOn(log) && Tallied(b, log)
    ensures forall id :: Sheds(b.shed, id) <= SHED_RETRIES
    ensures forall id | id in env.kinds && env.kinds[id] == APIKey :: id !in b.stale
  {
  }

  // The attempt that ends the request comes on top of what was kept.
  lemma LastPickIsBounded(env: Env, b: Books, log: seq<Event>, e: Event, seeded: bool)
    requires Kept(env, b, log, seeded) && MayPick(env, b, e)
    ensures Bounded(env, log + [e], seeded)
    ensures forall i | 0 <= i < |log| :: WentOn((log + [e])[i])
  {
    LogGrows(log, e);
    var log' := log + [e];
    assert forall i | 0 <= i < |log| :: log'[i] == log[i];
  }

  // Every pick moves the loop towards its end: a second chance is used up, or a credential is tried.
  ghost predicate Progress(env: Env, b: Books, b': Books) {
    StaleLeft(env, b') < StaleLeft(env, b) ||
    (StaleLeft(env, b') == StaleLeft(env, b) &&
     (ShedLeft(env, b') < ShedLeft(env, b) ||
      (ShedLeft(env, b') == ShedLeft(env, b) && Untried(env, b') < Untried(env, b))))
  }

  lemma PickProgresses(env: Env, b: Books, b': Books, id: Id)
    requires Paid(b, b'.tried, b'.stale, b'.shed, id) && id in env.kinds
    ensures Progress(env, b, b')
  {
    assert StaleLeft(env, b') <= StaleLeft(env, b);
    assert ShedLeft(env, b') <= ShedLeft(env, b);
    if id in b'.stale - b.stale {
      assert id in StaleLeft(env, b) && id !in StaleLeft(env, b');
    } else {
      assert StaleLeft(env, b') == StaleLeft(env, b);
      if Sheds(b'.shed, id) > Sheds(b.shed, id) {
        var k := Sheds(b.shed, id);
        assert (id, k) in ShedLeft(env, b) && (id, k) !in ShedLeft(env, b');
      } else {
        assert ShedLeft(env, b') == ShedLeft(env, b);
        assert id in Untried(env, b) && id !in Untried(env, b');
        assert Untried(env, b') <= Untried(env, b);
      }
    }
  }

  // One round of the loop, in the shape its four branches share.
  lemma Advance(env: Env, b: Books, b': Books, log: seq<Event>, e: Event, seeded: bool)
    requires Kept(env, b, log, seeded) && MayPick(env, b, e) && Paid(b, b'.tried, b'.stale, b'.shed, e.id) && WentOn(e)
    requires e.kind == APIKey ==> b'.stale == b.stale && b'.shed == b.shed
    requires b'.oauth == b.oauth + One(e.kind == OAuth && !e.what.SkippedLimited?)
    requires e.what.SkippedLimited? ==> e.kind == APIKey
    requires b'.apiKeyOnly == (b.apiKeyOnly || e.what.PrepFailed?)
    requires b'.attempts == b.attempts + One(e.what.PrepFailed? || e.what.Forwarded?)
    requires b'.wait == (if e.what.ProbeRefused? then Shorter(b.wait, e.what.wait) else b.wait)
    requires b'.last == (if e.what.PrepFailed? then None
                         else if e.what.Forwarded? && e.what.out.deferred.Some? then e.what.out.deferred else b.last)
    ensures Kept(env, b', log + [e], seeded) && Progress(env, b, b')
  {
    LogGrows(log, e);
    PickKeeps(env, b, b', log, e, seeded);
    PickProgresses(env, b, b', e.id);
  }

  // A round that has picked a credential …
  ghost predicate Picked(env: Env, b: Books, log: seq<Event>, id: Id, seeded: bool) {
    Kept(env, b, log, seeded) && Recorded(env, log) && Remembers(env, b, log) && id in env.kinds &&
    MayPick(env, b, Event(id, env.kinds[id], Does(env, |log|, id)))
  }

  lemma AcquiredIsPicked(env: Env, b: Books, log: seq<Event>, id: Id, seeded: bool)
    requires Kept(env, b, log, seeded) && Recorded(env, log) && Remembers(env, b, log)
    requires Acquires(env.kinds, env.available(|log|) - env.unsupported, b.tried,
                      b.apiKeyOnly || b.oauth >= MAX_OAUTH, Some(id))
    ensures Picked(env, b, log, id, seeded) && id in env.kinds && id !in b.tried && Sheds(b.shed, id) <= SHED_RETRIES
  {
  }

  // … and has brought the books up to date.
  ghost predicate WentRound(env: Env, b: Books, b': Books, log: seq<Event>, id: Id, seeded: bool)
    requires id in env.kinds
  {
    var log' := log + [Event(id, env.kinds[id], Does(env, |log|, id))];
    Kept(env, b', log', seeded) && Recorded(env, log') && Remembers(env, b', log') && Progress(env, b, b')
  }

  lemma ExclusionIsRemembered(env: Env, b: Books, log: seq<Event>, e: Event)
    requires Remembers(env, b, log) && e.id !in b.tried && e.id in env.kinds && !e.what.Forwarded?
    ensures forall b': Books | b'.tried == b.tried + {e.id} && b'.stale == b.stale && b'.shed == b.shed ::
              Remembers(env, b', log + [e])
  {
    forall b': Books | b'.tried == b.tried + {e.id} && b'.stale == b.stale && b'.shed == b.shed
      ensures Remembers(env, b', log + [e])
    {
      RemembersMore(env, b, b', log, e);
    }
  }

  lemma UsesPays(env: Env, b: Books, tried: set<Id>, stale: set<Id>, shed: map<Id, nat>, e: Event)
    requires Uses(env, b, tried, stale, shed, e) && e.id !in b.tried && Sheds(b.shed, e.id) <= SHED_RETRIES
    ensures Paid(b, tried, stale, shed, e.id)
  {
  }

  lemma SkippingGoesRound(env: Env, b: Books, log: seq<Event>, id: Id, seeded: bool)
    requires Picked(env, b, log, id, seeded) && Does(env, |log|, id).SkippedLimited?
    ensures WentRound(env, b, b.(tried := b.tried + {id}), log, id, seeded)
  {
    var e := Event(id, env.kinds[id], Does(env, |log|, id));
    KeptIsBounded(env, b, log, seeded);
    ExclusionPays(b, id);
    RecordGrows(env, log, e);
    ExclusionIsRemembered(env, b, log, e);
    hide Paid, Kept, Recorded, Remembers;
    Advance(env, b, b.(tried := b.tried + {id}), log, e, seeded);
  }

  lemma FailedPreparationGoesRound(env: Env, b: Books, log: seq<Event>, id: Id, seeded: bool)
    requires Picked(env, b, log, id, seeded) && Does(env, |log|, id).PrepFailed?
    ensures WentRound(env, b, b.(tried := b.tried + {id}, oauth := b.oauth + 1, apiKeyOnly := true, last := None,
                                 attempts := b.attempts + 1), log, id, seeded)
  {
    var e := Event(id, env.kinds[id], Does(env, |log|, id));
    KeptIsBounded(env, b, log, seeded);
    ExclusionPays(b, id);
    RecordGrows(env, log, e);
    ExclusionIsRemembered(env, b, log, e);
    hide Paid, Kept, Recorded, Remembers;
    Advance(env, b, b.(tried := b.tried + {id}, oauth := b.oauth + 1, apiKeyOnly := true, last := None,
                       attempts := b.attempts + 1), log, e, seeded);
  }

  lemma RefusedProbeGoesRound(env: Env, b: Books, log: seq<Event>, id: Id, seeded: bool)
    requires Picked(env, b, log, id, seeded) && Does(env, |log|, id).ProbeRefused?
    ensures WentRound(env, b, b.(tried := b.tried + {id}, wait := Shorter(b.wait, Does(env, |log|, id).wait)),
                      log, id, seeded)
  {
    var e := Event(id, env.kinds[id], Does(env, |log|, id));
    KeptIsBounded(env, b, log, seeded);
    ExclusionPays(b, id);
    RecordGrows(env, log, e);
    ExclusionIsRemembered(env, b, log, e);
    hide Paid, Kept, Recorded, Remembers;
    Advance(env, b, b.(tried := b.tried + {id}, wait := Shorter(b.wait, e.what.wait)), log, e, seeded);
  }

  lemma ForwardGoesRound(env: Env, b: Books, b': Books, log: seq<Event>, id: Id, seeded: bool)
    requires Picked(env, b, log, id, seeded) && Does(env, |log|, id).Forwarded?
    requires WentOn(Event(id, env.kinds[id], Does(env, |log|, id)))
    requires Uses(env, b, b'.tried, b'.stale, b'.shed, Event(id, env.kinds[id], Does(env, |log|, id)))
    requires env.kinds[id] == APIKey ==> b'.stale == b.stale && b'.shed == b.shed
    requires b'.oauth == b.oauth + One(env.kinds[id] == OAuth) && b'.attempts == b.attempts + 1
    requires b'.apiKeyOnly == b.apiKeyOnly && b'.wait == b.wait
    requires var d := env.forward(|log|, id).deferred; b'.last == if d.Some? then d else b.last
    ensures WentRound(env, b, b', log, id, seeded)
  {
    var e := Event(id, env.kinds[id], Does(env, |log|, id));
    KeptIsBounded(env, b, log, seeded);
    RecordGrows(env, log, e);
    RemembersMore(env, b, b', log, e);
    UsesPays(env, b, b'.tried, b'.stale, b'.shed, e);
    hide Paid, Kept, Recorded, Remembers, Uses;
    Advance(env, b, b', log, e, seeded);
  }

  // The forward that ends the request.
  lemma LastForward(env: Env, b: Books, log: seq<Event>, id: Id, seeded: bool)
    requires Picked(env, b, log, id, seeded) && Does(env, |log|, id).Forwarded?
    ensures var log' := log + [Event(id, env.kinds[id], Does(env, |log|, id))];
      Bounded(env, log', seeded) && Recorded(env, log') && Attempts(log') == b.attempts + 1 &&
      forall i | 0 <= i < |log| :: WentOn(log'[i])
  {
    var e := Event(id, env.kinds[id], Does(env, |log|, id));
    KeptIsBounded(env, b, log, seeded);
    RecordGrows(env, log, e);
    LogGrows(log, e);
    LastPickIsBounded(env, b, log, e, seeded);
  }

  lemma EmptyPoolMeans(env: Env, n: nat, b: Books, log: seq<Event>, seeded: bool)
    requires Kept(env, b, log, seeded) && Remembers(env, b, log)
    requires Acquires(env.kinds, env.available(n) - env.unsupported, b.tried, b.apiKeyOnly ||
               b.oauth >= MAX_OAUTH, None)
    ensures NothingLeft(env, n, log, seeded)
  {
  }

  // The exclusions a round passes to the pool are those the record calls for.
  lemma ExcludesSpent(env: Env, b: Books, log: seq<Event>, seeded: bool)
    requires Kept(env, b, log, seeded) && Remembers(env, b, log)
    ensures b.tried == SpentIds(env, log) && (b.apiKeyOnly || b.oauth >= MAX_OAUTH <==> KeysOnly(log, seeded))
    ensures AllWentOn(log) && b.attempts == Attempts(log)
  {
  }

  lemma NothingTraced(env: Env, seeded: bool)
    ensures Traced(env, [], seeded) && !GaveUp(env, [])
  {
  }

  lemma LastWentOn(log: seq<Event>)
    requires AllWentOn(log)
    ensures forall i | 0 <= i < |log| :: WentOn(log[i])
  {
  }

  lemma TraceGrows(env: Env, log: seq<Event>, e: Event, seeded: bool)
    requires Traced(env, log, seeded) && PicksNext(env, log, e.id, seeded)
    ensures Traced(env, log + [e], seeded)
  {
    hide PicksNext;
    var log' := log + [e];
    forall i | 0 <= i < |log'| ensures PicksNext(env, log'[..i], log'[i].id, seeded) {
      assert log'[..i] == log[..i];
      if i == |log| {
        assert log[..i] == log;
      }
    }
  }

  // Whether the client's patience decides is told by the record.
  lemma GaveUpIs(env: Env, b: Books, log: seq<Event>, e: Event)
    requires Remembers(env, b, log)
    ensures GaveUp(env, log + [e]) <==>
      IsShed(env, e) && Sheds(b.shed, e.id) < SHED_RETRIES && !env.clientWaits(|log|)
  {
    assert (log + [e])[..|log|] == log;
  }

  // ---------------------------------------------------------------- the loop

  // After an attempt the upstream refused for reasons of its own, the same credential may be asked again:
  // once after a dead pooled socket, SHED_RETRIES times after a capacity refusal (`waits`).
  method SecondChances(id: Id, out: Outcome, tried0: set<Id>, stale0: set<Id>, shed0: map<Id, nat>)
    returns (tried: set<Id>, stale: set<Id>, shed: map<Id, nat>, waits: bool)
    ensures waits <==> out.shed && out.retry && Sheds(shed0, id) < SHED_RETRIES
    ensures tried == if (out.stale && out.retry && id !in stale0) || waits then tried0 - {id} else tried0
    ensures stale == if out.stale && out.retry then stale0 + {id} else stale0
    ensures forall x :: Sheds(shed, x) == Sheds(shed0, x) + One(x == id && waits)
    ensures !waits ==> shed == shed0
  {
    tried, stale, shed, waits := tried0, stale0, shed0, false;
    if out.stale && out.retry && id !in stale {
      stale := stale + {id};
      tried := tried - {id};
    }
    if out.shed && out.retry && Sheds(shed, id) < SHED_RETRIES {
      shed := shed[id := Sheds(shed, id) + 1];
      tried := tried - {id};
      waits := true;
    }
  }

  // One forward to the credential: the request is over, or goes on with the books brought up to date.
  method ForwardOnce(env: Env, n: nat, id: Id, ghost b: Books,
          tried0: set<Id>, stale0: set<Id>, shed0: map<Id, nat>, last0: Option<Deferred>)
    returns (end: Option<Reply>, out: Outcome, tried: set<Id>, stale: set<Id>, shed: map<Id, nat>,
        last: Option<Deferred>)
    requires Fair(env) && id in env.kinds && id !in b.tried && Sheds(b.shed, id) <= SHED_RETRIES
    requires tried0 == b.tried + {id} && stale0 == b.stale && shed0 == b.shed && last0 == b.last
    ensures out == env.forward(n, id)
    ensures end.Some? ==> end.value == Answered || end.value == ClientGone
    ensures var e := Event(id, env.kinds[id], Forwarded(out));
      var gone := IsShed(env, e) && Sheds(b.shed, id) < SHED_RETRIES && !env.clientWaits(n);
      (end == Some(ClientGone) <==> gone) && (end == Some(Answered) <==> !gone && !WentOn(e)) &&
      (end.None? ==> Uses(env, b, tried, stale, shed, e))
    ensures end.None? ==> last == if out.deferred.Some? then out.deferred else b.last
    ensures env.kinds[id] == APIKey ==> stale == b.stale && shed == b.shed
  {
    tried, stale, shed, last := tried0, stale0, shed0, last0;
    out := env.forward(n, id);
    if env.codex {
      var waits;
      tried, stale, shed, waits := SecondChances(id, out, tried, stale, shed);
      if waits && !env.clientWaits(n) {
        end := Some(ClientGone);
        return;
      }
    }
    if out.done || !out.retry {
      end := Some(Answered);
      return;
    }
    if out.deferred.Some? {
      last := out.deferred;
    }
    end := None;
  }

  lemma PickedIsRemembered(env: Env, b: Books, log: seq<Event>, id: Id, seeded: bool)
    requires Picked(env, b, log, id, seeded)
    ensures Remembers(env, b, log)
  {
  }

  // One round after its pick: what happens to the credential, and the loop's variables afterwards. `end` is
  // the request's answer if this was its last round.
  method TakePick(env: Env, n: nat, id: Id, b0: Books, ghost log: seq<Event>, ghost seeded: bool)
    returns (b: Books, what: What, end: Option<Reply>)
    requires Fair(env) && n == |log| && Picked(env, b0, log, id, seeded)
    requires id in env.kinds && id !in b0.tried && Sheds(b0.shed, id) <= SHED_RETRIES
    ensures what == Does(env, n, id)
    ensures end.None? ==> WentRound(env, b0, b, log, id, seeded)
    ensures end.Some? ==> what.Forwarded? && b.attempts == b0.attempts + 1
    ensures end.Some? ==> end.value == Answered || end.value == ClientGone
    ensures var e := Event(id, env.kinds[id], what);
      (end == Some(ClientGone) <==> GaveUp(env, log + [e])) &&
      (end == Some(Answered) <==> !GaveUp(env, log + [e]) && !WentOn(e))
  {
    PickedIsRemembered(env, b0, log, id, seeded);
    GaveUpIs(env, b0, log, Event(id, env.kinds[id], Does(env, n, id)));
    hide Fair, Picked, Paid, WentRound, Sheds, GaveUp, Remembers, Uses;
    var kind := env.kinds[id];
    b := b0.(tried := b0.tried + {id});
    if kind == APIKey && env.rateLimited(n, id) {
      SkippingGoesRound(env, b0, log, id, seeded);
      return b, SkippedLimited, None;
    }
    b := b.(attempts := b.attempts + 1);
    if kind != APIKey {
      b := b.(oauth := b.oauth + 1);
    }
    if !env.codex && kind == OAuth && !env.prepares(n, id) {
      FailedPreparationGoesRound(env, b0, log, id, seeded);
      return b.(apiKeyOnly := true, last := None), PrepFailed, None;
    }
    if kind == APIKey && env.probe(n, id).Refused? {
      RefusedProbeGoesRound(env, b0, log, id, seeded);
      var wait := env.probe(n, id).wait;
      if wait > 0 && (b.wait == 0 || wait < b.wait) {
        b := b.(wait := wait);
      }
      return b.(attempts := b.attempts - 1), ProbeRefused(wait), None;
    }
    var out, tried, stale, shed, last;
    end, out, tried, stale, shed, last := ForwardOnce(env, n, id, b0, b.tried, b.stale, b.shed, b.last);
    b := b.(tried := tried, stale := stale, shed := shed, last := last);
    what := Forwarded(out);
    if end.None? {
      ForwardGoesRound(env, b0, b, log, id, seeded);
    }
  }

  /** Serves one request. The loop has no bound of its own: it ends because every pick uses up a second
      chance or a credential. */
  method ForwardWithFailover(env: Env, seeded: bool) returns (reply: Reply, log: seq<Event>, attempts: nat)
    requires Fair(env)
    ensures Bounded(env, log, seeded) && attempts == Attempts(log) && Recorded(env, log) && Traced(env, log, seeded)
    ensures forall i | 0 <= i < |log| - 1 :: WentOn(log[i])
    ensures reply.ClientGone? <==> GaveUp(env, log)
    ensures reply.Answered? <==> log != [] && !WentOn(log[|log| - 1]) && !GaveUp(env, log)
    ensures !reply.Answered? && !reply.ClientGone? ==>
              AllWentOn(log) && reply.shown == LastDeferred(log) && (reply.TimedOut? <==> OutOfTime(env, log))
    ensures reply.Exhausted? ==> reply.retryAfter == LeastWait(log) && NothingLeft(env, |log|, log, seeded)
  {
    hide Kept, Recorded, Bounded, NothingLeft, Picks, OAuthPicks, LastDeferred, Attempts, LeastWait, Does;
    hide StaleLeft, ShedLeft, Untried, Acquire, Fair, Acquires, MayPick, Picked, Sheds;
    hide Remembers, Traced, GaveUp, SpentIds, KeysOnly, AllWentOn;
    var b := Books({}, {}, map[], 0, seeded, None, 0, 0);
    log := [];
    KeptAtStart(env, b, seeded);
    NothingRecorded(env);
    RemembersNothing(env, seeded);
    NothingTraced(env, seeded);
    while true
      invariant Kept(env, b, log, seeded) && Recorded(env, log) && Remembers(env, b, log)
      invariant Traced(env, log, seeded) && !GaveUp(env, log)
      decreases StaleLeft(env, b), ShedLeft(env, b), Untried(env, b)
    {
      KeptIsBounded(env, b, log, seeded);
      ExcludesSpent(env, b, log, seeded);
      LastWentOn(log);
      var n := |log|;
      if b.attempts > 0 && env.pastDeadline(n) {
        return TimedOut(b.last), log, b.attempts;
      }
      var only := b.apiKeyOnly || b.oauth >= MAX_OAUTH;
      var got := Acquire(env, n, b.tried, only);
      RecoveryKeepsTheContract(env, n, b.tried, only);
      if got.None? {
        EmptyPoolMeans(env, n, b, log, seeded);
        return Exhausted(b.last, b.wait), log, b.attempts;
      }
      var id := got.value;
      AcquiredIsPicked(env, b, log, id, seeded);
      var b', what, end := TakePick(env, n, id, b, log, seeded);
      var e := Event(id, env.kinds[id], what);
      TraceGrows(env, log, e, seeded);
      if end.Some? {
        LastForward(env, b, log, id, seeded);
        return end.value, log + [e], b'.attempts;
      }
      b, log := b', log + [e];
    }
  }
}
