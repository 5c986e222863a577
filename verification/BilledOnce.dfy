/** One request, two billers: the live charge of internal/saas/adapter/adapter.go under the request's key,
    and, if that reported an error, the recovery of cmd/server/reconcile_cmd.go under the row's key. */
module BilledOnce {
  import opened Bytes
  import opened Wallet
  import opened Debit
  import opened Reconcile

  // The live charge, whatever happens next, and a run of reconcile-charges. The request log names the user
  // only of a charge that was reported to succeed, so only a failed one is among the dropped rows.
  datatype History = History(
    live: Env, start: Ledger, req: Req, between: seq<Op>, recovery: Env, plan: seq<Req>, rowKey: string)

  function Charged(h: History): Debited {
    Retry(h.live, h.start, h.req, 0)
  }

  function AtRecovery(h: History): Ledger {
    PerformAll(Charged(h).ledger, h.between)
  }

  function Recovered(h: History): Ran {
    Charges(h.recovery, AtRecovery(h), h.plan)
  }

  // The two keys are the request's own: nobody else presents them.
  ghost predicate OwnKeys(h: History) {
    var key := TrimSpace(h.req.key);
    key != "" && h.rowKey != "" && key != h.rowKey && Unused(h, key) && Unused(h, h.rowKey) &&
    (forall i | 0 <= i < |h.plan| :: TrimSpace(h.plan[i].key) != key) &&
    (Charged(h).result.Ok? ==> forall i | 0 <= i < |h.plan| :: TrimSpace(h.plan[i].key) != h.rowKey)
  }

  ghost predicate Unused(h: History, key: string) {
    Find(h.start.rows, key).None? && FreeOf(h.between, key) &&
    (forall k :: FreeOf(h.live.traffic(k), key)) && forall k :: FreeOf(h.recovery.traffic(k), key)
  }

  predicate FreeOf(ops: seq<Op>, key: string) {
    forall i | 0 <= i < |ops| :: !UsesKey(ops[i], key)
  }

  ghost predicate OnLedger(l: Ledger, key: string) {
    Find(l.rows, key).Some?
  }

  // The run's own calls charged the key.
  ghost predicate Posted(p: Ran, key: string) {
    exists i :: 0 <= i < |p.posted| && p.posted[i].key == key
  }

  // ---------------------------------------------------------------- a key nobody presents stays free

  lemma {:induction false} RetryLeavesItAlone(env: Env, l: Ledger, req: Req, n: nat, key: string)
    requires n <= RETRIES && key != "" && key != TrimSpace(req.key) && Find(l.rows, key).None?
    requires forall k :: FreeOf(env.traffic(k), key)
    ensures Find(Retry(env, l, req, n).ledger.rows, key).None?
    decreases RETRIES - n
  {
    hide PerformAll, Call, Find, UsesKey;
    assert FreeOf(env.traffic(n), key);
    var l1 := PerformAll(l, env.traffic(n));
    TrafficLeavesItAlone(l, env.traffic(n), key);
    CallLeavesItAlone(l1, req, env.fate(n), key);
    if n < RETRIES {
      RetryLeavesItAlone(env, Call(l1, req, env.fate(n)).0, req, n + 1, key);
    }
  }

  lemma CallLeavesItAlone(l: Ledger, req: Req, fate: Fate, key: string)
    requires key != "" && key != TrimSpace(req.key) && Find(l.rows, key).None?
    ensures Find(Call(l, req, fate).0.rows, key).None?
  {
    hide Find, Idem;
    OtherKeysLeaveItAlone(l, Keyed(req, Charge), key);
  }

  // After a run a key is on the ledger only if it was before, or the run charged it.
  lemma RunWritesItsPosts(env: Env, l: Ledger, reqs: seq<Req>, key: string)
    requires key != "" && Find(l.rows, key).None? && forall k :: FreeOf(env.traffic(k), key)
    ensures OnLedger(Charges(env, l, reqs).ledger, key) <==> Posted(Charges(env, l, reqs), key)
  {
    hide *;
    var p := Charges(env, l, reqs);
    RunIsClean(env, l, reqs);
    PostsAreOnLedger(l, reqs, p, key);
    if OnLedger(p.ledger, key) {
      WrittenWasPosted(env, l, reqs, key);
    }
  }

  lemma PostsAreOnLedger(l: Ledger, reqs: seq<Req>, p: Ran, key: string)
    requires Clean(l, reqs, p)
    ensures Posted(p, key) ==> OnLedger(p.ledger, key)
  {
    hide Find, Asked;
  }

  lemma {:induction false} WrittenWasPosted(env: Env, l: Ledger, reqs: seq<Req>, key: string)
    requires key != "" && Find(l.rows, key).None? && forall k :: FreeOf(env.traffic(k), key)
    ensures OnLedger(Charges(env, l, reqs).ledger, key) ==> Posted(Charges(env, l, reqs), key)
    decreases |reqs|
  {
    hide ChargeNext, Find, FreeOf;
    if reqs != [] {
      var fewer, req := reqs[..|reqs| - 1], reqs[|reqs| - 1];
      var p := Charges(env, l, fewer);
      WrittenWasPosted(env, l, fewer, key);
      if p.failed.None? {
        ChargeWritesItsPost(env, p, req, |fewer|, key);
      }
    }
  }

  lemma ChargeWritesItsPost(env: Env, p: Ran, req: Req, n: nat, key: string)
    requires key != "" && FreeOf(env.traffic(n), key) && (OnLedger(p.ledger, key) ==> Posted(p, key))
    ensures OnLedger(ChargeNext(env, p, req, n).ledger, key) ==> Posted(ChargeNext(env, p, req, n), key)
  {
    var l1 := PerformAll(p.ledger, env.traffic(n));
    var p' := ChargeNext(env, p, req, n);
    var l2 := Call(l1, req, env.fate(n)).0;
    assert p'.posted == p.posted + NewRows(l1, l2) && p'.ledger == l2;
    CallPosts(l1, req, env.fate(n));
    hide PerformAll, Call, Find, NewRows, UsesKey, ChargeNext;
    if Posted(p, key) {
      var i :| 0 <= i < |p.posted| && p.posted[i].key == key;
      assert p'.posted[i].key == key;
    } else {
      TrafficLeavesItAlone(p.ledger, env.traffic(n), key);
      if key == TrimSpace(req.key) {
        if l2 != l1 {
          assert p'.posted[|p.posted|].key == key;
        }
      } else {
        CallLeavesItAlone(l1, req, env.fate(n), key);
      }
    }
  }

  // ---------------------------------------------------------------- which calls of a run take money

  // The ledger that the call after `done` finds, provided the run gets that far.
  function Facing(env: Env, l: Ledger, done: seq<Req>): Ledger
    decreases |done|
  {
    var n := |done|;
    var l1 := if n == 0 then l else Call(Facing(env, l, done[..n - 1]), done[n - 1], env.fate(n - 1)).0;
    PerformAll(l1, env.traffic(n))
  }

  // The request is in order, and its key is free or has settled the same charge before.
  predicate Accepted(l: Ledger, req: Req) {
    Checked(req).None? &&
    match Find(l.rows, TrimSpace(req.key))
    case Some(i) => SameMovement(l.rows[i], req, Charge)
    case None => req.workspace in l.balances
  }

  predicate Passes(env: Env, l: Ledger, done: seq<Req>, i: nat)
    requires i < |done|
  {
    env.fate(i).Acked? && Accepted(Facing(env, l, done[..i]), done[i])
  }

  ghost predicate GetsThrough(env: Env, l: Ledger, done: seq<Req>) {
    forall i | 0 <= i < |done| :: Passes(env, l, done, i)
  }

  // The workspace exists, and its balance is above the overdraft floor if there is one.
  predicate Takes(l: Ledger, req: Req) {
    Checked(req).None? && req.workspace in l.balances &&
    (req.maxOverdraft > 0.0 ==> l.balances[req.workspace] > -req.maxOverdraft)
  }

  ghost predicate TakenBy(env: Env, l: Ledger, reqs: seq<Req>, j: nat, key: string)
    requires j < |reqs|
  {
    TrimSpace(reqs[j].key) == key && GetsThrough(env, l, reqs[..j]) && !env.fate(j).RolledBack? &&
    Takes(Facing(env, l, reqs[..j]), reqs[j])
  }

  // Some call presents the key, is reached, commits and has money to take.
  ghost predicate IsTaken(env: Env, l: Ledger, reqs: seq<Req>, key: string) {
    exists j :: 0 <= j < |reqs| && TakenBy(env, l, reqs, j, key)
  }

  lemma CallIsAccepted(l: Ledger, req: Req, fate: Fate)
    ensures Call(l, req, fate).1.Ok? <==> fate.Acked? && Accepted(l, req)
  {
  }

  lemma CallTakes(l: Ledger, req: Req, fate: Fate)
    ensures Call(l, req, fate).0 != l <==>
      Find(l.rows, TrimSpace(req.key)).None? && !fate.RolledBack? && Takes(l, req)
  {
    CallBills(l, req, fate);
  }

  // A run goes on exactly as long as its calls are acknowledged and accepted.
  lemma {:induction false} RunGoesOnExactly(env: Env, l: Ledger, reqs: seq<Req>)
    ensures var p := Charges(env, l, reqs);
      (p.failed.None? <==> GetsThrough(env, l, reqs)) &&
      (p.failed.None? ==> Facing(env, l, reqs) == PerformAll(p.ledger, env.traffic(|reqs|)))
    decreases |reqs|
  {
    hide *;
    if reqs == [] {
      NothingFaced(env, l);
    } else {
      var n := |reqs| - 1;
      var fewer, req := reqs[..n], reqs[n];
      RunGoesOnExactly(env, l, fewer);
      CallIsAccepted(Facing(env, l, fewer), req, env.fate(n));
      ThroughMore(env, l, reqs);
      ChargesMore(env, l, reqs);
    }
  }

  lemma NothingFaced(env: Env, l: Ledger)
    ensures Facing(env, l, []) == PerformAll(l, env.traffic(0)) && GetsThrough(env, l, [])
    ensures Charges(env, l, []).failed.None? && Charges(env, l, []).ledger == l
  {
  }

  lemma ThroughMore(env: Env, l: Ledger, reqs: seq<Req>)
    requires reqs != []
    ensures var n := |reqs| - 1; var fewer, req := reqs[..n], reqs[n];
      (GetsThrough(env, l, reqs) <==>
         GetsThrough(env, l, fewer) && env.fate(n).Acked? && Accepted(Facing(env, l, fewer), req)) &&
      Facing(env, l, reqs) == PerformAll(Call(Facing(env, l, fewer), req, env.fate(n)).0, env.traffic(n + 1))
  {
    hide PerformAll, Call, Accepted;
    var n := |reqs| - 1;
    var fewer := reqs[..n];
    assert Facing(env, l, reqs) == PerformAll(Call(Facing(env, l, fewer), reqs[n], env.fate(n)).0, env.traffic(n + 1));
    hide Facing;
    forall i | 0 <= i < n ensures Passes(env, l, fewer, i) <==> Passes(env, l, reqs, i) {
      assert fewer[..i] == reqs[..i];
    }
    assert Passes(env, l, reqs, n) <==> env.fate(n).Acked? && Accepted(Facing(env, l, fewer), reqs[n]);
    hide Passes;
  }

  lemma ChargesMore(env: Env, l: Ledger, reqs: seq<Req>)
    requires reqs != []
    ensures var n := |reqs| - 1; var p, p' := Charges(env, l, reqs[..n]), Charges(env, l, reqs);
      if p.failed.Some? then p' == p
      else
        var (l', seen) := Call(PerformAll(p.ledger, env.traffic(n)), reqs[n], env.fate(n));
        p'.ledger == l' && (p'.failed.None? <==> seen.Ok?)
  {
    hide PerformAll, Call;
  }

  // A run charges a key nobody else presents exactly if one of its calls takes money for it.
  lemma {:induction false} RunTakesExactly(env: Env, l: Ledger, reqs: seq<Req>, key: string)
    requires key != "" && Find(l.rows, key).None? && forall k :: FreeOf(env.traffic(k), key)
    ensures Posted(Charges(env, l, reqs), key) <==> IsTaken(env, l, reqs, key)
    decreases |reqs|
  {
    hide *;
    if reqs == [] {
      NothingIsTaken(env, l, key);
    } else {
      var n := |reqs| - 1;
      var fewer := reqs[..n];
      RunTakesExactly(env, l, fewer, key);
      RunWritesItsPosts(env, l, fewer, key);
      RunGoesOnExactly(env, l, fewer);
      TakenMore(env, l, reqs, key);
      PostsMore(env, l, reqs, key);
    }
  }

  lemma NothingIsTaken(env: Env, l: Ledger, key: string)
    ensures !Posted(Charges(env, l, []), key) && !IsTaken(env, l, [], key)
  {
  }

  lemma TakenMore(env: Env, l: Ledger, reqs: seq<Req>, key: string)
    requires reqs != []
    ensures var n := |reqs| - 1;
      IsTaken(env, l, reqs, key) <==> IsTaken(env, l, reqs[..n], key) || TakenBy(env, l, reqs, n, key)
  {
    hide GetsThrough, Takes, Facing;
    var n := |reqs| - 1;
    forall j | 0 <= j < n ensures TakenBy(env, l, reqs, j, key) <==> TakenBy(env, l, reqs[..n], j, key) {
      assert reqs[..n][..j] == reqs[..j];
    }
    hide TakenBy;
    if IsTaken(env, l, reqs[..n], key) {
      var j :| 0 <= j < n && TakenBy(env, l, reqs[..n], j, key);
      assert TakenBy(env, l, reqs, j, key);
    }
  }

  lemma PostsMore(env: Env, l: Ledger, reqs: seq<Req>, key: string)
    requires key != "" && reqs != [] && FreeOf(env.traffic(|reqs| - 1), key)
    requires var n := |reqs| - 1; var p := Charges(env, l, reqs[..n]);
      (OnLedger(p.ledger, key) <==> Posted(p, key)) && (p.failed.None? <==> GetsThrough(env, l, reqs[..n])) &&
      (p.failed.None? ==> Facing(env, l, reqs[..n]) == PerformAll(p.ledger, env.traffic(n)))
    ensures var n := |reqs| - 1; var p := Charges(env, l, reqs[..n]);
      Posted(Charges(env, l, reqs), key) <==> Posted(p, key) || TakenBy(env, l, reqs, n, key)
  {
    hide PerformAll, Call, Find, UsesKey, Takes, Facing, GetsThrough, Posted;
    var n := |reqs| - 1;
    var p, req := Charges(env, l, reqs[..n]), reqs[n];
    if p.failed.None? {
      var l1 := PerformAll(p.ledger, env.traffic(n));
      var l2 := Call(l1, req, env.fate(n)).0;
      CallTakes(l1, req, env.fate(n));
      CallPosts(l1, req, env.fate(n));
      RowsArePermanent(p.ledger, env.traffic(n));
      if OnLedger(p.ledger, key) {
        FindKeeps(p.ledger.rows, l1.rows, key);
      } else {
        TrafficLeavesItAlone(p.ledger, env.traffic(n), key);
      }
      PostedMore(p, Charges(env, l, reqs), NewRows(l1, l2), key);
    }
  }

  lemma PostedMore(p: Ran, p': Ran, more: seq<Row>, key: string)
    requires p'.posted == p.posted + more && |more| <= 1
    ensures Posted(p', key) <==> Posted(p, key) || (|more| == 1 && more[0].key == key)
  {
    if Posted(p, key) {
      var i :| 0 <= i < |p.posted| && p.posted[i].key == key;
      assert p'.posted[i].key == key;
    }
    if |more| == 1 {
      assert p'.posted[|p.posted|] == more[0];
    }
  }

  // ---------------------------------------------------------------- end to end

  lemma LiveKey(h: History, opening: map<int, real>)
    requires OwnKeys(h) && Balanced(h.start, opening)
    ensures var d, p := Charged(h), Recovered(h); var key := TrimSpace(h.req.key);
      (OnLedger(p.ledger, key) <==> d.posted == 1) && d.posted <= 1
  {
    hide Find, UsesKey, Retry, Charges, PerformAll;
    var key := TrimSpace(h.req.key);
    var d := Charged(h);
    forall k, i | 0 <= i < |h.live.traffic(k)| ensures !UsesKey(h.live.traffic(k)[i], key) {
      assert FreeOf(h.live.traffic(k), key);
    }
    SuccessMovedTheMoney(h.live, h.start, h.req, 0);
    AtMostOnce(h.live, h.start, h.req, 0);
    var l1 := PerformAll(d.ledger, h.between);
    RunIsClean(h.recovery, l1, h.plan);
    RowsArePermanent(d.ledger, h.between);
    if d.posted == 1 {
      FindKeeps(d.ledger.rows, Recovered(h).ledger.rows, key);
    } else {
      TrafficLeavesItAlone(d.ledger, h.between, key);
      RunWritesItsPosts(h.recovery, l1, h.plan, key);
      if OnLedger(Recovered(h).ledger, key) {
        NotPlanned(h.recovery, l1, h.plan, key);
      }
    }
  }

  lemma NotPlanned(env: Env, l: Ledger, reqs: seq<Req>, key: string)
    requires forall i | 0 <= i < |reqs| :: TrimSpace(reqs[i].key) != key
    ensures !Posted(Charges(env, l, reqs), key)
  {
    hide Charges, Find;
    RunIsClean(env, l, reqs);
    var p := Charges(env, l, reqs);
    forall i | 0 <= i < |p.posted| ensures p.posted[i].key != key {
      assert Asked(reqs, p.posted[i]);
    }
  }

  // The recovery settles the dropped row exactly if one of its calls takes money for it, and a charge that
  // was reported to succeed is never recovered.
  lemma RecoveredKey(h: History)
    requires OwnKeys(h)
    ensures OnLedger(Recovered(h).ledger, h.rowKey) <==> IsTaken(h.recovery, AtRecovery(h), h.plan, h.rowKey)
    ensures Charged(h).result.Ok? ==> !OnLedger(Recovered(h).ledger, h.rowKey)
  {
    hide Find, UsesKey, Retry, Charges, PerformAll, IsTaken;
    var d := Charged(h);
    RetryLeavesItAlone(h.live, h.start, h.req, 0, h.rowKey);
    TrafficLeavesItAlone(d.ledger, h.between, h.rowKey);
    RunWritesItsPosts(h.recovery, PerformAll(d.ledger, h.between), h.plan, h.rowKey);
    RunTakesExactly(h.recovery, PerformAll(d.ledger, h.between), h.plan, h.rowKey);
    if d.result.Ok? {
      NotPlanned(h.recovery, PerformAll(d.ledger, h.between), h.plan, h.rowKey);
    }
  }

  // A request is billed twice exactly if the live charge's write lost its acknowledgement for good, so that
  // an error was reported although the money had moved, and a call of the recovery for the dropped row was
  // reached, committed, and found the balance above the floor.
  lemma BilledTwiceExactly(h: History, opening: map<int, real>)
    requires OwnKeys(h) && Balanced(h.start, opening)
    ensures var p := Recovered(h);
      OnLedger(p.ledger, TrimSpace(h.req.key)) && OnLedger(p.ledger, h.rowKey) <==>
        LostForGood(h.live, h.start, h.req, 0) && IsTaken(h.recovery, AtRecovery(h), h.plan, h.rowKey)
  {
    LiveKey(h, opening);
    RecoveredKey(h);
    ErrorMovedMoneyExactly(h.live, h.start, h.req, 0, opening);
    hide OwnKeys, OnLedger, Posted, LostForGood, Balanced, Recovered, Retry, IsTaken, AtRecovery;
  }

  // It happens: the first call commits and its acknowledgement is lost, and the retries fail.
  function LossyFate(n: nat): Fate {
    if n == 0 then AckLost else RolledBack
  }

  lemma LostAcknowledgementIsReportedAsFailure()
    ensures var start := Ledger(map[1 := 10.0], []);
            var d := Retry(Env(n => [], LossyFate), start, Req("k", 1, 7, 2.0, 0.0), 0);
      d.result == Err(Transient) && d.posted == 1 && d.ledger.rows == [Row(1, 7, Charge, -2.0, "k")]
  {
    var env, req := Env(n => [], LossyFate), Req("k", 1, 7, 2.0, 0.0);
    var start := Ledger(map[1 := 10.0], []);
    TrimK();
    var row := Row(1, 7, Charge, -2.0, "k");
    var after := Post(start, row);
    assert after.rows == [row];
    assert Call(start, req, AckLost) == (after, Err(Transient));
    assert Call(after, req, RolledBack) == (after, Err(Transient));
    FailingRetry(env, after, req, 1);
  }

  lemma TrimK()
    ensures TrimSpace("k") == "k"
  {
    assert TrimLeft("k") == "k" && TrimRight("k") == "k";
  }

  lemma {:induction false} FailingRetry(env: Env, l: Ledger, req: Req, n: nat)
    requires n <= RETRIES && Checked(req).None?
    requires forall k: nat :: env.traffic(k) == [] && (k >= n ==> env.fate(k) == RolledBack)
    ensures var d := Retry(env, l, req, n); d.result == Err(Transient) && d.posted == 0 && d.ledger == l
    decreases RETRIES - n
  {
    assert env.traffic(n) == [] && PerformAll(l, []) == l;
    if n < RETRIES {
      FailingRetry(env, l, req, n + 1);
    }
  }
}
