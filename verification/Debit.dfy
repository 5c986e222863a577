/** Adapter.debit of internal/saas/adapter/adapter.go: a charge retried over lost acknowledgements and
    failed transactions, while the rest of the traffic goes on charging and topping up. */
module Debit {
  import opened Bytes
  import opened Wallet

  // Before call n the ledger serves traffic(n); fate(n) is what becomes of the call.
  datatype Env = Env(traffic: nat -> seq<Op>, fate: nat -> Fate)

  const RETRIES: nat := 3   // the length of chargeRetryBackoff

  // `told` is what the calls answered, in order; `posted` counts the ledger rows they wrote.
  datatype Debited = Debited(
    ledger: Ledger, result: Result<real>, calls: nat, told: seq<Result<Moved>>, posted: nat)

  predicate Final(e: Failure) {
    e == NotFound || e == IdemConflict
  }

  // One ChargeWorkspaceIdem: what the ledger becomes and what the caller is told.
  function Call(l: Ledger, req: Req, fate: Fate): (Ledger, Result<Moved>) {
    (if fate.RolledBack? then l else Idem(l, req, Charge).ledger, Seen(l, req, Charge, fate))
  }

  function Retry(env: Env, l: Ledger, req: Req, n: nat): Debited
    requires n <= RETRIES
    decreases RETRIES - n
  {
    var l1 := PerformAll(l, env.traffic(n));
    var (l2, seen) := Call(l1, req, env.fate(n));
    var posted := if l2 == l1 then 0 else 1;
    match seen
    case Ok(moved) => Debited(l2, Ok(moved.charged), n + 1, [seen], posted)
    case Err(e) =>
      if Final(e) || n == RETRIES then Debited(l2, Err(e), n + 1, [seen], posted)
      else
        var later := Retry(env, l2, req, n + 1);
        later.(told := [seen] + later.told, posted := later.posted + posted)
  }

  // The movement of this debit, as the ledger has it.
  ghost predicate Billed(l: Ledger, req: Req, amount: real) {
    match Find(l.rows, TrimSpace(req.key))
    case None => amount == 0.0
    case Some(i) => SameMovement(l.rows[i], req, Charge) && amount == Abs(l.rows[i].amount)
  }

  lemma {:induction false} FindKeeps(rows: seq<Row>, rows': seq<Row>, key: string)
    requires rows <= rows' && Find(rows, key).Some?
    ensures Find(rows', key).Some?
  {
    assert rows'[Find(rows, key).value].key == key;
  }

  // A key that is on the ledger stays there, so nothing more is written under it.
  lemma {:induction false} SettledKeyIsNotBilledAgain(env: Env, l: Ledger, req: Req, n: nat)
    requires n <= RETRIES && Find(l.rows, TrimSpace(req.key)).Some?
    ensures Retry(env, l, req, n).posted == 0
    decreases RETRIES - n
  {
    hide PerformAll, Find, Call, Grows, Billed;
    var l1 := PerformAll(l, env.traffic(n));
    RowsArePermanent(l, env.traffic(n));
    FindKeeps(l.rows, l1.rows, TrimSpace(req.key));
    CallBills(l1, req, env.fate(n));
    if n < RETRIES {
      SettledKeyIsNotBilledAgain(env, l1, req, n + 1);
    }
  }

  lemma CallBills(l: Ledger, req: Req, fate: Fate)
    ensures var (l', seen) := Call(l, req, fate);
      Grows(l, l') && (fate.Acked? || seen.Err?) &&
      (l' != l ==> Find(l.rows, TrimSpace(req.key)).None? && Find(l'.rows, TrimSpace(req.key)).Some?) &&
      (seen.Ok? ==> Billed(l', req, seen.value.charged)) &&
      (seen == Err(NotFound) ==> l' == l && Find(l.rows, TrimSpace(req.key)).None?)
  {
    OperationGrows(l, Keyed(req, Charge));
    if Checked(req).None? && Find(l.rows, TrimSpace(req.key)).None? && req.workspace in l.balances {
      var moved := ClampCharge(l.balances[req.workspace], req.amount, req.maxOverdraft);
      var rows := Idem(l, req, Charge).ledger.rows;
      if moved != 0.0 {
        assert rows[|rows| - 1] == Row(req.workspace, req.user, Charge, -moved, TrimSpace(req.key));
      }
    }
  }

  lemma CallRespectsFloor(l: Ledger, req: Req, fate: Fate, ws: int)
    requires req.maxOverdraft > 0.0 && ws in l.balances
    ensures ws in Call(l, req, fate).0.balances
    ensures Call(l, req, fate).0.balances[ws] >= Least(l.balances[ws], -req.maxOverdraft)
  {
    OperationKeepsFloor(l, Keyed(req, Charge), req.maxOverdraft, ws);
  }

  predicate Retried(seen: Result<Moved>) {
    seen.Err? && !Final(seen.error)
  }

  // No call follows a success or a final refusal, a failed one is repeated until the retries are used up,
  // and the last answer is what the caller gets.
  lemma {:induction false} LastAnswerCounts(env: Env, l: Ledger, req: Req, n: nat)
    requires n <= RETRIES
    ensures var d := Retry(env, l, req, n); var last := |d.told| - 1;
      0 <= last && n + |d.told| == d.calls <= RETRIES + 1 &&
      (forall i | 0 <= i < last :: Retried(d.told[i])) &&
      (Retried(d.told[last]) ==> d.calls == RETRIES + 1) &&
      d.result == if d.told[last].Ok? then Ok(d.told[last].value.charged) else Err(d.told[last].error)
    decreases RETRIES - n
  {
    hide PerformAll, Call;
    var l1 := PerformAll(l, env.traffic(n));
    var (l2, seen) := Call(l1, req, env.fate(n));
    if Retried(seen) && n < RETRIES {
      LastAnswerCounts(env, l2, req, n + 1);
    }
  }

  // However the calls fail, this debit writes one ledger row at most; and a success reports the amount of
  // the key's row, or zero when the floor left nothing to take and the key is still unclaimed.
  lemma {:induction false} AtMostOnce(env: Env, l: Ledger, req: Req, n: nat)
    requires n <= RETRIES
    ensures var d := Retry(env, l, req, n);
      d.posted <= 1 && n < d.calls <= RETRIES + 1 &&
      (d.result.Ok? ==> Billed(d.ledger, req, d.result.value)) &&
      (d.result == Err(NotFound) ==> Find(d.ledger.rows, TrimSpace(req.key)).None? && d.posted == 0) &&
      (d.posted == 1 ==> Find(d.ledger.rows, TrimSpace(req.key)).Some?) &&
      (d.result.Err? && !Final(d.result.error) ==> d.calls == RETRIES + 1)
    decreases RETRIES - n
  {
    hide PerformAll, Call, Find, Billed, Grows;
    var l1 := PerformAll(l, env.traffic(n));
    CallBills(l1, req, env.fate(n));
    var (l2, seen) := Call(l1, req, env.fate(n));
    if seen.Err? && !Final(seen.error) && n < RETRIES {
      AtMostOnce(env, l2, req, n + 1);
      if l2 != l1 {
        SettledKeyIsNotBilledAgain(env, l2, req, n + 1);
        StillSettled(env, l2, req, n + 1);
      }
    }
  }

  lemma {:induction false} StillSettled(env: Env, l: Ledger, req: Req, n: nat)
    requires n <= RETRIES
    ensures l.rows <= Retry(env, l, req, n).ledger.rows
    ensures Find(l.rows, TrimSpace(req.key)).Some? ==> Find(Retry(env, l, req, n).ledger.rows, TrimSpace(req.key)).Some?
    decreases RETRIES - n
  {
    hide PerformAll, Call, Find, Billed;
    var l1 := PerformAll(l, env.traffic(n));
    RowsArePermanent(l, env.traffic(n));
    CallBills(l1, req, env.fate(n));
    var l2 := Call(l1, req, env.fate(n)).0;
    assert l1.rows <= l2.rows;
    if n < RETRIES {
      StillSettled(env, l2, req, n + 1);
    }
    if Find(l.rows, TrimSpace(req.key)).Some? {
      FindKeeps(l.rows, Retry(env, l, req, n).ledger.rows, TrimSpace(req.key));
    }
  }

  predicate UsesKey(op: Op, key: string) {
    op.Keyed? && TrimSpace(op.req.key) == key
  }

  lemma OtherKeysLeaveItAlone(l: Ledger, op: Op, key: string)
    requires key != "" && Find(l.rows, key).None? && !UsesKey(op, key)
    ensures Find(Perform(l, op).rows, key).None?
  {
    var l' := Perform(l, op);
    if l' != l {
      assert l'.rows[..|l'.rows| - 1] == l.rows;
    }
  }

  lemma {:induction false} TrafficLeavesItAlone(l: Ledger, ops: seq<Op>, key: string)
    requires key != "" && Find(l.rows, key).None?
    requires forall i | 0 <= i < |ops| :: !UsesKey(ops[i], key)
    ensures Find(PerformAll(l, ops).rows, key).None?
    decreases |ops|
  {
    hide Perform, Find;
    if ops != [] {
      OtherKeysLeaveItAlone(l, ops[0], key);
      TrafficLeavesItAlone(Perform(l, ops[0]), ops[1..], key);
    }
  }

  // When the key is this debit's own, the ledger has a row for it exactly if one of the calls wrote it:
  // so a success moved the amount it reports, once.
  lemma {:induction false} SuccessMovedTheMoney(env: Env, l: Ledger, req: Req, n: nat)
    requires n <= RETRIES && TrimSpace(req.key) != "" && Find(l.rows, TrimSpace(req.key)).None?
    requires forall k, i | 0 <= i < |env.traffic(k)| :: !UsesKey(env.traffic(k)[i], TrimSpace(req.key))
    ensures var d := Retry(env, l, req, n);
      (d.posted == 1 <==> Find(d.ledger.rows, TrimSpace(req.key)).Some?) &&
      (d.result.Ok? ==> Billed(d.ledger, req, d.result.value))
    decreases RETRIES - n
  {
    AtMostOnce(env, l, req, n);
    hide PerformAll, Call, Find, Billed, Grows, UsesKey;
    var l1 := PerformAll(l, env.traffic(n));
    TrafficLeavesItAlone(l, env.traffic(n), TrimSpace(req.key));
    CallBills(l1, req, env.fate(n));
    var l2 := Call(l1, req, env.fate(n)).0;
    if l2 == l1 && n < RETRIES {
      SuccessMovedTheMoney(env, l2, req, n + 1);
    } else if n < RETRIES {
      StillSettled(env, l2, req, n + 1);
      SettledKeyIsNotBilledAgain(env, l2, req, n + 1);
    }
  }

  // The call that wrote the row lost its acknowledgement, and so did, or failed, every call after it.
  predicate LostForGood(env: Env, l: Ledger, req: Req, n: nat)
    requires n <= RETRIES
    decreases RETRIES - n
  {
    var l1 := PerformAll(l, env.traffic(n));
    var (l2, seen) := Call(l1, req, env.fate(n));
    if l2 != l1 then env.fate(n).AckLost? && forall j | n < j <= RETRIES :: !env.fate(j).Acked?
    else seen.Err? && !Final(seen.error) && n < RETRIES && LostForGood(env, l2, req, n + 1)
  }

  // A call on a settled key succeeds if it is acknowledged, and otherwise fails for a while.
  lemma SettledCall(l: Ledger, req: Req, fate: Fate, i: nat)
    requires Checked(req).None? && Find(l.rows, TrimSpace(req.key)) == Some(i) && SameMovement(l.rows[i], req, Charge)
    ensures var (l', seen) := Call(l, req, fate);
      l' == l && (fate.Acked? ==> seen.Ok?) && (!fate.Acked? ==> seen == Err(Transient)) && !Final(Transient)
  {
  }

  // One round of the retry, spelled out.
  lemma RetryIs(env: Env, l: Ledger, req: Req, n: nat)
    requires n <= RETRIES
    ensures var l1 := PerformAll(l, env.traffic(n)); var (l2, seen) := Call(l1, req, env.fate(n));
      var d := Retry(env, l, req, n); var posted := if l2 == l1 then 0 else 1;
      if seen.Ok? || Final(seen.error) || n == RETRIES then
        d.posted == posted && d.result == if seen.Ok? then Ok(seen.value.charged) else Err(seen.error)
      else
        d.posted == Retry(env, l2, req, n + 1).posted + posted && d.result == Retry(env, l2, req, n + 1).result
  {
    hide PerformAll, Call;
  }

  lemma LostForGoodIs(env: Env, l: Ledger, req: Req, n: nat)
    requires n <= RETRIES
    ensures var l1 := PerformAll(l, env.traffic(n)); var (l2, seen) := Call(l1, req, env.fate(n));
      LostForGood(env, l, req, n) <==>
        if l2 != l1 then env.fate(n).AckLost? && forall j | n < j <= RETRIES :: !env.fate(j).Acked?
        else seen.Err? && !Final(seen.error) && n < RETRIES && LostForGood(env, l2, req, n + 1)
  {
    hide PerformAll, Call;
  }

  lemma StaysFound(rows: seq<Row>, rows': seq<Row>, key: string, i: nat)
    requires rows <= rows' && UniqueKeys(rows') && key != "" && Find(rows, key) == Some(i)
    ensures Find(rows', key) == Some(i) && rows'[i] == rows[i]
  {
    assert rows'[i].key == key;
  }

  lemma {:induction false} SettledRetry(env: Env, l: Ledger, req: Req, n: nat, i: nat, opening: map<int, real>)
    requires n <= RETRIES && Balanced(l, opening) && Checked(req).None?
    requires Find(l.rows, TrimSpace(req.key)) == Some(i) && SameMovement(l.rows[i], req, Charge)
    ensures Retry(env, l, req, n).result.Err? <==> forall j | n <= j <= RETRIES :: !env.fate(j).Acked?
    decreases RETRIES - n
  {
    hide *;
    var l1 := PerformAll(l, env.traffic(n));
    RowsArePermanent(l, env.traffic(n));
    MoneyIsConserved(l, env.traffic(n), opening);
    BalancedKeys(l1, opening);
    KeyIsReal(req);
    StaysFound(l.rows, l1.rows, TrimSpace(req.key), i);
    SettledCall(l1, req, env.fate(n), i);
    RetryIs(env, l, req, n);
    if n < RETRIES && !env.fate(n).Acked? {
      SettledRetry(env, l1, req, n + 1, i, opening);
    }
  }

  lemma BalancedKeys(l: Ledger, opening: map<int, real>)
    requires Balanced(l, opening)
    ensures UniqueKeys(l.rows)
  {
  }

  lemma KeyIsReal(req: Req)
    requires Checked(req).None?
    ensures TrimSpace(req.key) != ""
  {
  }

  lemma CallWrites(l: Ledger, req: Req, fate: Fate)
    requires Call(l, req, fate).0 != l
    ensures var (l', seen) := Call(l, req, fate);
      Checked(req).None? && !fate.RolledBack? && !Final(Transient) &&
      (fate.Acked? ==> seen.Ok?) && (fate.AckLost? ==> seen == Err(Transient)) &&
      Find(l'.rows, TrimSpace(req.key)) == Some(|l.rows|) && |l.rows| < |l'.rows| &&
      SameMovement(l'.rows[|l.rows|], req, Charge)
  {
    CallBills(l, req, fate);
  }

  // Exactly when an error is reported although the money has moved.
  lemma {:induction false} ErrorMovedMoneyExactly(env: Env, l: Ledger, req: Req, n: nat, opening: map<int, real>)
    requires n <= RETRIES && Balanced(l, opening)
    ensures var d := Retry(env, l, req, n); d.result.Err? && d.posted == 1 <==> LostForGood(env, l, req, n)
    decreases RETRIES - n
  {
    hide *;
    var l1 := PerformAll(l, env.traffic(n));
    var (l2, seen) := Call(l1, req, env.fate(n));
    MoneyIsConserved(l, env.traffic(n), opening);
    CallBills(l1, req, env.fate(n));
    GrowthKeepsBalance(l1, l2, opening);
    if l2 != l1 {
      CallWrites(l1, req, env.fate(n));
    }
    RetryIs(env, l, req, n);
    LostForGoodIs(env, l, req, n);
    if n < RETRIES && seen.Err? && !Final(seen.error) {
      if l2 == l1 {
        ErrorMovedMoneyExactly(env, l2, req, n + 1, opening);
      } else {
        SettledRetry(env, l2, req, n + 1, |l1.rows|, opening);
        SettledKeyIsNotBilledAgain(env, l2, req, n + 1);
      }
    }
  }

  // What the operator allowed to go negative in the traffic from call n on.
  function AllowedFrom(env: Env, n: nat, ws: int): (r: real)
    requires n <= RETRIES + 1
    ensures r >= 0.0
    decreases RETRIES + 1 - n
  {
    if n > RETRIES then 0.0 else AllowedAll(env.traffic(n), ws) + AllowedFrom(env, n + 1, ws)
  }

  ghost predicate TrafficChargesWith(env: Env, m: real) {
    forall k, i | 0 <= i < |env.traffic(k)| :: ChargesWith(env.traffic(k)[i], m)
  }

  // Retrying keeps the books straight and, with a positive floor, never rests a balance below it.
  lemma {:induction false} RetryKeepsTheBooks(env: Env, l: Ledger, req: Req, n: nat, opening: map<int, real>, ws: int)
    requires n <= RETRIES && Balanced(l, opening) && ws in opening
    ensures var d := Retry(env, l, req, n);
      Balanced(d.ledger, opening) &&
      (req.maxOverdraft > 0.0 && TrafficChargesWith(env, req.maxOverdraft) ==>
         d.ledger.balances[ws] >= Least(l.balances[ws], -req.maxOverdraft) - AllowedFrom(env, n, ws))
    decreases RETRIES - n
  {
    hide PerformAll, Call, Find, Billed, Grows, UniqueKeys, ChargesWith, Total, AllowedAll;
    var l1 := PerformAll(l, env.traffic(n));
    MoneyIsConserved(l, env.traffic(n), opening);
    CallBills(l1, req, env.fate(n));
    var l2 := Call(l1, req, env.fate(n)).0;
    GrowthKeepsBalance(l1, l2, opening);
    if n < RETRIES {
      RetryKeepsTheBooks(env, l2, req, n + 1, opening, ws);
    }
    if req.maxOverdraft > 0.0 && TrafficChargesWith(env, req.maxOverdraft) {
      FloorHolds(l, env.traffic(n), req.maxOverdraft, ws);
      CallRespectsFloor(l1, req, env.fate(n), ws);
    }
  }

  // ---------------------------------------------------------------- the adapter

  class Adapter {
    const db: WalletDb
    const maxOverdraft: real

    constructor (db: WalletDb, maxOverdraft: real)
      ensures this.db == db && this.maxOverdraft == maxOverdraft
    {
      this.db, this.maxOverdraft := db, maxOverdraft;
    }

    ghost function Request(key: string, ws: int, user: int, billed: real): Req {
      Req(key, ws, user, billed, maxOverdraft)
    }

    // Without a key, or above the idempotent ceiling, there is one call and no retry.
    method Debit(key: string, ws: int, user: int, billed: real, env: Env) returns (r: Result<real>, calls: nat)
      modifies db
      ensures key == "" || billed > MAX_IDEM_AMOUNT ==>
                calls == 1 &&
                var l1 := PerformAll(old(db.View()), env.traffic(0));
                var once := ChargeOnce(l1, ws, user, billed, maxOverdraft);
                db.View() == (if env.fate(0).RolledBack? then l1 else once.0) &&
                (if env.fate(0).Acked? then r == once.1 else r.Err?)
      ensures !(key == "" || billed > MAX_IDEM_AMOUNT) ==>
                var d := Retry(env, old(db.View()), Request(key, ws, user, billed), 0);
                db.View() == d.ledger && r == d.result && calls == d.calls
    {
      if key == "" || billed > MAX_IDEM_AMOUNT {
        db.Serve(env.traffic(0));
        r := db.ChargeWorkspaceWithFloor(ws, user, billed, maxOverdraft, env.fate(0));
        return r, 1;
      }
      var req := Req(key, ws, user, billed, maxOverdraft);
      var lastErr := Transient;
      var attempt := 0;
      ghost var whole := Retry(env, db.View(), req, 0);
      while attempt <= RETRIES
        invariant attempt <= RETRIES + 1
        invariant attempt <= RETRIES ==>
                    Same(Retry(env, db.View(), req, attempt), whole)
        invariant attempt == RETRIES + 1 ==>
                    whole.ledger == db.View() && whole.result == Err(lastErr) && whole.calls == attempt
      {
        db.Serve(env.traffic(attempt));
        var res := db.WalletIdem(req, Charge, env.fate(attempt));
        attempt := attempt + 1;
        if res.Ok? {
          return Ok(res.value.charged), attempt;
        }
        lastErr := res.error;
        if lastErr == NotFound || lastErr == IdemConflict {
          break;
        }
      }
      return Err(lastErr), attempt;
    }
  }

  // Equal but for the rows already counted.
  predicate Same(d: Debited, whole: Debited) {
    d.ledger == whole.ledger && d.result == whole.result && d.calls == whole.calls
  }
}
