/** The settling half of reconcile-charges (cmd/server/reconcile_cmd.go): groups are priced, and every row
    is charged under a key derived from its content, while the server keeps billing beside it. */
module Reconcile {
  import opened Bytes
  import opened ReconcileGroups
  import opened Wallet
  import opened Debit

  datatype Info = Info(tokenId: int, user: int, workspace: int)

  // A group that could not be priced has no info.
  datatype Settlement = Settlement(group: Dropped, info: Option<Info>, multiplier: real, owed: real)

  // `keyOf` is idemKey, a digest of the row's content.
  datatype Rules = Rules(
    keyOf: DroppedRow -> string, maxOverdraft: real,
    lookup: string -> Option<Info>, multiplierFor: (Info, string) -> real)

  function Price(rules: Rules, u: Unmasker, g: Dropped): Settlement {
    match u.Unmask(g.token)
    case Known(secret) =>
      (match rules.lookup(secret)
       case Some(info) =>
         var mult := rules.multiplierFor(info, g.provider);
         Settlement(g, Some(info), mult, g.cost * mult)
       case None => Settlement(g, None, 0.0, 0.0))
    case _ => Settlement(g, None, 0.0, 0.0)
  }

  // ---------------------------------------------------------------- the charges of a run

  function Owed(s: Settlement, r: DroppedRow): real {
    r.cost * s.multiplier
  }

  function RowReq(rules: Rules, s: Settlement, info: Info, r: DroppedRow): Req {
    Req(rules.keyOf(r), info.workspace, info.user, Owed(s, r), rules.maxOverdraft)
  }

  predicate Skipped(s: Settlement) {
    s.info.None? || s.owed <= 0.0
  }

  function GroupReqs(rules: Rules, s: Settlement, rows: seq<DroppedRow>): seq<Req>
    requires s.info.Some?
  {
    if rows == [] then []
    else
      var r := rows[|rows| - 1];
      GroupReqs(rules, s, rows[..|rows| - 1]) + if Owed(s, r) <= 0.0 then [] else [RowReq(rules, s, s.info.value, r)]
  }

  function Plan(rules: Rules, ss: seq<Settlement>): seq<Req> {
    if ss == [] then []
    else
      var s := ss[|ss| - 1];
      Plan(rules, ss[..|ss| - 1]) + if Skipped(s) then [] else GroupReqs(rules, s, s.group.rows)
  }

  // How far a run got. `posted` are the ledger rows its own calls wrote, `zeroed` the keys whose charge
  // the overdraft floor cut to nothing.
  datatype Ran = Ran(
    ledger: Ledger, failed: Option<Failure>, settled: nat, replayed: nat, clamped: nat, usd: real,
    posted: seq<Row>, zeroed: seq<string>)

  function Begin(l: Ledger): Ran {
    Ran(l, None, 0, 0, 0, 0.0, [], [])
  }

  function NewRows(l: Ledger, l': Ledger): seq<Row> {
    if |l'.rows| > |l.rows| then l'.rows[|l.rows|..] else []
  }

  function ChargeNext(env: Env, p: Ran, req: Req, n: nat): Ran {
    var l1 := PerformAll(p.ledger, env.traffic(n));
    var (l2, seen) := Call(l1, req, env.fate(n));
    var p' := p.(ledger := l2, posted := p.posted + NewRows(l1, l2));
    match seen
    case Err(e) => p'.(failed := Some(e))
    case Ok(moved) =>
      if moved.txId == 0 then p'.(clamped := p.clamped + 1, zeroed := p.zeroed + [TrimSpace(req.key)])
      else if moved.replayed then p'.(replayed := p.replayed + 1)
      else p'.(settled := p.settled + 1, usd := p.usd + moved.charged)
  }

  // The first error aborts the run.
  function Charges(env: Env, l: Ledger, reqs: seq<Req>): Ran {
    if reqs == [] then Begin(l)
    else
      var p := Charges(env, l, reqs[..|reqs| - 1]);
      if p.failed.Some? then p else ChargeNext(env, p, reqs[|reqs| - 1], |reqs| - 1)
  }

  // ---------------------------------------------------------------- one charge

  lemma ChargeFacts(env: Env, p: Ran, req: Req, n: nat)
    ensures var p' := ChargeNext(env, p, req, n); var l1 := PerformAll(p.ledger, env.traffic(n));
      l1.rows <= p'.ledger.rows && p.ledger.rows <= l1.rows && Grows(l1, p'.ledger) &&
      (p'.posted == p.posted ||
       (|p'.posted| == |p.posted| + 1 && p'.posted[..|p.posted|] == p.posted &&
        Posts(l1, p'.ledger, req, p'.posted[|p.posted|]))) &&
      (p'.failed.None? ==> Find(p'.ledger.rows, TrimSpace(req.key)).Some? || TrimSpace(req.key) in p'.zeroed) &&
      (forall k | k in p.zeroed :: k in p'.zeroed)
  {
    RowsArePermanent(p.ledger, env.traffic(n));
    var l1 := PerformAll(p.ledger, env.traffic(n));
    CallBills(l1, req, env.fate(n));
    CallPosts(l1, req, env.fate(n));
    hide PerformAll, Call, Find, Posts;
    var key := TrimSpace(req.key);
    assert (p.zeroed + [key])[|p.zeroed|] == key;
    var p' := ChargeNext(env, p, req, n);
    var (l2, seen) := Call(l1, req, env.fate(n));
    assert p'.ledger == l2;
    if p'.failed.None? {
      assert seen.Ok?;
      if seen.value.txId == 0 {
        assert key in p'.zeroed;
      } else {
        assert Find(l2.rows, key).Some?;
      }
    }
  }

  // The row is a charge of the request: under its key, on its account, and of its amount, which only an
  // overdraft floor can lower.
  predicate IsChargeOf(row: Row, req: Req) {
    row.key == TrimSpace(req.key) && row.workspace == req.workspace && row.user == req.user && row.kind == Charge &&
    0.0 < -row.amount <= req.amount && (req.maxOverdraft <= 0.0 ==> -row.amount == req.amount)
  }

  // The row a call writes is a charge of its request, under a key that was free.
  ghost predicate Posts(l: Ledger, l': Ledger, req: Req, row: Row) {
    Find(l.rows, TrimSpace(req.key)).None? && Find(l'.rows, TrimSpace(req.key)).Some? &&
    row.key != "" && IsChargeOf(row, req)
  }

  lemma CallPosts(l: Ledger, req: Req, fate: Fate)
    ensures var (l', seen) := Call(l, req, fate);
      (l' == l && NewRows(l, l') == []) || (|NewRows(l, l')| == 1 && Posts(l, l', req, NewRows(l, l')[0]))
    ensures var (_, seen) := Call(l, req, fate);
      seen.Ok? && seen.value.txId > 0 ==> Find(Call(l, req, fate).0.rows, TrimSpace(req.key)).Some?
  {
    var l' := Call(l, req, fate).0;
    CallBills(l, req, fate);
    if l' != l {
      assert l'.rows[|l.rows|..] == [l'.rows[|l.rows|]];
    }
  }

  // ---------------------------------------------------------------- one run

  // No key is charged twice by a run, none is charged that was on the ledger before it, and each charge
  // is one the plan asked for.
  ghost predicate Clean(l: Ledger, reqs: seq<Req>, p: Ran) {
    (forall i, j | 0 <= i < j < |p.posted| :: p.posted[i].key != p.posted[j].key) &&
    (forall i | 0 <= i < |p.posted| ::
       Find(l.rows, p.posted[i].key).None? && Find(p.ledger.rows, p.posted[i].key).Some? && Asked(reqs, p.posted[i]))
  }

  ghost predicate Asked(reqs: seq<Req>, row: Row) {
    exists j :: 0 <= j < |reqs| && IsChargeOf(row, reqs[j])
  }

  ghost predicate Done(reqs: seq<Req>, p: Ran) {
    forall j | 0 <= j < |reqs| ::
      Find(p.ledger.rows, TrimSpace(reqs[j].key)).Some? || TrimSpace(reqs[j].key) in p.zeroed
  }

  lemma FreeBefore(rows: seq<Row>, rows': seq<Row>, key: string)
    requires rows <= rows' && Find(rows', key).None?
    ensures Find(rows, key).None?
  {
    if Find(rows, key).Some? {
      FindKeeps(rows, rows', key);
    }
  }

  lemma AskedMore(reqs: seq<Req>, req: Req, row: Row)
    ensures Asked(reqs, row) ==> Asked(reqs + [req], row)
    ensures IsChargeOf(row, req) ==> Asked(reqs + [req], row)
  {
    hide IsChargeOf;
    var more := reqs + [req];
    if Asked(reqs, row) {
      var j :| 0 <= j < |reqs| && IsChargeOf(row, reqs[j]);
      assert more[j] == reqs[j];
    }
    assert more[|reqs|] == req;
  }

  lemma ChargeKeepsClean(env: Env, l: Ledger, reqs: seq<Req>, p: Ran, req: Req)
    requires Clean(l, reqs, p) && l.rows <= p.ledger.rows
    ensures Clean(l, reqs + [req], ChargeNext(env, p, req, |reqs|))
  {
    var p' := ChargeNext(env, p, req, |reqs|);
    var l1 := PerformAll(p.ledger, env.traffic(|reqs|));
    ChargeFacts(env, p, req, |reqs|);
    hide ChargeNext, PerformAll, Grows;
    if p'.posted == p.posted {
      CleanMore(l, reqs, req, p);
      LaterClean(l, reqs + [req], p, p');
    } else {
      PostedClean(l, reqs, p, l1, req, p');
    }
  }

  lemma LaterClean(l: Ledger, reqs: seq<Req>, p: Ran, p': Ran)
    requires Clean(l, reqs, p) && p.ledger.rows <= p'.ledger.rows && p'.posted == p.posted
    ensures Clean(l, reqs, p')
  {
    hide Find, Asked;
    forall i | 0 <= i < |p.posted| ensures Find(p'.ledger.rows, p.posted[i].key).Some? {
      FindKeeps(p.ledger.rows, p'.ledger.rows, p.posted[i].key);
    }
  }

  lemma PostedClean(l: Ledger, reqs: seq<Req>, p: Ran, l1: Ledger, req: Req, p': Ran)
    requires Clean(l, reqs, p) && l.rows <= p.ledger.rows <= l1.rows <= p'.ledger.rows
    requires |p'.posted| == |p.posted| + 1 && p'.posted[..|p.posted|] == p.posted
    requires Posts(l1, p'.ledger, req, p'.posted[|p.posted|])
    ensures Clean(l, reqs + [req], p')
  {
    hide Find, Asked;
    var key := TrimSpace(req.key);
    FreeBefore(p.ledger.rows, l1.rows, key);
    FreeBefore(l.rows, p.ledger.rows, key);
    forall i | 0 <= i < |p.posted|
      ensures p'.posted[i] == p.posted[i] && p.posted[i].key != key
      ensures Find(p'.ledger.rows, p.posted[i].key).Some?
    {
      FindKeeps(p.ledger.rows, l1.rows, p.posted[i].key);
      FindKeeps(l1.rows, p'.ledger.rows, p.posted[i].key);
    }
    forall i | 0 <= i < |p'.posted| ensures Asked(reqs + [req], p'.posted[i]) {
      AskedMore(reqs, req, p'.posted[i]);
    }
  }

  lemma ChargeKeepsDone(env: Env, reqs: seq<Req>, p: Ran, req: Req)
    requires Done(reqs, p)
    ensures ChargeNext(env, p, req, |reqs|).failed.None? ==> Done(reqs + [req], ChargeNext(env, p, req, |reqs|))
  {
    var p' := ChargeNext(env, p, req, |reqs|);
    ChargeFacts(env, p, req, |reqs|);
    hide ChargeNext, Find, PerformAll;
    forall j | 0 <= j < |reqs| && Find(p.ledger.rows, TrimSpace(reqs[j].key)).Some?
      ensures Find(p'.ledger.rows, TrimSpace(reqs[j].key)).Some?
    {
      FindKeeps(p.ledger.rows, p'.ledger.rows, TrimSpace(reqs[j].key));
    }
  }

  // A run, finished or aborted, charges only keys that were free and each of them once; a finished run
  // leaves every key of its window on the ledger or recorded as clamped to zero.
  lemma {:induction false} RunIsClean(env: Env, l: Ledger, reqs: seq<Req>)
    ensures var p := Charges(env, l, reqs);
      l.rows <= p.ledger.rows && Clean(l, reqs, p) && (p.failed.None? ==> Done(reqs, p))
  {
    hide Clean, Done, ChargeNext;
    if reqs == [] {
      NothingDone(l);
    } else {
      var fewer, req := reqs[..|reqs| - 1], reqs[|reqs| - 1];
      var p := Charges(env, l, fewer);
      assert fewer + [req] == reqs;
      RunIsClean(env, l, fewer);
      ChargeFacts(env, p, req, |fewer|);
      if p.failed.None? {
        ChargeKeepsClean(env, l, fewer, p, req);
        ChargeKeepsDone(env, fewer, p, req);
      } else {
        CleanMore(l, fewer, req, p);
      }
    }
  }

  lemma NothingDone(l: Ledger)
    ensures Clean(l, [], Begin(l)) && Done([], Begin(l))
  {
  }

  lemma CleanMore(l: Ledger, reqs: seq<Req>, req: Req, p: Ran)
    requires Clean(l, reqs, p)
    ensures Clean(l, reqs + [req], p)
  {
    hide Asked, Find;
    forall i | 0 <= i < |p.posted| ensures Asked(reqs + [req], p.posted[i]) {
      AskedMore(reqs, req, p.posted[i]);
    }
  }

  lemma {:induction false} RunKeepsTheBooks(env: Env, l: Ledger, reqs: seq<Req>, opening: map<int, real>)
    requires Balanced(l, opening)
    ensures Balanced(Charges(env, l, reqs).ledger, opening)
  {
    hide Balanced, PerformAll, Call, Grows, Find, Billed;
    if reqs != [] {
      var fewer, req := reqs[..|reqs| - 1], reqs[|reqs| - 1];
      var p := Charges(env, l, fewer);
      RunKeepsTheBooks(env, l, fewer, opening);
      MoneyIsConserved(p.ledger, env.traffic(|fewer|), opening);
      var l1 := PerformAll(p.ledger, env.traffic(|fewer|));
      CallBills(l1, req, env.fate(|fewer|));
      GrowthKeepsBalance(l1, Call(l1, req, env.fate(|fewer|)).0, opening);
    }
  }

  function Taken(rows: seq<Row>): real {
    if rows == [] then 0.0 else Taken(rows[..|rows| - 1]) - rows[|rows| - 1].amount
  }

  // A call that was acknowledged wrote a row exactly if it reports a movement of its own, of that amount.
  lemma CallReportsItsRow(l: Ledger, req: Req, fate: Fate)
    ensures var (l', seen) := Call(l, req, fate);
      seen.Ok? ==>
        if seen.value.txId == 0 || seen.value.replayed then NewRows(l, l') == []
        else |NewRows(l, l')| == 1 && NewRows(l, l')[0].amount == -seen.value.charged
  {
    var (l', seen) := Call(l, req, fate);
    if seen.Ok? && l' != l {
      assert l'.rows[|l.rows|..] == [l'.rows[|l.rows|]];
    }
  }

  // The total a finished run prints is what its rows took, one settled row for each.
  lemma {:induction false} ReportIsWhatWasPosted(env: Env, l: Ledger, reqs: seq<Req>)
    ensures var p := Charges(env, l, reqs);
      p.failed.None? ==> p.usd == Taken(p.posted) && p.settled == |p.posted| &&
                         p.settled + p.replayed + p.clamped == |reqs|
  {
    hide PerformAll, Call, NewRows;
    if reqs != [] {
      var fewer, req := reqs[..|reqs| - 1], reqs[|reqs| - 1];
      ReportIsWhatWasPosted(env, l, fewer);
      var p := Charges(env, l, fewer);
      var l1 := PerformAll(p.ledger, env.traffic(|fewer|));
      CallReportsItsRow(l1, req, env.fate(|fewer|));
      var added := NewRows(l1, Call(l1, req, env.fate(|fewer|)).0);
      if added == [] {
        assert p.posted + added == p.posted;
      } else {
        assert (p.posted + added)[..|p.posted|] == p.posted;
      }
    }
  }

  // ---------------------------------------------------------------- several runs

  // Run 1, then any operations, then run 2.
  ghost predicate InTurn(env1: Env, l: Ledger, reqs1: seq<Req>, p1: Ran, between: seq<Op>,
          env2: Env, reqs2: seq<Req>, p2: Ran)
  {
    p1 == Charges(env1, l, reqs1) && p2 == Charges(env2, PerformAll(p1.ledger, between), reqs2)
  }

  // Whatever windows two runs cover and wherever they stopped, no key is charged by both.
  lemma OverlappingRunsChargeOnce(env1: Env, l: Ledger, reqs1: seq<Req>, p1: Ran, between: seq<Op>,
          env2: Env, reqs2: seq<Req>, p2: Ran, i: nat, j: nat)
    requires InTurn(env1, l, reqs1, p1, between, env2, reqs2, p2) && i < |p1.posted| && j < |p2.posted|
    ensures p1.posted[i].key != p2.posted[j].key
  {
    var l2 := PerformAll(p1.ledger, between);
    RunIsClean(env1, l, reqs1);
    RowsArePermanent(p1.ledger, between);
    RunIsClean(env2, l2, reqs2);
    hide Charges, Find, PerformAll;
    FindKeeps(p1.ledger.rows, l2.rows, p1.posted[i].key);
  }

  // Rerunning a window that an earlier run finished moves money only for rows that run clamped to zero.
  lemma RerunMovesOnlyClampedRows(env1: Env, l: Ledger, reqs1: seq<Req>, p1: Ran, between: seq<Op>,
          env2: Env, reqs2: seq<Req>, p2: Ran, j: nat, k: nat)
    requires InTurn(env1, l, reqs1, p1, between, env2, reqs2, p2) && p1.failed.None?
    requires j < |reqs1| && k < |p2.posted| && p2.posted[k].key == TrimSpace(reqs1[j].key)
    ensures TrimSpace(reqs1[j].key) in p1.zeroed
  {
    var l2 := PerformAll(p1.ledger, between);
    RunIsClean(env1, l, reqs1);
    RowsArePermanent(p1.ledger, between);
    RunIsClean(env2, l2, reqs2);
    hide Charges, Find, PerformAll;
    if Find(p1.ledger.rows, TrimSpace(reqs1[j].key)).Some? {
      FindKeeps(p1.ledger.rows, l2.rows, TrimSpace(reqs1[j].key));
    }
  }

  // Only a balance at or below a positive floor is clamped to nothing.
  lemma ZeroMeansAtTheFloor(l: Ledger, req: Req)
    requires Idem(l, req, Charge).result.Ok? && Idem(l, req, Charge).result.value.txId == 0
    ensures req.maxOverdraft > 0.0 && req.workspace in l.balances && l.balances[req.workspace] <= -req.maxOverdraft
    ensures Idem(l, req, Charge).ledger == l
  {
  }

  // ---------------------------------------------------------------- who is billed

  // A group is skipped exactly if its token stands for no single customer, or nothing is owed for it.
  lemma SkippedExactly(rules: Rules, u: Unmasker, g: Dropped)
    ensures Skipped(Price(rules, u, g)) <==>
      match u.Unmask(g.token)
      case Known(secret) =>
        var info := rules.lookup(secret);
        info.None? || g.cost * rules.multiplierFor(info.value, g.provider) <= 0.0
      case _ => true
  {
  }

  // The settlements of a run are groups with their prices, in any order.
  ghost predicate PricedFrom(rules: Rules, u: Unmasker, gs: seq<Dropped>, ss: seq<Settlement>) {
    forall k | 0 <= k < |ss| :: IsPrice(rules, u, gs, ss[k])
  }

  ghost predicate IsPrice(rules: Rules, u: Unmasker, gs: seq<Dropped>, s: Settlement) {
    exists g :: 0 <= g < |gs| && s == Price(rules, u, gs[g])
  }

  // The charge is that of the row: under its key, at its own price, on the account of the only listed
  // token that its masked token can stand for.
  ghost predicate RightAccount(rules: Rules, secrets: seq<string>, r: DroppedRow, req: Req) {
    exists secret, info ::
      Candidates(secrets, r.token) == [secret] && rules.lookup(secret) == Some(info) &&
      req == Req(rules.keyOf(r), info.workspace, info.user, r.cost * rules.multiplierFor(info, r.provider),
                 rules.maxOverdraft)
  }

  ghost predicate RightlyBilled(rules: Rules, secrets: seq<string>, rows: seq<DroppedRow>, req: Req) {
    exists n :: 0 <= n < |rows| && RightAccount(rules, secrets, rows[n], req)
  }

  // Every charge of a run belongs to a dropped row and to that row's own customer.
  lemma BilledToTheRightAccount(rules: Rules, secrets: seq<string>, u: Unmasker, rows: seq<DroppedRow>,
          gs: seq<Dropped>, ss: seq<Settlement>, i: nat)
    requires forall masked :: Answers(u, secrets, masked)
    requires Grouped(rows, gs) && AllOwnRows(gs)
    requires PricedFrom(rules, u, gs, ss) && i < |Plan(rules, ss)|
    ensures RightlyBilled(rules, secrets, rows, Plan(rules, ss)[i])
  {
    hide Answers, Candidates, Plan, RightAccount, Select, RowSums, Price;
    var k, n := PlanOf(rules, ss, i);
    assert IsPrice(rules, u, gs, ss[k]);
    var g :| 0 <= g < |gs| && ss[k] == Price(rules, u, gs[g]);
    PriceKeepsGroup(rules, u, gs[g]);
    var m := SelectedIsARow(rows, GroupKey(gs[g]), n);
    assert OwnRows(gs[g]) && rows[m] == gs[g].rows[n];
    assert Answers(u, secrets, gs[g].token);
    PriceIsRight(rules, secrets, u, gs[g], rows[m]);
  }

  lemma PriceKeepsGroup(rules: Rules, u: Unmasker, g: Dropped)
    ensures Price(rules, u, g).group == g
  {
  }

  lemma PriceIsRight(rules: Rules, secrets: seq<string>, u: Unmasker, g: Dropped, r: DroppedRow)
    requires Answers(u, secrets, g.token) && Price(rules, u, g).info.Some?
    requires r.token == g.token && r.provider == g.provider
    ensures var s := Price(rules, u, g); RightAccount(rules, secrets, r, RowReq(rules, s, s.info.value, r))
  {
    MaskIsUnique(u, secrets, g.token);
    hide Answers, Candidates;
    var secret := u.Unmask(g.token).secret;
    var info := rules.lookup(secret).value;
    assert Candidates(secrets, g.token) == [secret] && rules.lookup(secret) == Some(info);
  }

  ghost predicate AllPriced(rules: Rules, u: Unmasker, gs: seq<Dropped>, ss: seq<Settlement>) {
    forall g | 0 <= g < |gs| :: Price(rules, u, gs[g]) in ss
  }

  predicate CostSomething(rows: seq<DroppedRow>) {
    forall i | 0 <= i < |rows| :: rows[i].cost > 0.0
  }

  // And every dropped row that can be priced is among the charges.
  lemma EveryDroppedRowIsCharged(rules: Rules, secrets: seq<string>, u: Unmasker, rows: seq<DroppedRow>,
          gs: seq<Dropped>, ss: seq<Settlement>, n: nat, secret: string, info: Info)
    requires forall masked :: Answers(u, secrets, masked)
    requires Grouped(rows, gs) && AllOwnRows(gs) && n < |rows|
    requires AllPriced(rules, u, gs, ss)
    requires Candidates(secrets, rows[n].token) == [secret] && rules.lookup(secret) == Some(info)
    requires rules.multiplierFor(info, rows[n].provider) > 0.0 && CostSomething(rows)
    ensures exists i :: 0 <= i < |Plan(rules, ss)| && RightAccount(rules, secrets, rows[n], Plan(rules, ss)[i])
  {
    hide Candidates, Plan, GroupReqs, Select, RowSums, RowKey, Answers;
    var r := rows[n];
    var g :| 0 <= g < |gs| && GroupKey(gs[g]) == RowKey(r);
    var j := RowIsSelected(rows, n);
    assert OwnRows(gs[g]) && gs[g].rows[j] == r;
    forall i | 0 <= i < |gs[g].rows| ensures gs[g].rows[i].cost > 0.0 {
      var k := SelectedIsARow(rows, GroupKey(gs[g]), i);
    }
    PositiveCost(gs[g].rows);
    assert Answers(u, secrets, r.token);
    KnownIsUnmasked(u, secrets, r.token, secret);
    var s := Price(rules, u, gs[g]);
    assert SumsOf(gs[g]) == RowSums(gs[g].rows) && gs[g].cost > 0.0;
    ProductIsPositive(gs[g].cost, s.multiplier);
    ProductIsPositive(r.cost, s.multiplier);
    var i := PlanHas(rules, ss, s, j);
    assert Plan(rules, ss)[i] == RowReq(rules, s, info, r);
    assert RightAccount(rules, secrets, r, Plan(rules, ss)[i]);
  }

  lemma ProductIsPositive(x: real, y: real)
    requires x > 0.0 && y > 0.0
    ensures x * y > 0.0
  {
  }

  lemma KnownIsUnmasked(u: Unmasker, secrets: seq<string>, masked: string, secret: string)
    requires Answers(u, secrets, masked) && Candidates(secrets, masked) == [secret]
    ensures u.Unmask(masked) == Known(secret)
  {
  }

  lemma {:induction false} PositiveCost(rows: seq<DroppedRow>)
    requires rows != [] && CostSomething(rows)
    ensures RowSums(rows).cost > 0.0
  {
    if |rows| > 1 {
      PositiveCost(rows[..|rows| - 1]);
    }
  }

  lemma {:induction false} PlanHas(rules: Rules, ss: seq<Settlement>, s: Settlement, j: nat) returns (i: nat)
    requires s in ss && !Skipped(s) && j < |s.group.rows| && Owed(s, s.group.rows[j]) > 0.0
    ensures i < |Plan(rules, ss)| && Plan(rules, ss)[i] == RowReq(rules, s, s.info.value, s.group.rows[j])
  {
    hide RowReq, Owed;
    var fewer, last := ss[..|ss| - 1], ss[|ss| - 1];
    if last == s {
      var at := GroupHas(rules, s, s.group.rows, j);
      i := |Plan(rules, fewer)| + at;
    } else {
      assert s in fewer;
      i := PlanHas(rules, fewer, s, j);
    }
  }

  lemma {:induction false} GroupHas(rules: Rules, s: Settlement, rows: seq<DroppedRow>, j: nat) returns (i: nat)
    requires s.info.Some? && j < |rows| && Owed(s, rows[j]) > 0.0
    ensures i < |GroupReqs(rules, s, rows)| && GroupReqs(rules, s, rows)[i] == RowReq(rules, s, s.info.value, rows[j])
  {
    hide RowReq, Owed;
    var fewer := rows[..|rows| - 1];
    if j < |fewer| {
      i := GroupHas(rules, s, fewer, j);
    } else {
      i := |GroupReqs(rules, s, fewer)|;
    }
  }

  lemma MaskIsUnique(u: Unmasker, secrets: seq<string>, masked: string)
    requires Answers(u, secrets, masked) && u.Unmask(masked).Known?
    ensures Candidates(secrets, masked) == [u.Unmask(masked).secret]
  {
  }

  lemma {:induction false} PlanOf(rules: Rules, ss: seq<Settlement>, i: nat) returns (g: nat, n: nat)
    requires i < |Plan(rules, ss)|
    ensures g < |ss| && n < |ss[g].group.rows| && ss[g].info.Some?
    ensures Plan(rules, ss)[i] == RowReq(rules, ss[g], ss[g].info.value, ss[g].group.rows[n])
  {
    var fewer := Plan(rules, ss[..|ss| - 1]);
    if i < |fewer| {
      g, n := PlanOf(rules, ss[..|ss| - 1], i);
    } else {
      g := |ss| - 1;
      n := GroupReqOf(rules, ss[g], ss[g].group.rows, i - |fewer|);
    }
  }

  lemma {:induction false} GroupReqOf(rules: Rules, s: Settlement, rows: seq<DroppedRow>, i: nat) returns (n: nat)
    requires s.info.Some? && i < |GroupReqs(rules, s, rows)|
    ensures n < |rows| && GroupReqs(rules, s, rows)[i] == RowReq(rules, s, s.info.value, rows[n])
  {
    var fewer := rows[..|rows| - 1];
    if i < |GroupReqs(rules, s, fewer)| {
      n := GroupReqOf(rules, s, fewer, i);
    } else {
      n := |rows| - 1;
    }
  }

  // ---------------------------------------------------------------- the command

  datatype Report = Report(settled: nat, replayed: nat, clamped: nat, skipped: nat, usd: real)

  function Skips(ss: seq<Settlement>): nat {
    if ss == [] then 0 else Skips(ss[..|ss| - 1]) + if Skipped(ss[|ss| - 1]) then 1 else 0
  }

  lemma {:induction false} AbortedStays(env: Env, l: Ledger, reqs: seq<Req>, n: nat)
    requires n <= |reqs| && Charges(env, l, reqs[..n]).failed.Some?
    ensures Charges(env, l, reqs) == Charges(env, l, reqs[..n])
  {
    if n == |reqs| {
      assert reqs[..n] == reqs;
    } else {
      assert reqs[..|reqs| - 1][..n] == reqs[..n];
      AbortedStays(env, l, reqs[..|reqs| - 1], n);
    }
  }

  lemma {:induction false} PlanPrefix(rules: Rules, ss: seq<Settlement>, i: nat, s: Settlement, j: nat)
    requires i < |ss| && s == ss[i] && !Skipped(s) && j <= |s.group.rows|
    ensures Plan(rules, ss[..i]) + GroupReqs(rules, s, s.group.rows[..j]) <= Plan(rules, ss)
    decreases |ss|
  {
    hide RowReq, Owed;
    var fewer := ss[..|ss| - 1];
    if i < |ss| - 1 {
      assert fewer[..i] == ss[..i];
      PlanPrefix(rules, fewer, i, s, j);
    } else {
      GroupPrefix(rules, s, s.group.rows, j);
    }
  }

  lemma {:induction false} GroupPrefix(rules: Rules, s: Settlement, rows: seq<DroppedRow>, j: nat)
    requires s.info.Some? && j <= |rows|
    ensures GroupReqs(rules, s, rows[..j]) <= GroupReqs(rules, s, rows)
  {
    if j == |rows| {
      assert rows[..j] == rows;
    } else {
      assert rows[..|rows| - 1][..j] == rows[..j];
      GroupPrefix(rules, s, rows[..|rows| - 1], j);
    }
  }

  // One group: `before` are the charges of the groups already done, `tried` how many rows were looked at.
  method ApplyGroup(db: WalletDb, rules: Rules, s: Settlement, env: Env, calls: nat, ghost start: Ledger,
          ghost before: seq<Req>)
    returns (failed: Option<Failure>, report: Report, calls': nat, ghost tried: nat)
    requires !Skipped(s) && calls == |before|
    requires Charges(env, start, before).failed.None? && db.View() == Charges(env, start, before).ledger
    modifies db
    ensures tried <= |s.group.rows|
    ensures var p := Charges(env, start, before);
            var p' := Charges(env, start, before + GroupReqs(rules, s, s.group.rows[..tried]));
      db.View() == p'.ledger && p'.failed == failed &&
      (failed.None? ==>
         tried == |s.group.rows| && calls' == |before + GroupReqs(rules, s, s.group.rows)| &&
         p'.settled == p.settled + report.settled && p'.replayed == p.replayed + report.replayed &&
         p'.clamped == p.clamped + report.clamped && p'.usd == p.usd + report.usd)
  {
    hide Charges, PerformAll, Call, GroupReqs;
    var groupUSD, groupSettled, groupReplayed, groupClamped := 0.0, 0, 0, 0;
    calls' := calls;
    ghost var done := before;
    ghost var p := Charges(env, start, before);
    NoRows(rules, s, before);
    for j := 0 to |s.group.rows|
      invariant done == before + GroupReqs(rules, s, s.group.rows[..j]) && calls' == |done|
      invariant p == Charges(env, start, done) && p.failed.None? && db.View() == p.ledger
      invariant p.settled == Charges(env, start, before).settled + groupSettled
      invariant p.replayed == Charges(env, start, before).replayed + groupReplayed
      invariant p.clamped == Charges(env, start, before).clamped + groupClamped
      invariant p.usd == Charges(env, start, before).usd + groupUSD
    {
      var row := s.group.rows[j];
      GroupGrows(rules, s, s.group.rows, j, before);
      var owed := row.cost * s.multiplier;
      if owed <= 0.0 {
        continue;
      }
      var req := Req(rules.keyOf(row), s.info.value.workspace, s.info.value.user, owed, rules.maxOverdraft);
      assert req == RowReq(rules, s, s.info.value, row);
      ChargesGrow(env, start, done, req);
      done := done + [req];
      p := ChargeNext(env, p, req, calls');
      db.Serve(env.traffic(calls'));
      CallIs(db.View(), req, env.fate(calls'));
      var res := db.WalletIdem(req, Charge, env.fate(calls'));
      calls' := calls' + 1;
      if res.Err? {
        return Some(res.error), Report(groupSettled, groupReplayed, groupClamped, 0, groupUSD), calls', j + 1;
      }
      if res.value.txId == 0 {
        groupClamped := groupClamped + 1;
      } else if res.value.replayed {
        groupReplayed := groupReplayed + 1;
      } else {
        groupSettled := groupSettled + 1;
        groupUSD := groupUSD + res.value.charged;
      }
    }
    assert s.group.rows[..|s.group.rows|] == s.group.rows;
    return None, Report(groupSettled, groupReplayed, groupClamped, 0, groupUSD), calls', |s.group.rows|;
  }

  /** Charges every priced row of the settlements; the first error ends the run, and what was charged
      before it stays. */
  method ApplySettlements(db: WalletDb, rules: Rules, ss: seq<Settlement>, env: Env) returns (r: Result<Report>)
    modifies db
    ensures var p := Charges(env, old(db.View()), Plan(rules, ss));
      db.View() == p.ledger &&
      match r
      case Ok(report) => p.failed.None? && report.settled == p.settled && report.replayed == p.replayed &&
                         report.clamped == p.clamped && report.usd == p.usd && report.skipped == Skips(ss)
      case Err(e) => p.failed == Some(e)
  {
    hide Charges, PerformAll, Call, Plan, GroupReqs, Skips;
    var settled, replayed, clamped, skipped, settledUSD := 0, 0, 0, 0, 0.0;
    var calls := 0;
    ghost var start := db.View();
    PlanStarts(rules, env, start);
    for i := 0 to |ss|
      invariant calls == |Plan(rules, ss[..i])| && skipped == Skips(ss[..i])
      invariant var p := Charges(env, start, Plan(rules, ss[..i]));
                p.failed.None? && db.View() == p.ledger && settled == p.settled && replayed == p.replayed &&
                clamped == p.clamped && settledUSD == p.usd
    {
      var s := ss[i];
      PlanGrows(rules, ss, i);
      if s.info.None? || s.owed <= 0.0 {
        skipped := skipped + 1;
        continue;
      }
      var failed, group;
      ghost var tried;
      failed, group, calls, tried := ApplyGroup(db, rules, s, env, calls, start, Plan(rules, ss[..i]));
      if failed.Some? {
        PlanPrefix(rules, ss, i, s, tried);
        AbortedInside(env, start, Plan(rules, ss), Plan(rules, ss[..i]) + GroupReqs(rules, s, s.group.rows[..tried]));
        return Err(failed.value);
      }
      assert s.group.rows[..|s.group.rows|] == s.group.rows;
      settled := settled + group.settled;
      replayed := replayed + group.replayed;
      clamped := clamped + group.clamped;
      settledUSD := settledUSD + group.usd;
    }
    assert ss[..|ss|] == ss;
    return Ok(Report(settled, replayed, clamped, skipped, settledUSD));
  }

  // The order in which groups are settled: by what is owed, ties as the sort leaves them.
  ghost predicate Reorders(order: seq<Settlement> -> seq<Settlement>) {
    forall ss :: multiset(order(ss)) == multiset(ss)
  }

  // A ledger row a run wrote is the charge of a dropped row, on the account of the row's own customer.
  ghost predicate PostedRight(rules: Rules, secrets: seq<string>, rows: seq<DroppedRow>, row: Row) {
    exists req :: RightlyBilled(rules, secrets, rows, req) && IsChargeOf(row, req)
  }

  // The row has one customer, and a price.
  ghost predicate Billable(rules: Rules, secrets: seq<string>, r: DroppedRow) {
    exists secret, info ::
      Candidates(secrets, r.token) == [secret] && rules.lookup(secret) == Some(info) &&
      rules.multiplierFor(info, r.provider) > 0.0
  }

  predicate SettledOrClamped(p: Ran, key: string) {
    Find(p.ledger.rows, key).Some? || key in p.zeroed
  }

  /** reconcile-charges with --apply, from the dropped rows and the known tokens to the ledger. Every row
      selected by the query has a positive cost. */
  method ReconcileCharges(db: WalletDb, rules: Rules, rows: seq<DroppedRow>, secrets: seq<string>,
          order: seq<Settlement> -> seq<Settlement>, env: Env)
    returns (r: Result<Report>, ss: seq<Settlement>)
    requires Reorders(order) && forall i | 0 <= i < |rows| :: NUL !in rows[i].provider
    modifies db
    ensures var p := Charges(env, old(db.View()), Plan(rules, ss));
      db.View() == p.ledger && (r.Ok? <==> p.failed.None?) &&
      (forall i | 0 <= i < |p.posted| :: PostedRight(rules, secrets, rows, p.posted[i])) &&
      (r.Ok? && CostSomething(rows) ==>
         forall n | 0 <= n < |rows| && Billable(rules, secrets, rows[n]) ::
           SettledOrClamped(p, TrimSpace(rules.keyOf(rows[n]))))
  {
    hide *;
    PlainProvidersAreDistinguished(rows);
    var groups := GroupDropped(rows);
    var u := BuildUnmasker(secrets);
    ss := [];
    ghost var start := db.View();
    assert start == old(db.View());
    NothingPriced(rules, u, groups);
    for k := 0 to |groups|
      invariant PricedFrom(rules, u, groups, ss) && AllPriced(rules, u, groups[..k], ss) && db.View() == start
    {
      var s := Price(rules, u, groups[k]);
      OneMorePriced(rules, u, groups, k, ss, s);
      ss := ss + [s];
    }
    assert groups[..|groups|] == groups;
    OrderKeepsPrices(rules, u, groups, ss, order);
    ss := order(ss);
    PostsAreRight(rules, secrets, u, rows, groups, ss, env, start);
    NoRowIsForgotten(rules, secrets, u, rows, groups, ss, env, start);
    r := ApplySettlements(db, rules, ss, env);
  }

  lemma NothingPriced(rules: Rules, u: Unmasker, gs: seq<Dropped>)
    ensures PricedFrom(rules, u, gs, []) && AllPriced(rules, u, gs[..0], [])
  {
  }

  lemma OneMorePriced(rules: Rules, u: Unmasker, gs: seq<Dropped>, k: nat, ss: seq<Settlement>, s: Settlement)
    requires k < |gs| && s == Price(rules, u, gs[k])
    requires PricedFrom(rules, u, gs, ss) && AllPriced(rules, u, gs[..k], ss)
    ensures PricedFrom(rules, u, gs, ss + [s]) && AllPriced(rules, u, gs[..k + 1], ss + [s])
  {
    hide Price;
    assert IsPrice(rules, u, gs, s);
    hide IsPrice;
    var more := gs[..k + 1];
    forall g | 0 <= g < |more| ensures Price(rules, u, more[g]) in ss + [s] {
      if g < k {
        assert more[g] == gs[..k][g];
      }
    }
  }

  lemma OrderKeepsPrices(rules: Rules, u: Unmasker, gs: seq<Dropped>, ss: seq<Settlement>,
          order: seq<Settlement> -> seq<Settlement>)
    requires Reorders(order) && PricedFrom(rules, u, gs, ss) && AllPriced(rules, u, gs, ss)
    ensures PricedFrom(rules, u, gs, order(ss)) && AllPriced(rules, u, gs, order(ss))
  {
    hide IsPrice, Price;
    var ordered := order(ss);
    forall g | 0 <= g < |gs| ensures Price(rules, u, gs[g]) in ordered {
      assert Price(rules, u, gs[g]) in multiset(ss) && Price(rules, u, gs[g]) in multiset(ordered);
    }
    forall k | 0 <= k < |ordered| ensures IsPrice(rules, u, gs, ordered[k]) {
      assert ordered[k] in multiset(ordered) && ordered[k] in multiset(ss) && ordered[k] in ss;
    }
  }

  lemma PostsAreRight(rules: Rules, secrets: seq<string>, u: Unmasker, rows: seq<DroppedRow>, gs: seq<Dropped>,
          ss: seq<Settlement>, env: Env, l: Ledger)
    requires forall masked :: Answers(u, secrets, masked)
    requires Grouped(rows, gs) && AllOwnRows(gs)
    requires PricedFrom(rules, u, gs, ss)
    ensures var p := Charges(env, l, Plan(rules, ss));
      forall i | 0 <= i < |p.posted| :: PostedRight(rules, secrets, rows, p.posted[i])
  {
    hide Charges, Plan, Grouped, Distinguished, AllOwnRows, Answers, PricedFrom, RightlyBilled, Find;
    var reqs := Plan(rules, ss);
    var p := Charges(env, l, reqs);
    RunIsClean(env, l, reqs);
    forall i | 0 <= i < |p.posted| ensures PostedRight(rules, secrets, rows, p.posted[i]) {
      var row := p.posted[i];
      assert Asked(reqs, row);
      var j :| 0 <= j < |reqs| && IsChargeOf(row, reqs[j]);
      BilledToTheRightAccount(rules, secrets, u, rows, gs, ss, j);
    }
  }

  // A finished run has settled, or clamped to nothing, each row that can be billed.
  lemma NoRowIsForgotten(rules: Rules, secrets: seq<string>, u: Unmasker, rows: seq<DroppedRow>, gs: seq<Dropped>,
          ss: seq<Settlement>, env: Env, l: Ledger)
    requires forall masked :: Answers(u, secrets, masked)
    requires Grouped(rows, gs) && AllOwnRows(gs)
    requires AllPriced(rules, u, gs, ss)
    ensures var p := Charges(env, l, Plan(rules, ss));
      p.failed.None? && CostSomething(rows) ==>
        forall n | 0 <= n < |rows| && Billable(rules, secrets, rows[n]) ::
          SettledOrClamped(p, TrimSpace(rules.keyOf(rows[n])))
  {
    hide Charges, Plan, Grouped, AllOwnRows, Answers, AllPriced, CostSomething, Candidates, Find;
    var reqs := Plan(rules, ss);
    var p := Charges(env, l, reqs);
    RunIsClean(env, l, reqs);
    if p.failed.None? && CostSomething(rows) {
      forall n | 0 <= n < |rows| && Billable(rules, secrets, rows[n])
        ensures SettledOrClamped(p, TrimSpace(rules.keyOf(rows[n])))
      {
        var secret, info :|
          Candidates(secrets, rows[n].token) == [secret] && rules.lookup(secret) == Some(info) &&
          rules.multiplierFor(info, rows[n].provider) > 0.0;
        EveryDroppedRowIsCharged(rules, secrets, u, rows, gs, ss, n, secret, info);
        var i :| 0 <= i < |reqs| && RightAccount(rules, secrets, rows[n], reqs[i]);
        assert reqs[i].key == rules.keyOf(rows[n]);
      }
    }
  }

  lemma AbortedInside(env: Env, l: Ledger, reqs: seq<Req>, done: seq<Req>)
    requires done <= reqs && Charges(env, l, done).failed.Some?
    ensures Charges(env, l, reqs) == Charges(env, l, done)
  {
    assert reqs[..|done|] == done;
    AbortedStays(env, l, reqs, |done|);
  }

  lemma NoRows(rules: Rules, s: Settlement, before: seq<Req>)
    requires s.info.Some?
    ensures before + GroupReqs(rules, s, s.group.rows[..0]) == before
  {
  }

  lemma PlanStarts(rules: Rules, env: Env, l: Ledger)
    ensures Plan(rules, []) == [] && Charges(env, l, []) == Begin(l) && Skips([]) == 0
  {
  }

  lemma PlanGrows(rules: Rules, ss: seq<Settlement>, i: nat)
    requires i < |ss|
    ensures Plan(rules, ss[..i + 1]) ==
            if Skipped(ss[i]) then Plan(rules, ss[..i])
            else Plan(rules, ss[..i]) + GroupReqs(rules, ss[i], ss[i].group.rows)
    ensures Skips(ss[..i + 1]) == Skips(ss[..i]) + if Skipped(ss[i]) then 1 else 0
  {
    assert ss[..i + 1][..i] == ss[..i];
    assert Plan(rules, ss[..i]) + [] == Plan(rules, ss[..i]);
  }

  lemma GroupGrows(rules: Rules, s: Settlement, rows: seq<DroppedRow>, j: nat, before: seq<Req>)
    requires s.info.Some? && j < |rows|
    ensures var done := before + GroupReqs(rules, s, rows[..j]);
      before + GroupReqs(rules, s, rows[..j + 1]) ==
        if Owed(s, rows[j]) <= 0.0 then done else done + [RowReq(rules, s, s.info.value, rows[j])]
  {
    assert rows[..j + 1][..j] == rows[..j];
    var mine := GroupReqs(rules, s, rows[..j]);
    if Owed(s, rows[j]) <= 0.0 {
      assert mine + [] == mine;
    } else {
      Assoc(before, mine, [RowReq(rules, s, s.info.value, rows[j])]);
    }
  }

  lemma ChargesGrow(env: Env, l: Ledger, reqs: seq<Req>, req: Req)
    requires Charges(env, l, reqs).failed.None?
    ensures Charges(env, l, reqs + [req]) == ChargeNext(env, Charges(env, l, reqs), req, |reqs|)
  {
    assert (reqs + [req])[..|reqs|] == reqs;
  }

  lemma CallIs(l: Ledger, req: Req, fate: Fate)
    ensures Call(l, req, fate).0 == if fate.RolledBack? then l else Idem(l, req, Charge).ledger
    ensures Call(l, req, fate).1 == Seen(l, req, Charge, fate)
  {
  }
}
