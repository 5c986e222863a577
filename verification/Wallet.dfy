/** Workspace balances and the ledger behind them: internal/saas/db/wallet.go and wallet_idem.go. Amounts
    are exact reals; every operation is one SQLite transaction. */
module Wallet {
  import opened Bytes

  datatype Kind = Charge | Refund | TopUp | Other

  // One wallet_tx row: negative for a debit. An empty key is no key.
  datatype Row = Row(workspace: int, user: int, kind: Kind, amount: real, key: string)

  // Row i has id i + 1.
  datatype Ledger = Ledger(balances: map<int, real>, rows: seq<Row>)

  datatype Req = Req(key: string, workspace: int, user: int, amount: real, maxOverdraft: real)

  datatype Moved = Moved(txId: nat, charged: real, newBalance: real, clamped: bool, replayed: bool)

  datatype Failure =
    | KeyRequired | WorkspaceRequired | AmountNotPositive | OverCeiling
    | NotFound | IdemConflict | InsufficientBalance
    | Transient   // busy, locked, an I/O error, a lost acknowledgement

  datatype Result<T> = Ok(value: T) | Err(error: Failure)

  const MAX_IDEM_AMOUNT: real := 1000.0

  function Abs(x: real): real {
    if x < 0.0 then -x else x
  }

  // ---------------------------------------------------------------- what each operation does

  function ClampCharge(bal: real, amount: real, maxOverdraft: real): (charged: real)
    ensures maxOverdraft <= 0.0 ==> charged == amount
    ensures maxOverdraft > 0.0 && amount >= 0.0 ==> 0.0 <= charged <= amount
    ensures maxOverdraft > 0.0 && charged > 0.0 ==> bal - charged >= -maxOverdraft
    ensures maxOverdraft > 0.0 && 0.0 <= charged < amount ==> charged == 0.0 || bal - charged == -maxOverdraft
  {
    if maxOverdraft > 0.0 then
      var room := bal + maxOverdraft;
      var charged := if amount > room then room else amount;
      if charged < 0.0 then 0.0 else charged
    else amount
  }

  // The row that settled a key: the unique index allows one.
  function Find(rows: seq<Row>, key: string): (r: Option<nat>)
    ensures r.Some? ==> r.value < |rows| && rows[r.value].key == key
    ensures r.None? ==> forall i | 0 <= i < |rows| :: rows[i].key != key
  {
    if rows == [] then None
    else if rows[|rows| - 1].key == key then Some(|rows| - 1)
    else Find(rows[..|rows| - 1], key)
  }

  predicate SameMovement(row: Row, req: Req, kind: Kind) {
    row.kind == kind && row.workspace == req.workspace && (req.user == 0 || row.user == req.user)
  }

  function Post(l: Ledger, row: Row): Ledger
    requires row.workspace in l.balances
  {
    Ledger(l.balances[row.workspace := l.balances[row.workspace] + row.amount], l.rows + [row])
  }

  datatype Outcome = Outcome(ledger: Ledger, result: Result<Moved>)

  function Checked(req: Req): Option<Failure> {
    if TrimSpace(req.key) == "" then Some(KeyRequired)
    else if req.workspace <= 0 then Some(WorkspaceRequired)
    else if req.amount <= 0.0 then Some(AmountNotPositive)
    else if req.amount > MAX_IDEM_AMOUNT then Some(OverCeiling)
    else None
  }

  function Replay(l: Ledger, i: nat, req: Req, kind: Kind): Result<Moved>
    requires i < |l.rows|
  {
    if !SameMovement(l.rows[i], req, kind) then Err(IdemConflict)
    else
      var moved := Abs(l.rows[i].amount);
      var bal := if req.workspace in l.balances then l.balances[req.workspace] else 0.0;
      Ok(Moved(i + 1, moved, bal, kind == Charge && moved < req.amount, true))
  }

  function MoveOnce(l: Ledger, req: Req, kind: Kind): Outcome
    requires req.workspace in l.balances
  {
    var bal := l.balances[req.workspace];
    var moved := if kind == Charge then ClampCharge(bal, req.amount, req.maxOverdraft) else req.amount;
    var delta := if kind == Charge then -moved else moved;
    var clamped := kind == Charge && moved < req.amount;
    if moved == 0.0 then Outcome(l, Ok(Moved(0, 0.0, bal + delta, clamped, false)))
    else
      Outcome(Post(l, Row(req.workspace, req.user, kind, delta, TrimSpace(req.key))),
              Ok(Moved(|l.rows| + 1, moved, bal + delta, clamped, false)))
  }

  // walletIdem: a known key is answered from its row, an unknown one moves the money.
  function Idem(l: Ledger, req: Req, kind: Kind): Outcome {
    if Checked(req).Some? then Outcome(l, Err(Checked(req).value))
    else
      var settled := Find(l.rows, TrimSpace(req.key));
      if settled.Some? then Outcome(l, Replay(l, settled.value, req, kind))
      else if req.workspace !in l.balances then Outcome(l, Err(NotFound))
      else MoveOnce(l, req, kind)
  }

  // ChargeWorkspaceWithFloor: the same clamp, without a key.
  function ChargeOnce(l: Ledger, ws: int, user: int, amount: real, maxOverdraft: real): (Ledger, Result<real>) {
    if amount <= 0.0 then (l, if ws in l.balances then Ok(0.0) else Err(NotFound))
    else if ws !in l.balances then (l, Err(NotFound))
    else
      var charged := ClampCharge(l.balances[ws], amount, maxOverdraft);
      (if charged == 0.0 then l else Post(l, Row(ws, user, Charge, -charged, "")), Ok(charged))
  }

  // addWorkspaceBalanceTx: money in, and the operator's adjustments.
  function Adjust(l: Ledger, ws: int, user: int, kind: Kind, delta: real, allowNegative: bool): (Ledger, Result<real>) {
    if ws !in l.balances then (l, Err(NotFound))
    else if l.balances[ws] + delta < 0.0 && !allowNegative then (l, Err(InsufficientBalance))
    else (Post(l, Row(ws, user, kind, delta, "")), Ok(l.balances[ws] + delta))
  }

  datatype Op =
    | Keyed(req: Req, kind: Kind)
    | Plain(ws: int, user: int, amount: real, maxOverdraft: real)
    | Adjusted(ws: int, user: int, kind: Kind, delta: real, allowNegative: bool)

  function Perform(l: Ledger, op: Op): Ledger {
    match op
    case Keyed(req, kind) => Idem(l, req, kind).ledger
    case Plain(ws, user, amount, maxOverdraft) => ChargeOnce(l, ws, user, amount, maxOverdraft).0
    case Adjusted(ws, user, kind, delta, allowNegative) => Adjust(l, ws, user, kind, delta, allowNegative).0
  }

  function PerformAll(l: Ledger, ops: seq<Op>): Ledger
    decreases |ops|
  {
    if ops == [] then l else PerformAll(Perform(l, ops[0]), ops[1..])
  }

  // ---------------------------------------------------------------- the ledger explains the balances

  function Total(rows: seq<Row>, ws: int): real {
    if rows == [] then 0.0
    else Total(rows[..|rows| - 1], ws) + if rows[|rows| - 1].workspace == ws then rows[|rows| - 1].amount else 0.0
  }

  ghost predicate UniqueKeys(rows: seq<Row>) {
    forall i, j | 0 <= i < j < |rows| && rows[i].key != "" :: rows[i].key != rows[j].key
  }

  // Every balance is what the workspace opened with plus its rows, and no key has two rows.
  ghost predicate Balanced(l: Ledger, opening: map<int, real>) {
    l.balances.Keys == opening.Keys && UniqueKeys(l.rows) &&
    forall ws | ws in opening :: l.balances[ws] == opening[ws] + Total(l.rows, ws)
  }

  // The ledger is append-only, and an operation adds one row at most.
  ghost predicate Grows(l: Ledger, l': Ledger) {
    l' == l || (|l'.rows| == |l.rows| + 1 && l'.rows[..|l.rows|] == l.rows &&
                l'.rows[|l.rows|].workspace in l.balances && l' == Post(l, l'.rows[|l.rows|]) &&
                (l'.rows[|l.rows|].key != "" ==> Find(l.rows, l'.rows[|l.rows|].key).None?))
  }

  lemma OperationGrows(l: Ledger, op: Op)
    ensures Grows(l, Perform(l, op))
  {
    var l' := Perform(l, op);
    if l' != l {
      assert l'.rows == l.rows + [l'.rows[|l.rows|]];
    }
  }

  lemma GrowthKeepsBalance(l: Ledger, l': Ledger, opening: map<int, real>)
    requires Balanced(l, opening) && Grows(l, l')
    ensures Balanced(l', opening)
  {
    if l' != l {
      assert l'.rows[..|l'.rows| - 1] == l.rows;
      forall i, j | 0 <= i < j < |l'.rows| && l'.rows[i].key != "" ensures l'.rows[i].key != l'.rows[j].key {
        assert l'.rows[i] == l.rows[i];
        if j < |l.rows| {
          assert l'.rows[j] == l.rows[j];
        }
      }
    }
  }

  // Whatever is charged, refunded, replayed or adjusted, money is only ever moved by a ledger row, and
  // no key moves money twice.
  lemma {:induction false} MoneyIsConserved(l: Ledger, ops: seq<Op>, opening: map<int, real>)
    requires Balanced(l, opening)
    ensures Balanced(PerformAll(l, ops), opening)
    decreases |ops|
  {
    hide Balanced, Perform;
    if ops != [] {
      OperationGrows(l, ops[0]);
      GrowthKeepsBalance(l, Perform(l, ops[0]), opening);
      MoneyIsConserved(Perform(l, ops[0]), ops[1..], opening);
    }
  }

  lemma {:induction false} RowsArePermanent(l: Ledger, ops: seq<Op>)
    ensures l.rows <= PerformAll(l, ops).rows
    ensures PerformAll(l, ops).balances.Keys == l.balances.Keys
    decreases |ops|
  {
    hide Perform;
    if ops != [] {
      OperationGrows(l, ops[0]);
      RowsArePermanent(Perform(l, ops[0]), ops[1..]);
    }
  }

  lemma KeyHasOneRow(rows: seq<Row>, i: nat)
    requires UniqueKeys(rows) && i < |rows| && rows[i].key != ""
    ensures Find(rows, rows[i].key) == Some(i)
  {
  }

  // The first presentation of a key takes what the floor leaves of the amount, no more and no less, and
  // the balance and one new row say so; a credit moves the whole amount the other way.
  lemma FirstMovementIsExact(l: Ledger, req: Req, kind: Kind)
    requires Checked(req).None? && Find(l.rows, TrimSpace(req.key)).None? && req.workspace in l.balances
    ensures var o := Idem(l, req, kind); var bal := l.balances[req.workspace];
      o.result.Ok? && !o.result.value.replayed &&
      var moved := o.result.value.charged;
      (kind == Charge && req.maxOverdraft > 0.0 ==>
         (bal >= req.amount - req.maxOverdraft ==> moved == req.amount) &&
         (-req.maxOverdraft <= bal < req.amount - req.maxOverdraft ==> moved == bal + req.maxOverdraft) &&
         (bal <= -req.maxOverdraft ==> moved == 0.0)) &&
      (kind != Charge || req.maxOverdraft <= 0.0 ==> moved == req.amount) &&
      o.result.value.newBalance == (if kind == Charge then bal - moved else bal + moved) &&
      (o.result.value.clamped <==> kind == Charge && moved < req.amount) &&
      (moved == 0.0 ==> o.ledger == l && o.result.value.txId == 0) &&
      (moved != 0.0 ==>
         o.result.value.txId == |l.rows| + 1 &&
         o.ledger.balances == l.balances[req.workspace := if kind == Charge then bal - moved else bal + moved] &&
         var delta := if kind == Charge then -moved else moved;
         o.ledger.rows == l.rows + [Row(req.workspace, req.user, kind, delta, TrimSpace(req.key))])
  {
    if kind == Charge {
      assert l.balances[req.workspace] + -ClampCharge(l.balances[req.workspace], req.amount, req.maxOverdraft) ==
             l.balances[req.workspace] - ClampCharge(l.balances[req.workspace], req.amount, req.maxOverdraft);
    }
  }

  // When a keyed movement is refused, and why; a refusal changes nothing.
  lemma RefusedExactly(l: Ledger, req: Req, kind: Kind)
    ensures var o := Idem(l, req, kind); var key := TrimSpace(req.key);
      var inOrder := key != "" && req.workspace > 0 && 0.0 < req.amount <= 1000.0;
      (o.result.Err? ==> o.ledger == l) &&
      (o.result == Err(KeyRequired) <==> key == "") &&
      (o.result == Err(WorkspaceRequired) <==> key != "" && req.workspace <= 0) &&
      (o.result == Err(AmountNotPositive) <==> key != "" && req.workspace > 0 && req.amount <= 0.0) &&
      (o.result == Err(OverCeiling) <==> key != "" && req.workspace > 0 && req.amount > 1000.0) &&
      (o.result == Err(NotFound) <==> inOrder && Find(l.rows, key).None? && req.workspace !in l.balances) &&
      (o.result == Err(IdemConflict) <==>
         inOrder && Find(l.rows, key).Some? &&
         var row := l.rows[Find(l.rows, key).value];
         row.kind != kind || row.workspace != req.workspace || (req.user != 0 && row.user != req.user)) &&
      (o.result.Err? ==> o.result.error !in {InsufficientBalance, Transient})
  {
  }

  // The first charge under a key is the charge without one, but for the key on its row.
  lemma KeyedChargeIsThePlainOne(l: Ledger, req: Req)
    requires Checked(req).None? && Find(l.rows, TrimSpace(req.key)).None?
    ensures var o := Idem(l, req, Charge);
      var (l', r) := ChargeOnce(l, req.workspace, req.user, req.amount, req.maxOverdraft);
      (o.result.Ok? <==> r.Ok?) && (r.Err? ==> o.result == Err(r.error)) &&
      (r.Ok? ==> o.result.value.charged == r.value) &&
      o.ledger.balances == l'.balances && |o.ledger.rows| == |l'.rows| &&
      forall i | 0 <= i < |l'.rows| ::
        o.ledger.rows[i] == if i < |l.rows| then l'.rows[i] else l'.rows[i].(key := TrimSpace(req.key))
  {
  }

  // A charge without a key takes what a first movement would, and writes it as a row without a key.
  lemma PlainChargeIsExact(l: Ledger, ws: int, user: int, amount: real, maxOverdraft: real)
    ensures var (l', r) := ChargeOnce(l, ws, user, amount, maxOverdraft);
      (r == Err(NotFound) <==> ws !in l.balances) && (r.Err? ==> r == Err(NotFound) && l' == l) &&
      (ws in l.balances && amount <= 0.0 ==> r == Ok(0.0) && l' == l) &&
      (ws in l.balances && amount > 0.0 ==>
         var bal, taken := l.balances[ws], r.value;
         taken == (if maxOverdraft <= 0.0 || bal >= amount - maxOverdraft then amount
                   else if bal <= -maxOverdraft then 0.0 else bal + maxOverdraft) &&
         l' == if taken == 0.0 then l
               else Ledger(l.balances[ws := bal - taken], l.rows + [Row(ws, user, Charge, -taken, "")]))
  {
    if ws in l.balances && amount > 0.0 {
      var taken := ChargeOnce(l, ws, user, amount, maxOverdraft).1.value;
      assert l.balances[ws] + -taken == l.balances[ws] - taken;
    }
  }

  // An adjustment is the whole delta or nothing; it is refused exactly if it would leave less than nothing in
  // the workspace and was not allowed to.
  lemma AdjustmentIsExact(l: Ledger, ws: int, user: int, kind: Kind, delta: real, allowNegative: bool)
    ensures var (l', r) := Adjust(l, ws, user, kind, delta, allowNegative);
      (r == Err(NotFound) <==> ws !in l.balances) &&
      (r == Err(InsufficientBalance) <==> ws in l.balances && !allowNegative && l.balances[ws] < -delta) &&
      (r.Err? ==> l' == l && r.error in {NotFound, InsufficientBalance}) &&
      (r.Ok? ==>
         r.value == l.balances[ws] + delta &&
         l' == Ledger(l.balances[ws := r.value], l.rows + [Row(ws, user, kind, delta, "")]))
  {
  }

  // Once a keyed movement is on the ledger, presenting its key again, after anything else that happened,
  // moves nothing and reports the amount of the original row.
  lemma ReplayIsFree(l: Ledger, req: Req, ops: seq<Op>, again: Req, kind: Kind, opening: map<int, real>)
    requires Balanced(l, opening)
    requires var first := Idem(l, req, kind); first.result.Ok? && first.result.value.txId > 0
    requires Checked(again).None? && TrimSpace(again.key) == TrimSpace(req.key)
    requires again.workspace == req.workspace && (again.user == 0 || again.user == req.user)
    ensures var l1 := PerformAll(Idem(l, req, kind).ledger, ops);
      Idem(l1, again, kind).ledger == l1 && Idem(l1, again, kind).result.Ok? &&
      Idem(l1, again, kind).result.value.replayed &&
      Idem(l1, again, kind).result.value.txId == Idem(l, req, kind).result.value.txId &&
      Idem(l1, again, kind).result.value.charged == Idem(l, req, kind).result.value.charged &&
      Tells(l1, again, kind, Idem(l1, again, kind).result.value)
  {
    hide Balanced, Idem, Find, Perform, PerformAll, Replay, Checked, Tells;
    var first := Idem(l, req, kind);
    var i := FirstPosts(l, req, kind);
    RowsArePermanent(first.ledger, ops);
    var l1 := PerformAll(first.ledger, ops);
    assert l1.rows[i] == first.ledger.rows[i];
    OperationGrows(l, Keyed(req, kind));
    KeyedIs(l, req, kind);
    GrowthKeepsBalance(l, first.ledger, opening);
    MoneyIsConserved(first.ledger, ops, opening);
    ReplayOf(l1, i, again, kind, opening);
  }

  // The balance as it is now, and whether the original movement fell short of what is asked for this time.
  predicate Tells(l: Ledger, again: Req, kind: Kind, moved: Moved) {
    (again.workspace in l.balances ==> moved.newBalance == l.balances[again.workspace]) &&
    (moved.clamped <==> kind == Charge && moved.charged < again.amount)
  }

  lemma KeyedIs(l: Ledger, req: Req, kind: Kind)
    ensures Perform(l, Keyed(req, kind)) == Idem(l, req, kind).ledger
  {
  }

  // The row that a keyed movement reports, new or replayed.
  lemma FirstPosts(l: Ledger, req: Req, kind: Kind) returns (i: nat)
    requires Idem(l, req, kind).result.Ok? && Idem(l, req, kind).result.value.txId > 0
    ensures var first := Idem(l, req, kind);
      first.result.value.txId == i + 1 && i < |first.ledger.rows| && TrimSpace(req.key) != "" &&
      first.ledger.rows[i].key == TrimSpace(req.key) && SameMovement(first.ledger.rows[i], req, kind) &&
      first.result.value.charged == Abs(first.ledger.rows[i].amount)
  {
    i := Idem(l, req, kind).result.value.txId - 1;
  }

  lemma ReplayOf(l: Ledger, i: nat, req: Req, kind: Kind, opening: map<int, real>)
    requires Balanced(l, opening) && i < |l.rows| && l.rows[i].key == TrimSpace(req.key) && TrimSpace(req.key) != ""
    requires Checked(req).None? && SameMovement(l.rows[i], req, kind)
    ensures var o := Idem(l, req, kind);
      o.ledger == l && o.result.Ok? && o.result.value.replayed && o.result.value.txId == i + 1 &&
      o.result.value.charged == Abs(l.rows[i].amount) && Tells(l, req, kind, o.result.value)
  {
    hide Total;
    KeyHasOneRow(l.rows, i);
  }

  // ---------------------------------------------------------------- the overdraft floor

  function Least(x: real, y: real): real {
    if x < y then x else y
  }

  // Every charge carries the floor m.
  predicate ChargesWith(op: Op, m: real) {
    match op
    case Keyed(req, kind) => kind == Charge ==> req.maxOverdraft == m
    case Plain(_, _, _, maxOverdraft) => maxOverdraft == m
    case Adjusted(_, _, _, _, _) => true
  }

  // What adjustments that are allowed to go negative take from a workspace.
  function Allowed(op: Op, ws: int): (r: real)
    ensures r >= 0.0
  {
    if op.Adjusted? && op.ws == ws && op.allowNegative && op.delta < 0.0 then -op.delta else 0.0
  }

  function AllowedAll(ops: seq<Op>, ws: int): (r: real)
    ensures r >= 0.0
  {
    if ops == [] then 0.0 else Allowed(ops[0], ws) + AllowedAll(ops[1..], ws)
  }

  lemma OperationKeepsFloor(l: Ledger, op: Op, m: real, ws: int)
    requires m > 0.0 && ChargesWith(op, m) && ws in l.balances
    ensures ws in Perform(l, op).balances
    ensures Perform(l, op).balances[ws] >= Least(l.balances[ws], -m) - Allowed(op, ws)
  {
  }

  // With a positive floor on its charges no sequence of operations rests a balance below the floor, or
  // pushes one deeper that is; only what the operator explicitly allowed to go negative comes on top.
  lemma {:induction false} FloorHolds(l: Ledger, ops: seq<Op>, m: real, ws: int)
    requires m > 0.0 && ws in l.balances && forall i | 0 <= i < |ops| :: ChargesWith(ops[i], m)
    ensures ws in PerformAll(l, ops).balances
    ensures PerformAll(l, ops).balances[ws] >= Least(l.balances[ws], -m) - AllowedAll(ops, ws)
    decreases |ops|
  {
    hide Perform, ChargesWith, Allowed;
    if ops != [] {
      OperationKeepsFloor(l, ops[0], m, ws);
      FloorHolds(Perform(l, ops[0]), ops[1..], m, ws);
    }
  }

  // ---------------------------------------------------------------- the store

  // What becomes of a transaction: it is acknowledged, it commits but the caller is told it failed, or
  // it does not commit.
  datatype Fate = Acked | AckLost | RolledBack

  // What the caller of a keyed movement is told.
  function Seen(l: Ledger, req: Req, kind: Kind, fate: Fate): Result<Moved> {
    var r := Idem(l, req, kind).result;
    match fate
    case Acked => r
    case AckLost => if r.Ok? then Err(Transient) else r
    case RolledBack => if Checked(req).Some? then r else Err(Transient)
  }

  // A success is told exactly if the movement succeeded and was acknowledged. A refusal is told as it is unless
  // the transaction did not get to it, and otherwise the caller only hears of a transient fault.
  lemma ToldExactly(l: Ledger, req: Req, kind: Kind, fate: Fate)
    ensures var r, told := Idem(l, req, kind).result, Seen(l, req, kind, fate);
      (told.Ok? <==> fate.Acked? && r.Ok?) && (told == r || told == Err(Transient)) &&
      (told == Err(Transient) <==> (fate.AckLost? && r.Ok?) || (fate.RolledBack? && Checked(req).None?))
  {
    RefusedExactly(l, req, kind);
  }

  class WalletDb {
    var balances: map<int, real>
    var rows: seq<Row>

    ghost function View(): Ledger
      reads this
    {
      Ledger(balances, rows)
    }

    constructor (balances: map<int, real>)
      ensures this.balances == balances && rows == []
    {
      this.balances := balances;
      rows := [];
    }

    method FindIdemRow(key: string) returns (r: Option<nat>)
      ensures r == Find(rows, key)
    {
      var i := |rows|;
      assert rows[..i] == rows;
      while i > 0 && rows[i - 1].key != key
        invariant i <= |rows| && Find(rows, key) == Find(rows[..i], key)
      {
        assert rows[..i][..i - 1] == rows[..i - 1];
        i := i - 1;
      }
      return if i > 0 then Some(i - 1) else None;
    }

    method InsertLedger(row: Row)
      requires row.workspace in balances
      modifies this
      ensures View() == Post(old(View()), row)
    {
      balances := balances[row.workspace := balances[row.workspace] + row.amount];
      rows := rows + [row];
    }

    method WalletIdem(req: Req, kind: Kind, fate: Fate) returns (r: Result<Moved>)
      modifies this
      ensures View() == if fate.RolledBack? then old(View()) else Idem(old(View()), req, kind).ledger
      ensures r == Seen(old(View()), req, kind, fate)
    {
      var key := TrimSpace(req.key);
      if key == "" {
        return Err(KeyRequired);
      }
      if req.workspace <= 0 {
        return Err(WorkspaceRequired);
      }
      if req.amount <= 0.0 {
        return Err(AmountNotPositive);
      }
      if req.amount > MAX_IDEM_AMOUNT {
        return Err(OverCeiling);
      }
      if fate.RolledBack? {
        return Err(Transient);
      }
      var settled := FindIdemRow(key);
      if settled.Some? {
        var row := rows[settled.value];
        if row.kind != kind || row.workspace != req.workspace || (req.user != 0 && row.user != req.user) {
          return Err(IdemConflict);
        }
        var moved := Abs(row.amount);
        var live := if row.workspace in balances then balances[row.workspace] else 0.0;
        return if fate.Acked? then Ok(Moved(settled.value + 1, moved, live, kind == Charge && moved < req.amount, true))
               else Err(Transient);
      }
      if req.workspace !in balances {
        return Err(NotFound);
      }
      var bal := balances[req.workspace];
      var moved, delta, clamped := req.amount, req.amount, false;
      if kind == Charge {
        moved := ClampCharge(bal, req.amount, req.maxOverdraft);
        clamped := moved < req.amount;
        delta := -moved;
      }
      var txId := 0;
      if moved != 0.0 {
        InsertLedger(Row(req.workspace, req.user, kind, delta, key));
        txId := |rows|;
      }
      return if fate.Acked? then Ok(Moved(txId, moved, bal + delta, clamped, false)) else Err(Transient);
    }

    method ChargeWorkspaceWithFloor(ws: int, user: int, amount: real, maxOverdraft: real, fate: Fate)
      returns (r: Result<real>)
      modifies this
      ensures View() == if fate.RolledBack? then old(View())
                        else ChargeOnce(old(View()), ws, user, amount, maxOverdraft).0
      ensures r == if fate.Acked? then ChargeOnce(old(View()), ws, user, amount, maxOverdraft).1
                   else if fate.RolledBack? then Err(Transient)
                   else if ws in old(balances) then Err(Transient) else Err(NotFound)
    {
      if fate.RolledBack? {
        return Err(Transient);
      }
      if ws !in balances {
        return Err(NotFound);
      }
      var charged := 0.0;
      if amount > 0.0 {
        charged := ClampCharge(balances[ws], amount, maxOverdraft);
        if charged != 0.0 {
          InsertLedger(Row(ws, user, Charge, -charged, ""));
        }
      }
      return if fate.Acked? then Ok(charged) else Err(Transient);
    }

    // Traffic of other requests.
    method Serve(ops: seq<Op>)
      modifies this
      ensures View() == PerformAll(old(View()), ops)
    {
      var left := ops;
      while left != []
        invariant PerformAll(View(), left) == PerformAll(old(View()), ops)
        decreases |left|
      {
        match left[0] {
          case Keyed(req, kind) =>
            var _ := WalletIdem(req, kind, Acked);
          case Plain(ws, user, amount, maxOverdraft) =>
            var _ := ChargeWorkspaceWithFloor(ws, user, amount, maxOverdraft, Acked);
          case Adjusted(ws, user, kind, delta, allowNegative) =>
            var _ := AddWorkspaceBalance(ws, user, kind, delta, allowNegative);
        }
        left := left[1..];
      }
    }

    method AddWorkspaceBalance(ws: int, user: int, kind: Kind, delta: real, allowNegative: bool)
      returns (r: Result<real>)
      modifies this
      ensures View() == Adjust(old(View()), ws, user, kind, delta, allowNegative).0
      ensures r == Adjust(old(View()), ws, user, kind, delta, allowNegative).1
    {
      if ws !in balances {
        return Err(NotFound);
      }
      var bal := balances[ws] + delta;
      if bal < 0.0 && !allowNegative {
        return Err(InsufficientBalance);
      }
      InsertLedger(Row(ws, user, kind, delta, ""));
      return Ok(bal);
    }
  }
}
