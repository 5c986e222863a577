/** The gated token refresh of internal/server/codex_auth_reject.go, for one credential: any number of
    callers whose bearer was rejected, and rotations that do not go through the gate. */
module RefreshGate {
  datatype Token = Token(text: string)

  datatype Caller = Caller(id: nat)

  // Where a caller of recoverRejectedToken stands; `seen` is the bearer that was rejected.
  datatype At =
    | Waiting(seen: Token)                 // before the credential's mutex
    | Locked(seen: Token)
    | Refreshing(seen: Token)              // compared equal, the exchange is under way
    | Refreshed(seen: Token)               // the exchange reported success
    | Returning(seen: Token, rotated: bool, failed: bool)   // the result is fixed, the mutex not yet freed
    | Returned(seen: Token, rotated: bool, failed: bool)

  // `held` is every token the credential ever carried, `minted` counts the exchanges of gated callers
  // that installed a token, by the rejected token they were for.
  datatype Gate = Gate(
    token: Token, held: set<Token>, owner: set<Caller>, callers: map<Caller, At>, minted: map<Token, nat>)

  datatype Step =
    | Call(who: Caller, seen: Token)
    | Lock(who: Caller)
    | Compare(who: Caller)
    | Fail(who: Caller)                    // the exchange is refused
    | Mint(who: Caller, next: Token)      // … or installs a new token
    | Keep(who: Caller)                    // … or succeeds without installing one
    | Recheck(who: Caller)
    | Unlock(who: Caller)
    | Rotate(next: Token)                 // a refresh that does not take the gate

  predicate Stands(g: Gate, who: Caller) {
    who in g.callers
  }

  // Exchanges install tokens never held before; a rejected bearer is one the credential carried.
  predicate Enabled(g: Gate, step: Step) {
    match step
    case Call(who, seen) => who !in g.callers && seen in g.held
    case Lock(who) => Stands(g, who) && g.callers[who].Waiting? && g.owner == {}
    case Compare(who) => Stands(g, who) && g.callers[who].Locked?
    case Fail(who) => Stands(g, who) && g.callers[who].Refreshing?
    case Mint(who, next) => Stands(g, who) && g.callers[who].Refreshing? && next !in g.held
    case Keep(who) => Stands(g, who) && g.callers[who].Refreshing?
    case Recheck(who) => Stands(g, who) && g.callers[who].Refreshed?
    case Unlock(who) => Stands(g, who) && g.callers[who].Returning?
    case Rotate(next) => next !in g.held
  }

  function Minted(g: Gate, t: Token): nat {
    if t in g.minted then g.minted[t] else 0
  }

  function Put(g: Gate, who: Caller, at: At): Gate {
    g.(callers := g.callers[who := at])
  }

  function Apply(g: Gate, step: Step): Gate
    requires Enabled(g, step)
  {
    match step
    case Call(who, seen) => Put(g, who, Waiting(seen))
    case Lock(who) => Put(g.(owner := {who}), who, Locked(g.callers[who].seen))
    case Compare(who) =>
      var seen := g.callers[who].seen;
      Put(g, who, if g.token != seen then Returning(seen, true, false) else Refreshing(seen))
    case Fail(who) => Put(g, who, Returning(g.callers[who].seen, false, true))
    case Mint(who, next) =>
      var seen := g.callers[who].seen;
      Put(g.(token := next, held := g.held + {next}, minted := g.minted[seen := Minted(g, seen) + 1]),
          who, Refreshed(seen))
    case Keep(who) => Put(g, who, Refreshed(g.callers[who].seen))
    case Recheck(who) =>
      var seen := g.callers[who].seen;
      Put(g, who, Returning(seen, g.token != seen, false))
    case Unlock(who) =>
      var at := g.callers[who];
      Put(g.(owner := {}), who, Returned(at.seen, at.rotated, at.failed))
    case Rotate(next) => g.(token := next, held := g.held + {next})
  }

  predicate Inside(at: At) {
    at.Locked? || at.Refreshing? || at.Refreshed? || at.Returning?
  }

  // gs[i] is the gate before step i.
  ghost predicate Run(gs: seq<Gate>, steps: seq<Step>) {
    |gs| == |steps| + 1 && gs[0].owner == {} && gs[0].callers == map[] && gs[0].minted == map[] &&
    gs[0].token in gs[0].held && forall i | 0 <= i < |steps| :: Happens(gs, steps, i)
  }

  ghost predicate Happens(gs: seq<Gate>, steps: seq<Step>, i: nat)
    requires |gs| == |steps| + 1 && i < |steps|
  {
    Enabled(gs[i], steps[i]) && gs[i + 1] == Apply(gs[i], steps[i])
  }

  // The mutex is held by exactly the caller inside.
  ghost predicate Exclusive(g: Gate) {
    forall w | w in g.callers && Inside(g.callers[w]) :: g.owner == {w}
  }

  ghost predicate Carried(g: Gate) {
    g.token in g.held && forall w | w in g.callers :: g.callers[w].seen in g.held
  }

  // A bearer that was refreshed is gone for good, and refreshed once.
  ghost predicate GoneForGood(g: Gate) {
    forall t :: Minted(g, t) <= 1 && (Minted(g, t) > 0 ==> t in g.held && t != g.token)
  }

  ghost predicate RefreshingFirst(g: Gate) {
    forall w | w in g.callers && g.callers[w].Refreshing? :: Minted(g, g.callers[w].seen) == 0
  }

  ghost predicate Truthful(g: Gate) {
    forall w | w in g.callers && (g.callers[w].Returning? || g.callers[w].Returned?) && g.callers[w].rotated ::
      g.callers[w].seen != g.token
  }

  ghost predicate Inv(g: Gate) {
    Exclusive(g) && Carried(g) && GoneForGood(g) && RefreshingFirst(g) && Truthful(g)
  }

  lemma MutexKept(g: Gate, step: Step)
    requires Exclusive(g) && Carried(g) && Enabled(g, step)
    ensures Exclusive(Apply(g, step)) && Carried(Apply(g, step))
  {
  }

  lemma MintsKept(g: Gate, step: Step)
    requires Exclusive(g) && Carried(g) && GoneForGood(g) && RefreshingFirst(g) && Enabled(g, step)
    ensures GoneForGood(Apply(g, step)) && RefreshingFirst(Apply(g, step))
  {
    var g' := Apply(g, step);
    forall t ensures Minted(g', t) <= 1 && (Minted(g', t) > 0 ==> t in g'.held && t != g'.token) {
      assert Minted(g, t) <= 1;
    }
  }

  lemma TruthKept(g: Gate, step: Step)
    requires Carried(g) && Truthful(g) && Enabled(g, step)
    ensures Truthful(Apply(g, step))
  {
  }

  lemma StepKeepsInv(g: Gate, step: Step)
    requires Inv(g) && Enabled(g, step)
    ensures Inv(Apply(g, step))
  {
    MutexKept(g, step);
    MintsKept(g, step);
    TruthKept(g, step);
    hide Exclusive, Carried, GoneForGood, RefreshingFirst, Truthful, Apply;
  }

  // Over every run, whatever the interleaving, each rejected token leads to at most one exchange that
  // installs a token, and a caller told `rotated` finds another token than the one it saw, then and ever
  // after.
  lemma {:induction false} OneMintPerRejectedToken(gs: seq<Gate>, steps: seq<Step>, i: nat)
    requires Run(gs, steps) && i < |gs|
    ensures Inv(gs[i])
    ensures forall t :: Minted(gs[i], t) <= 1
    ensures forall w | w in gs[i].callers && gs[i].callers[w].Returned? && gs[i].callers[w].rotated ::
              gs[i].callers[w].seen != gs[i].token
  {
    if i > 0 {
      assert Happens(gs, steps, i - 1);
      OneMintPerRejectedToken(gs, steps, i - 1);
      StepKeepsInv(gs[i - 1], steps[i - 1]);
    }
  }

  lemma {:induction false} MintedStays(gs: seq<Gate>, steps: seq<Step>, i: nat, j: nat, t: Token)
    requires Run(gs, steps) && i <= j < |gs|
    ensures Minted(gs[i], t) <= Minted(gs[j], t)
    decreases j
  {
    if i < j {
      assert Happens(gs, steps, j - 1);
      MintedStays(gs, steps, i, j - 1, t);
    }
  }

  // Two exchanges that install a token were for different rejected bearers: however many callers saw the
  // same bearer rejected, one of them at most replaces it. An exchange that is refused, or keeps the token,
  // may be tried again by the next caller.
  lemma BearerIsRefreshedOnce(gs: seq<Gate>, steps: seq<Step>, i: nat, j: nat)
    requires Run(gs, steps) && i < j < |steps| && steps[i].Mint? && steps[j].Mint?
    requires Stands(gs[i], steps[i].who) && Stands(gs[j], steps[j].who)
    ensures gs[i].callers[steps[i].who].seen != gs[j].callers[steps[j].who].seen
  {
    assert Happens(gs, steps, i) && Happens(gs, steps, j);
    var seen := gs[i].callers[steps[i].who].seen;
    MintedStays(gs, steps, i + 1, j, seen);
    OneMintPerRejectedToken(gs, steps, j);
    OneMintPerRejectedToken(gs, steps, j + 1);
  }

  // The token in use is the one that was installed last, by an exchange behind the gate or from outside.
  function LastInstalled(first: Token, steps: seq<Step>): Token {
    if steps == [] then first
    else match steps[|steps| - 1]
      case Mint(_, next) => next
      case Rotate(next) => next
      case _ => LastInstalled(first, steps[..|steps| - 1])
  }

  lemma {:induction false} TokenIsLastInstalled(gs: seq<Gate>, steps: seq<Step>, n: nat)
    requires Run(gs, steps) && n < |gs|
    ensures gs[n].token == LastInstalled(gs[0].token, steps[..n])
  {
    if n > 0 {
      assert Happens(gs, steps, n - 1);
      TokenIsLastInstalled(gs, steps, n - 1);
      assert steps[..n][..n - 1] == steps[..n - 1];
    }
  }

  // ---------------------------------------------------------------- one caller

  datatype Exchange = Refused | Installs(next: Token) | KeepsToken

  // The steps of a call that nothing interrupts: in, and out again.
  function Enter(g: Gate, who: Caller, seen: Token): Gate
    requires who !in g.callers && g.owner == {} && seen in g.held
  {
    Apply(Apply(Apply(g, Call(who, seen)), Lock(who)), Compare(who))
  }

  function Leave(g: Gate, who: Caller, exchange: Exchange): Gate
    requires who in g.callers && (g.callers[who].Refreshing? || g.callers[who].Returning?)
    requires exchange.Installs? ==> exchange.next !in g.held
  {
    if g.callers[who].Returning? then Apply(g, Unlock(who))
    else match exchange
      case Refused => Apply(Apply(g, Fail(who)), Unlock(who))
      case Installs(next) => Apply(Apply(Apply(g, Mint(who, next)), Recheck(who)), Unlock(who))
      case KeepsToken => Apply(Apply(Apply(g, Keep(who)), Recheck(who)), Unlock(who))
  }

  lemma PutTwice(g: Gate, who: Caller, a: At, b: At)
    ensures Put(Put(g, who, a), who, b) == Put(g, who, b)
  {
    assert g.callers[who := a][who := b] == g.callers[who := b];
  }

  lemma EnterIs(g: Gate, who: Caller, seen: Token)
    requires who !in g.callers && g.owner == {} && seen in g.held
    ensures Enter(g, who, seen) ==
            Put(g.(owner := {who}), who, if g.token != seen then Returning(seen, true, false) else Refreshing(seen))
  {
    var inside := g.(owner := {who});
    PutTwice(inside, who, Waiting(seen), Locked(seen));
    PutTwice(inside, who, Locked(seen), if g.token != seen then Returning(seen, true, false) else Refreshing(seen));
  }

  lemma LeaveIs(g: Gate, who: Caller, seen: Token, exchange: Exchange)
    requires g.owner == {} && (exchange.Installs? ==> exchange.next !in g.held)
    ensures var entered := Put(g.(owner := {who}), who, Refreshing(seen));
      Leave(entered, who, exchange) ==
        match exchange
        case Refused => Put(g, who, Returned(seen, false, true))
        case Installs(next) =>
          Put(g.(token := next, held := g.held + {next}, minted := g.minted[seen := Minted(g, seen) + 1]), who,
              Returned(seen, next != seen, false))
        case KeepsToken => Put(g, who, Returned(seen, g.token != seen, false))
  {
    var refreshing := Refreshing(seen);
    match exchange
    case Refused =>
      PutTwice(g, who, refreshing, Returning(seen, false, true));
      PutTwice(g, who, Returning(seen, false, true), Returned(seen, false, true));
    case Installs(next) =>
      var g' := g.(token := next, held := g.held + {next}, minted := g.minted[seen := Minted(g, seen) + 1]);
      PutTwice(g', who, refreshing, Refreshed(seen));
      PutTwice(g', who, Refreshed(seen), Returning(seen, next != seen, false));
      PutTwice(g', who, Returning(seen, next != seen, false), Returned(seen, next != seen, false));
    case KeepsToken =>
      PutTwice(g, who, refreshing, Refreshed(seen));
      PutTwice(g, who, Refreshed(seen), Returning(seen, g.token != seen, false));
      PutTwice(g, who, Returning(seen, g.token != seen, false), Returned(seen, g.token != seen, false));
  }

  lemma TurnedAwayIs(g: Gate, who: Caller, seen: Token, exchange: Exchange)
    requires g.owner == {} && (exchange.Installs? ==> exchange.next !in g.held)
    ensures Leave(Put(g.(owner := {who}), who, Returning(seen, true, false)), who, exchange) ==
            Put(g, who, Returned(seen, true, false))
  {
    PutTwice(g, who, Returning(seen, true, false), Returned(seen, true, false));
  }

  class Credential {
    var token: Token
    var held: set<Token>
    var owner: set<Caller>
    var callers: map<Caller, At>
    var minted: map<Token, nat>

    ghost function View(): Gate
      reads this
    {
      Gate(token, held, owner, callers, minted)
    }

    constructor (token: Token)
      ensures View() == Gate(token, {token}, {}, map[], map[])
    {
      this.token, held, owner, callers, minted := token, {token}, {}, map[], map[];
    }

    /** recoverRejectedToken, under the credential's mutex. */
    method RecoverRejectedToken(who: Caller, seen: Token, exchange: Exchange) returns (rotated: bool, failed: bool)
      requires who !in callers && owner == {} && seen in held
      requires exchange.Installs? ==> exchange.next !in held
      modifies this
      ensures View() == Leave(Enter(old(View()), who, seen), who, exchange)
      ensures callers[who] == Returned(seen, rotated, failed) && (!failed ==> (rotated <==> token != seen))
      ensures old(token) != seen ==> rotated && token == old(token)
    {
      EnterIs(View(), who, seen);
      LeaveIs(View(), who, seen, exchange);
      TurnedAwayIs(View(), who, seen, exchange);
      hide Enter, Leave;
      rotated, failed := true, false;
      if token == seen {
        match exchange {
          case Refused =>
            rotated, failed := false, true;
          case Installs(next) =>
            minted := minted[seen := (if seen in minted then minted[seen] else 0) + 1];
            token, held := next, held + {next};
            rotated := token != seen;
          case KeepsToken =>
            rotated := token != seen;
        }
      }
      callers := callers[who := Returned(seen, rotated, failed)];
    }
  }
}
