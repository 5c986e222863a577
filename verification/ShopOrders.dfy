/** The life of an order over every run of the shop: settled at most once, for money, with one card and
    one email, however the webhook, the polls, the sweeper and the operator race. */
module ShopOrders {
  import opened Bytes
  import opened Shop
  import opened ShopTheorems

  function Rank(s: Status): nat {
    match s
    case Pending => 0
    case Expired => 1
    case AwaitManual => 2
    case Paid => 3
  }

  predicate Has(w: World, t: string) {
    t in w.db.orders
  }

  predicate Settled(w: World, t: string) {
    Has(w, t) && !Settleable(w.db.orders[t].status)
  }

  // An order may move up in rank; what was ordered, and for how much, stays.
  predicate Moves(o: Order, o': Order) {
    Rank(o.status) <= Rank(o'.status) && o'.trade == o.trade && o'.product == o.product &&
    o'.amount == o.amount && o'.currency == o.currency && o'.createdAt == o.createdAt
  }

  lemma StepMovesOrders(w: World, step: Step, t: string)
    requires Has(w, t)
    ensures Has(Apply(w, step), t) && Moves(w.db.orders[t], Apply(w, step).db.orders[t])
  {
    hide FirstUnsold;
  }

  lemma {:induction false} OrdersOnlyMoveUp(ws: seq<World>, steps: seq<Step>, i: nat, j: nat, t: string)
    requires Run(ws, steps) && i <= j < |ws| && Has(ws[i], t)
    ensures Has(ws[j], t) && Moves(ws[i].db.orders[t], ws[j].db.orders[t])
    decreases j
  {
    hide Apply;
    if i < j {
      assert Happens(ws, steps, j - 1);
      OrdersOnlyMoveUp(ws, steps, i, j - 1, t);
      StepMovesOrders(ws[j - 1], steps[j - 1], t);
    }
  }

  // Step i is the one that settles order t.
  ghost predicate Wins(ws: seq<World>, i: nat, t: string)
    requires i + 1 < |ws|
  {
    Has(ws[i], t) && !Settled(ws[i], t) && Settled(ws[i + 1], t)
  }

  lemma SettledAtMostOnce(ws: seq<World>, steps: seq<Step>, i: nat, j: nat, t: string)
    requires Run(ws, steps) && i < |steps| && j < |steps| && Wins(ws, i, t) && Wins(ws, j, t)
    ensures i == j
  {
    if i < j {
      OrdersOnlyMoveUp(ws, steps, i + 1, j, t);
    } else if j < i {
      OrdersOnlyMoveUp(ws, steps, j + 1, i, t);
    }
  }

  // The payment of step i was made, for the amount and in the currency of order t.
  ghost predicate PaysFor(ws: seq<World>, steps: seq<Step>, i: nat, t: string)
    requires |ws| == |steps| + 1 && i < |steps| && Has(ws[i], t)
  {
    steps[i].Payment? && steps[i].seen.trade == t && steps[i].sess.paid &&
    steps[i].sess.verifies(ws[i].db.orders[t].amount, ws[i].db.orders[t].currency)
  }

  lemma StepSettles(w: World, step: Step, t: string)
    requires !Settled(w, t) && Settled(Apply(w, step), t)
    ensures Has(w, t) && step.Payment? && step.seen.trade == t && Confirms(step.seen, step.sess)
  {
    hide FirstUnsold, InsertCards, Cleaned;
  }

  // Only a paid and verified session settles an order, even when it is checked against an old copy of it.
  lemma OnlyPaymentSettles(ws: seq<World>, steps: seq<Step>, i: nat, t: string)
    requires Run(ws, steps) && i < |steps| && !Settled(ws[i], t) && Settled(ws[i + 1], t)
    ensures Wins(ws, i, t) && PaysFor(ws, steps, i, t)
  {
    hide Apply;
    assert Happens(ws, steps, i);
    StepSettles(ws[i], steps[i], t);
    var r :| 0 <= r <= i && Read(ws[r], steps[i].seen);
    OrdersOnlyMoveUp(ws, steps, r, i, t);
  }

  lemma SettlementTakes(w: World, seen: Order, sess: Session, now: int)
    requires Has(w, seen.trade) && Confirms(seen, sess)
    ensures Settled(Confirm(w, seen, sess, now), seen.trade)
  {
    hide FirstUnsold;
  }

  // A confirmation of a paid and verified session always leaves its order settled, whatever copy of the
  // order the caller decided on: pending, swept to expired since, or already settled by a racing caller.
  lemma PaymentAlwaysSettles(ws: seq<World>, steps: seq<Step>, i: nat, t: string)
    requires Run(ws, steps) && i < |steps| && Has(ws[i], t) && PaysFor(ws, steps, i, t)
    ensures Settled(ws[i + 1], t)
    ensures !Settled(ws[i], t) ==> Wins(ws, i, t)
  {
    hide Apply, Confirm;
    assert Happens(ws, steps, i);
    var seen := steps[i].seen;
    var r :| 0 <= r <= i && Read(ws[r], seen);
    OrdersOnlyMoveUp(ws, steps, r, i, t);
    if Settleable(seen.status) {
      SettlementTakes(ws[i], seen, steps[i].sess, steps[i].now);
      assert Apply(ws[i], steps[i]) == Confirm(ws[i], seen, steps[i].sess, steps[i].now) by {
        ApplyPayment(ws[i], steps[i]);
      }
    } else {
      OrdersOnlyMoveUp(ws, steps, r, i + 1, t);
    }
  }

  lemma ApplyPayment(w: World, step: Step)
    requires step.Payment?
    ensures Apply(w, step) == Confirm(w, step.seen, step.sess, step.now)
  {
  }

  // Card c goes to order t in step i.
  ghost predicate Pops(ws: seq<World>, i: nat, c: nat, t: string)
    requires i + 1 < |ws|
  {
    c in ws[i + 1].db.cards && ws[i + 1].db.cards[c].owner == Some(t) &&
    !(c in ws[i].db.cards && ws[i].db.cards[c].owner == Some(t))
  }

  lemma StepPops(w: World, step: Step, c: nat, t: string)
    requires Sound(w.db)
    requires c in Apply(w, step).db.cards && Apply(w, step).db.cards[c].owner == Some(t)
    requires !(c in w.db.cards && w.db.cards[c].owner == Some(t))
    ensures !Settled(w, t)
  {
    hide FirstUnsold, InsertCards, Cleaned, Count, StockExact, SoldFirst, OneCardEach;
    if step.Append? {
      InsertsAre(w.db.cards, step.id, Cleaned(step.lines), w.db.nextCard);
    }
  }

  // Over its whole life an order is given at most one card, in the step that settles it.
  lemma AtMostOneCard(ws: seq<World>, steps: seq<Step>, i: nat, j: nat, c: nat, d: nat, t: string)
    requires Run(ws, steps) && i < |steps| && j < |steps| && Pops(ws, i, c, t) && Pops(ws, j, d, t)
    ensures i == j && c == d && Wins(ws, i, t)
  {
    PopWins(ws, steps, i, c, t);
    PopWins(ws, steps, j, d, t);
    SettledAtMostOnce(ws, steps, i, j, t);
    InventoryIsSound(ws, steps, i + 1);
  }

  lemma PopWins(ws: seq<World>, steps: seq<Step>, i: nat, c: nat, t: string)
    requires Run(ws, steps) && i < |steps| && Pops(ws, i, c, t)
    ensures Wins(ws, i, t)
  {
    hide Apply;
    assert Happens(ws, steps, i);
    InventoryIsSound(ws, steps, i);
    InventoryIsSound(ws, steps, i + 1);
    StepPops(ws[i], steps[i], c, t);
    OnlyPaymentSettles(ws, steps, i, t);
  }

  // ---------------------------------------------------------------- the settlement email

  function Mails(mail: seq<string>, t: string): nat {
    multiset(mail)[t]
  }

  lemma StepMails(w: World, step: Step, t: string)
    ensures var w' := Apply(w, step);
            Mails(w'.mail, t) == Mails(w.mail, t) + if !Settled(w, t) && Settled(w', t) then 1 else 0
  {
    hide FirstUnsold, InsertCards, Cleaned;
  }

  // Exactly one settlement email is queued for an order that is settled, and none for one that is not.
  lemma {:induction false} OneEmailPerSettlement(ws: seq<World>, steps: seq<Step>, n: nat, t: string)
    requires Run(ws, steps) && n < |ws|
    ensures Mails(ws[n].mail, t) == if Settled(ws[n], t) then 1 else 0
  {
    hide Apply;
    if n > 0 {
      assert Happens(ws, steps, n - 1);
      OneEmailPerSettlement(ws, steps, n - 1, t);
      StepMails(ws[n - 1], steps[n - 1], t);
      if Has(ws[n - 1], t) {
        StepMovesOrders(ws[n - 1], steps[n - 1], t);
      }
    }
  }

  // ---------------------------------------------------------------- placing and expiring

  // A placed order is pending, unpaid and undelivered, with what was ordered as it was ordered; a number that
  // is taken keeps its order.
  lemma PlacedExactly(w: World, o: Order, now: int)
    ensures var w' := Apply(w, Place(o, now));
      Has(w', o.trade) &&
      (!Has(w, o.trade) ==>
         var o' := w'.db.orders[o.trade];
         o'.status == Pending && o'.createdAt == now && o'.paidAt == 0 && o'.fulfillment == o'.tradeNo == "" &&
         o'.trade == o.trade && o'.product == o.product && o'.amount == o.amount &&
         o'.currency == NormalizeCurrency(o.currency)) &&
      (Has(w, o.trade) ==> w'.db.orders[o.trade] == w.db.orders[o.trade]) &&
      forall t | t != o.trade :: Has(w', t) == Has(w, t) && (Has(w, t) ==> w'.db.orders[t] == w.db.orders[t])
  {
  }

  // An amount is in US dollars if the currency says so in any case and with any blanks around it, and
  // otherwise in yuan.
  lemma CurrencyExactly(before: string, name: string, after: string)
    requires Blank(before) && Bare(name) && Blank(after)
    ensures NormalizeCurrency(before + name + after) ==
            if |name| == 3 && name[0] in "uU" && name[1] in "sS\U{017F}" && name[2] in "dD" then "usd" else "cny"
  {
    TrimSpaceExactly(before, name, after);
  }

  // A sweep expires exactly the pending orders older than its cutoff, and touches nothing else.
  lemma SweepExpiresExactly(w: World, cutoff: int, t: string)
    requires Has(w, t)
    ensures var o, o' := w.db.orders[t], Apply(w, Sweep(cutoff)).db.orders[t];
      o' == if o.status == Pending && o.createdAt < cutoff then o.(status := Expired) else o
    ensures var db, db' := w.db, Apply(w, Sweep(cutoff)).db;
      db'.orders.Keys == db.orders.Keys && db' == db.(orders := db'.orders)
  {
  }

  // What the operator delivers by hand replaces the delivery of an order that is settled, and then it is
  // paid; no other order is touched, and an unsettled one is not either.
  lemma HandDeliveryExactly(w: World, t: string, text: string)
    ensures var db, db' := w.db, Apply(w, ByHand(t, text)).db;
      db' == db.(orders := db'.orders) && db'.orders.Keys == db.orders.Keys &&
      (forall s | s in db.orders && s != t :: db'.orders[s] == db.orders[s]) &&
      (Has(w, t) ==>
         db'.orders[t] == if Settled(w, t) then db.orders[t].(fulfillment := text, status := Paid) else db.orders[t])
  {
  }

  // An expired order was overtaken by a sweep while it was pending: nothing else expires one.
  lemma {:induction false} ExpiredBySweep(ws: seq<World>, steps: seq<Step>, n: nat, t: string)
    requires Run(ws, steps) && n < |ws| && Has(ws[n], t) && ws[n].db.orders[t].status == Expired
    ensures exists i :: 0 <= i < n && steps[i].Sweep? && Has(ws[i], t) && ws[i].db.orders[t].status == Pending &&
                        ws[n].db.orders[t].createdAt < steps[i].cutoff
  {
    if n > 0 {
      assert Happens(ws, steps, n - 1);
      StepExpires(ws[n - 1], steps[n - 1], t);
      hide Apply;
      if Has(ws[n - 1], t) && ws[n - 1].db.orders[t].status == Expired {
        ExpiredBySweep(ws, steps, n - 1, t);
        OrdersOnlyMoveUp(ws, steps, n - 1, n, t);
      }
    }
  }

  lemma StepExpires(w: World, step: Step, t: string)
    requires Has(Apply(w, step), t) && Apply(w, step).db.orders[t].status == Expired
    ensures Has(w, t) && (w.db.orders[t].status == Expired ||
              (step.Sweep? && w.db.orders[t].status == Pending && w.db.orders[t].createdAt < step.cutoff &&
               Apply(w, step).db.orders[t].createdAt == w.db.orders[t].createdAt))
  {
    hide FirstUnsold, InsertCards, Cleaned;
  }

  // ---------------------------------------------------------------- what the buyer gets

  lemma {:induction false} SomeCardLeft(cards: map<nat, Secret>, p: nat, n: nat)
    requires Count(cards, p, false, n) > 0
    ensures exists c: nat :: c < n && Unsold(cards, p, c)
  {
    if Weight(cards, p, false, n - 1) == 0 {
      SomeCardLeft(cards, p, n - 1);
    } else {
      assert Unsold(cards, p, n - 1);
    }
  }

  // The operator is called in exactly when the product is gone, has no automatic delivery, or its stock
  // column reads zero; otherwise a card order takes the oldest unsold card, and its text is the delivery.
  lemma WhatSettlementDelivers(db: Db, trade: string, tradeNo: string, now: int)
    requires Sound(db) && trade in db.orders && Settleable(db.orders[trade].status)
    ensures var db' := SettleOrder(db, trade, tradeNo, now); var p := db.orders[trade].product;
      db'.orders[trade].tradeNo == tradeNo && db'.orders[trade].paidAt == now &&
      (p in db.products && db.products[p].delivery == Auto ==>
         db'.orders[trade].status == Paid && db'.orders[trade].fulfillment == db.products[p].template &&
         db'.cards == db.cards && db'.products == db.products) &&
      (db'.orders[trade].status == AwaitManual <==>
         p !in db.products || db.products[p].delivery == Unknown ||
         (db.products[p].delivery == Card && db.products[p].stock == 0)) &&
      (db'.orders[trade].status == AwaitManual ==>
         db'.orders[trade].fulfillment == "" && db'.cards == db.cards && db'.products == db.products) &&
      (forall t | t in db.orders && t != trade :: t in db'.orders && db'.orders[t] == db.orders[t]) &&
      (p in db.products && db.products[p].delivery == Card && db.products[p].stock > 0 ==>
         exists c: nat :: Unsold(db.cards, p, c) && (forall d: nat | d < c :: !Unsold(db.cards, p, d)) &&
                     db'.cards == db.cards[c := db.cards[c].(owner := Some(trade))] &&
                     db'.orders[trade].fulfillment == db.cards[c].content &&
                     db'.products[p].stock == db.products[p].stock - 1)
  {
    var p := db.orders[trade].product;
    if p in db.products && db.products[p].delivery == Card {
      var card := FirstUnsold(db.cards, p, 0, db.nextCard);
      if db.products[p].stock > 0 {
        SomeCardLeft(db.cards, p, db.nextCard);
        assert card.Some? && Unsold(db.cards, p, card.value);
      } else if card.Some? {
        CountPositive(db.cards, p, false, db.nextCard, card.value);
      }
    }
  }
}
