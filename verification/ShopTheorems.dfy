/** What holds of the shop over every run: any interleaving of buyers, webhooks, polls that decide on
    orders read earlier, the expiry sweeper and the operator, with any transaction failing. */
module ShopTheorems {
  import opened Bytes
  import opened Shop

  datatype Step =
    | Create(product: Product)
    | Edit(id: nat, product: Product)
    | Drop(id: nat)
    | Append(id: nat, lines: seq<string>)
    | DropSecret(card: nat)
    | Place(order: Order, now: int)
    | Payment(seen: Order, sess: Session, now: int)   // a webhook or a poll; `seen` may be long out of date
    | ByHand(trade: string, text: string)
    | Sweep(cutoff: int)
    | Fail                                            // a transaction that does not commit

  function Apply(w: World, step: Step): World {
    match step
    case Create(p) => w.(db := AddProduct(w.db, p))
    case Edit(id, p) => w.(db := EditProduct(w.db, id, p))
    case Drop(id) => w.(db := DropProduct(w.db, id))
    case Append(id, lines) => w.(db := AppendCards(w.db, id, lines))
    case DropSecret(card) => w.(db := DropCard(w.db, card))
    case Place(o, now) => w.(db := PlaceOrder(w.db, o, now))
    case Payment(seen, sess, now) => Confirm(w, seen, sess, now)
    case ByHand(trade, text) => w.(db := FulfilByHand(w.db, trade, text))
    case Sweep(cutoff) => w.(db := ExpireBefore(w.db, cutoff))
    case Fail => w
  }

  // ws[i] is the world before step i. A payment decides on an order somebody read at some point before.
  ghost predicate Run(ws: seq<World>, steps: seq<Step>) {
    |ws| == |steps| + 1 && ws[0] == World(Db(map[], map[], map[], 0, 0), []) &&
    forall i | 0 <= i < |steps| :: Happens(ws, steps, i)
  }

  ghost predicate Happens(ws: seq<World>, steps: seq<Step>, i: nat)
    requires |ws| == |steps| + 1 && i < |steps|
  {
    ws[i + 1] == Apply(ws[i], steps[i]) &&
    (steps[i].Payment? ==> exists r | 0 <= r <= i :: Read(ws[r], steps[i].seen))
  }

  predicate Read(w: World, o: Order) {
    o.trade in w.db.orders && w.db.orders[o.trade] == o
  }

  // ---------------------------------------------------------------- stock

  function Weight(cards: map<nat, Secret>, p: nat, sold: bool, c: nat): nat {
    if c in cards && cards[c].product == p && cards[c].owner.Some? == sold then 1 else 0
  }

  // The cards of product p with an id below n that are sold, or that are not.
  function Count(cards: map<nat, Secret>, p: nat, sold: bool, n: nat): nat {
    if n == 0 then 0 else Count(cards, p, sold, n - 1) + Weight(cards, p, sold, n - 1)
  }

  // Tables that differ at most at card c differ in their counts by that card.
  lemma {:induction false} CountDelta(cards: map<nat, Secret>, cards': map<nat, Secret>, p: nat, sold: bool,
          n: nat, c: nat)
    requires forall d: nat | d != c :: Weight(cards', p, sold, d) == Weight(cards, p, sold, d)
    ensures Count(cards', p, sold, n) - Count(cards, p, sold, n) ==
            if c < n then Weight(cards', p, sold, c) - Weight(cards, p, sold, c) else 0
  {
    if n > 0 {
      CountDelta(cards, cards', p, sold, n - 1, c);
    }
  }

  lemma {:induction false} CountGrows(cards: map<nat, Secret>, p: nat, sold: bool, n: nat, m: nat)
    requires n <= m && forall c: nat | n <= c < m :: Weight(cards, p, sold, c) == 0
    ensures Count(cards, p, sold, m) == Count(cards, p, sold, n)
  {
    if n < m {
      CountGrows(cards, p, sold, n, m - 1);
    }
  }

  lemma {:induction false} CountPositive(cards: map<nat, Secret>, p: nat, sold: bool, n: nat, c: nat)
    requires c < n && Weight(cards, p, sold, c) == 1
    ensures Count(cards, p, sold, n) > 0
  {
    if c < n - 1 {
      CountPositive(cards, p, sold, n - 1, c);
    }
  }

  // Ids come from the counters, and the foreign key holds.
  ghost predicate Keyed(db: Db) {
    (forall c | c in db.cards :: c < db.nextCard && db.cards[c].product in db.products) &&
    (forall p | p in db.products :: p < db.nextProduct)
  }

  ghost predicate StockExact(db: Db) {
    forall p | p in db.products :: db.products[p].stock == Count(db.cards, p, false, db.nextCard)
  }

  // Of each product, the sold cards are the oldest.
  ghost predicate SoldFirst(db: Db) {
    forall c, d | c in db.cards && d in db.cards && db.cards[c].product == db.cards[d].product &&
                  db.cards[c].owner.Some? && db.cards[d].owner.None? :: c < d
  }

  ghost predicate OwnersSettled(db: Db) {
    forall c | c in db.cards && db.cards[c].owner.Some? ::
      db.cards[c].owner.value in db.orders && !Settleable(db.orders[db.cards[c].owner.value].status)
  }

  ghost predicate OneCardEach(db: Db) {
    forall c, d | c in db.cards && d in db.cards && db.cards[c].owner.Some? && db.cards[c].owner == db.cards[d].owner ::
      c == d
  }

  ghost predicate Sound(db: Db) {
    Keyed(db) && StockExact(db) && SoldFirst(db) && OwnersSettled(db) && OneCardEach(db) &&
    forall t | t in db.orders :: db.orders[t].trade == t
  }

  // A transaction that leaves the cards alone and no product's stock.
  lemma SameCards(db: Db, db': Db)
    requires Sound(db) && db'.cards == db.cards && db'.nextCard == db.nextCard
    requires db.products.Keys <= db'.products.Keys
    requires forall p | p in db.products :: db'.products[p].stock == db.products[p].stock
    requires forall p | p in db'.products :: p < db'.nextProduct
    requires forall p | p in db'.products && p !in db.products :: db'.products[p].stock == 0
    requires forall t | t in db.orders :: t in db'.orders &&
               (!Settleable(db.orders[t].status) ==> !Settleable(db'.orders[t].status))
    requires forall t | t in db'.orders :: db'.orders[t].trade == t
    ensures Sound(db')
  {
    forall p | p in db'.products && p !in db.products ensures Count(db.cards, p, false, db.nextCard) == 0 {
      CountGrows(db.cards, p, false, 0, db.nextCard);
    }
  }

  lemma DropProductKeeps(db: Db, id: nat)
    requires Sound(db)
    ensures Sound(DropProduct(db, id))
  {
    var db' := DropProduct(db, id);
    forall p | p in db'.products ensures Count(db'.cards, p, false, db.nextCard) == Count(db.cards, p, false,
        db.nextCard) {
      forall c: nat ensures Weight(db'.cards, p, false, c) == Weight(db.cards, p, false, c) {
      }
      CountDelta(db.cards, db'.cards, p, false, db.nextCard, db.nextCard);
    }
  }

  // Inserted cards are fresh, unsold and all of one product.
  ghost predicate Inserted(cards: map<nat, Secret>, cards': map<nat, Secret>, id: nat, n: nat, next: nat) {
    (forall c | c in cards :: c < next && c in cards' && cards'[c] == cards[c]) &&
    (forall c | c in cards' ::
       c in cards || (next <= c < next + n && cards'[c].product == id && cards'[c].owner.None?)) &&
    (forall c: nat | next <= c < next + n :: c in cards')
  }

  lemma OneMoreInserted(cards: map<nat, Secret>, before: map<nat, Secret>, id: nat, n: nat, next: nat, content: string)
    requires Inserted(cards, before, id, n, next)
    ensures Inserted(cards, before[next + n := Secret(id, content, None)], id, n + 1, next)
  {
  }

  lemma {:induction false} InsertsAre(cards: map<nat, Secret>, id: nat, lines: seq<string>, next: nat)
    requires forall c | c in cards :: c < next
    ensures Inserted(cards, InsertCards(cards, id, lines, next), id, |lines|, next)
  {
    if lines != [] {
      var fewer := lines[..|lines| - 1];
      InsertsAre(cards, id, fewer, next);
      OneMoreInserted(cards, InsertCards(cards, id, fewer, next), id, |fewer|, next, lines[|fewer|]);
    }
  }

  lemma {:induction false} InsertsCount(cards: map<nat, Secret>, id: nat, lines: seq<string>, next: nat, p: nat,
          sold: bool)
    requires forall c | c in cards :: c < next
    ensures Count(InsertCards(cards, id, lines, next), p, sold, next + |lines|) ==
            Count(cards, p, sold, next) + if p == id && !sold then |lines| else 0
  {
    if lines != [] {
      var fewer := lines[..|lines| - 1];
      var before := InsertCards(cards, id, fewer, next);
      InsertsCount(cards, id, fewer, next, p, sold);
      InsertsAre(cards, id, fewer, next);
      CountDelta(before, InsertCards(cards, id, lines, next), p, sold, next + |lines| - 1, next + |lines| - 1);
    }
  }

  lemma AppendKeepsStock(db: Db, id: nat, lines: seq<string>)
    requires Keyed(db) && StockExact(db)
    ensures StockExact(AppendCards(db, id, lines))
  {
    var clean := Cleaned(lines);
    if clean != [] && id in db.products {
      hide Count, InsertCards, Cleaned;
      var db' := AppendCards(db, id, lines);
      forall p | p in db'.products ensures db'.products[p].stock == Count(db'.cards, p, false, db'.nextCard) {
        InsertsCount(db.cards, id, clean, db.nextCard, p, false);
      }
    }
  }

  lemma AppendKeepsCards(db: Db, id: nat, lines: seq<string>)
    requires Keyed(db) && SoldFirst(db) && OwnersSettled(db) && OneCardEach(db)
    ensures var db' := AppendCards(db, id, lines);
            Keyed(db') && SoldFirst(db') && OwnersSettled(db') && OneCardEach(db')
  {
    var clean := Cleaned(lines);
    if clean != [] && id in db.products {
      InsertsAre(db.cards, id, clean, db.nextCard);
      hide InsertCards, Cleaned;
      var db' := AppendCards(db, id, lines);
      forall c | c in db'.cards && db'.cards[c].owner.Some? ensures c in db.cards && db'.cards[c] == db.cards[c] {
      }
    }
  }

  lemma AppendKeeps(db: Db, id: nat, lines: seq<string>)
    requires Sound(db)
    ensures Sound(AppendCards(db, id, lines))
  {
    hide Keyed, StockExact, SoldFirst, OwnersSettled, OneCardEach, Cleaned;
    AppendKeepsStock(db, id, lines);
    AppendKeepsCards(db, id, lines);
  }

  // Taking an unsold card away, or selling it, lowers its product's unsold count by one, and by nothing
  // that MAX(0, …) would have to catch.
  lemma OneCardLess(db: Db, card: nat, cards': map<nat, Secret>, p: nat)
    requires Keyed(db) && StockExact(db) && card in db.cards && db.cards[card].owner.None? && p in db.products
    requires cards' == db.cards - {card} || (exists o :: cards' == db.cards[card := db.cards[card].(owner := Some(o))])
    ensures Count(cards', p, false, db.nextCard) == db.products[p].stock - if p == db.cards[card].product then 1 else 0
    ensures Count(cards', p, false, db.nextCard) >= 0
  {
    forall d: nat | d != card ensures Weight(cards', p, false, d) == Weight(db.cards, p, false, d) {
    }
    CountDelta(db.cards, cards', p, false, db.nextCard, card);
  }

  lemma StockNeverClamps(db: Db, card: nat)
    requires Keyed(db) && StockExact(db) && card in db.cards && db.cards[card].owner.None?
    ensures TakeOne(db.products[db.cards[card].product]).stock == db.products[db.cards[card].product].stock - 1
  {
    CountPositive(db.cards, db.cards[card].product, false, db.nextCard, card);
  }

  lemma DropCardKeeps(db: Db, card: nat)
    requires Sound(db)
    ensures Sound(DropCard(db, card))
  {
    if card in db.cards && db.cards[card].owner.None? {
      var db' := DropCard(db, card);
      StockNeverClamps(db, card);
      forall p | p in db'.products ensures db'.products[p].stock == Count(db'.cards, p, false, db'.nextCard) {
        OneCardLess(db, card, db'.cards, p);
      }
    }
  }

  lemma SettleKeeps(db: Db, trade: string, tradeNo: string, now: int)
    requires Sound(db)
    ensures Sound(SettleOrder(db, trade, tradeNo, now))
  {
    if trade in db.orders && Settleable(db.orders[trade].status) {
      var db' := SettleOrder(db, trade, tradeNo, now);
      var f := Deliver(db, db.orders[trade].product);
      hide Count, FirstUnsold;
      if f.card.Some? {
        var card := f.card.value;
        StockNeverClamps(db, card);
        assert db'.cards == db.cards[card := db.cards[card].(owner := Some(trade))];
        forall p | p in db'.products ensures db'.products[p].stock == Count(db'.cards, p, false, db'.nextCard) {
          OneCardLess(db, card, db'.cards, p);
        }
        SaleKeepsOrder(db, db', card, trade);
      } else {
        assert db'.cards == db.cards;
      }
    }
  }

  // The lowest unsold card is the next to be sold, so the sold ones stay the oldest.
  lemma SaleKeepsOrder(db: Db, db': Db, card: nat, trade: string)
    requires Keyed(db) && SoldFirst(db) && card in db.cards
    requires Some(card) == FirstUnsold(db.cards, db.cards[card].product, 0, db.nextCard)
    requires db'.cards == db.cards[card := db.cards[card].(owner := Some(trade))]
    ensures SoldFirst(db')
  {
    forall c, d | c in db'.cards && d in db'.cards && db'.cards[c].product == db'.cards[d].product &&
                  db'.cards[c].owner.Some? && db'.cards[d].owner.None?
      ensures c < d
    {
      assert Unsold(db.cards, db.cards[d].product, d);
    }
  }

  lemma StepKeepsSound(w: World, step: Step)
    requires Sound(w.db)
    ensures Sound(Apply(w, step).db)
  {
    hide Sound;
    hide SettleOrder, DropProduct, AppendCards, DropCard, Count;
    match step
    case Drop(id) => DropProductKeeps(w.db, id);
    case Append(id, lines) => AppendKeeps(w.db, id, lines);
    case DropSecret(card) => DropCardKeeps(w.db, card);
    case Payment(seen, sess, now) =>
      if Confirms(seen, sess) {
        SettleKeeps(w.db, seen.trade, sess.tradeNo, now);
      }
    case Fail =>
    case _ => QuietStepKeeps(w, step);
  }

  lemma QuietStepKeeps(w: World, step: Step)
    requires Sound(w.db) && (step.Create? || step.Edit? || step.Place? || step.ByHand? || step.Sweep?)
    ensures Sound(Apply(w, step).db)
  {
    hide Count, StockExact, SoldFirst, OwnersSettled, OneCardEach;
    SameCards(w.db, Apply(w, step).db);
  }

  // Over every run: the stock column is the number of unsold cards, sold cards are older than unsold ones
  // of the same product, and no order owns two cards.
  lemma {:induction false} InventoryIsSound(ws: seq<World>, steps: seq<Step>, i: nat)
    requires Run(ws, steps) && i < |ws|
    ensures Sound(ws[i].db)
  {
    if i > 0 {
      assert Happens(ws, steps, i - 1);
      InventoryIsSound(ws, steps, i - 1);
      StepKeepsSound(ws[i - 1], steps[i - 1]);
    }
  }

  // ---------------------------------------------------------------- where every card went

  // Cards added to product p before step n, and unsold cards of it the operator deleted.
  ghost function Appended(ws: seq<World>, steps: seq<Step>, n: nat, p: nat): nat
    requires |ws| == |steps| + 1 && n <= |steps|
  {
    if n == 0 then 0
    else Appended(ws, steps, n - 1, p) + AppendedBy(ws[n - 1].db, steps[n - 1], p)
  }

  ghost function Deleted(ws: seq<World>, steps: seq<Step>, n: nat, p: nat): nat
    requires |ws| == |steps| + 1 && n <= |steps|
  {
    if n == 0 then 0
    else Deleted(ws, steps, n - 1, p) + DeletedBy(ws[n - 1].db, steps[n - 1], p)
  }

  function AppendedBy(db: Db, step: Step, p: nat): nat {
    if step.Append? && step.id == p && p in db.products then |Cleaned(step.lines)| else 0
  }

  function DeletedBy(db: Db, step: Step, p: nat): nat {
    if step.DropSecret? && Unsold(db.cards, p, step.card) then 1 else 0
  }

  // Every card the product has, sold or not.
  ghost function Held(db: Db, p: nat): nat {
    Count(db.cards, p, false, db.nextCard) + Count(db.cards, p, true, db.nextCard)
  }

  lemma OthersUntouched(db: Db, db': Db, p: nat, card: nat)
    requires forall d: nat | d != card ::
               Weight(db'.cards, p, false, d) == Weight(db.cards, p, false, d) &&
               Weight(db'.cards, p, true, d) == Weight(db.cards, p, true, d)
    requires db'.nextCard == db.nextCard
    ensures Held(db', p) - Held(db, p) ==
            if card < db.nextCard then Weight(db'.cards, p, false, card) + Weight(db'.cards, p, true, card)
                                       - Weight(db.cards, p, false, card) - Weight(db.cards, p, true, card) else 0
  {
    CountDelta(db.cards, db'.cards, p, false, db.nextCard, card);
    CountDelta(db.cards, db'.cards, p, true, db.nextCard, card);
  }

  lemma AppendAccounts(db: Db, id: nat, lines: seq<string>, p: nat)
    requires Keyed(db) && p in db.products
    ensures Held(AppendCards(db, id, lines), p) == Held(db, p) + AppendedBy(db, Append(id, lines), p)
  {
    hide Cleaned, InsertCards, Count;
    if Cleaned(lines) != [] && id in db.products {
      InsertsCount(db.cards, id, Cleaned(lines), db.nextCard, p, false);
      InsertsCount(db.cards, id, Cleaned(lines), db.nextCard, p, true);
    }
  }

  lemma DropAccounts(db: Db, id: nat, p: nat)
    requires p != id
    ensures Held(DropProduct(db, id), p) == Held(db, p)
  {
    hide Held;
    var db' := DropProduct(db, id);
    assert forall d: nat, sold :: Weight(db'.cards, p, sold, d) == Weight(db.cards, p, sold, d);
    OthersUntouched(db, db', p, db.nextCard);
  }

  lemma DropCardAccounts(db: Db, card: nat, p: nat)
    requires Keyed(db)
    ensures Held(DropCard(db, card), p) + DeletedBy(db, DropSecret(card), p) == Held(db, p)
  {
    hide Held;
    var db' := DropCard(db, card);
    assert forall d: nat, sold | d != card :: Weight(db'.cards, p, sold, d) == Weight(db.cards, p, sold, d);
    OthersUntouched(db, db', p, card);
  }

  lemma SettleAccounts(db: Db, trade: string, tradeNo: string, now: int, p: nat)
    ensures Held(SettleOrder(db, trade, tradeNo, now), p) == Held(db, p)
  {
    hide Held, FirstUnsold;
    var db' := SettleOrder(db, trade, tradeNo, now);
    if db'.cards != db.cards {
      var card := Deliver(db, db.orders[trade].product).card.value;
      assert forall d: nat, sold | d != card :: Weight(db'.cards, p, sold, d) == Weight(db.cards, p, sold, d);
      OthersUntouched(db, db', p, card);
    } else {
      SameCardsHeld(db, db', p);
    }
  }

  lemma SameCardsHeld(db: Db, db': Db, p: nat)
    requires db'.cards == db.cards && db'.nextCard == db.nextCard
    ensures Held(db', p) == Held(db, p)
  {
  }

  lemma StepAccounts(w: World, step: Step, p: nat)
    requires Keyed(w.db) && p in w.db.products && p in Apply(w, step).db.products
    ensures Held(Apply(w, step).db, p) + DeletedBy(w.db, step, p) == Held(w.db, p) + AppendedBy(w.db, step, p)
  {
    hide Held, SettleOrder, AppendCards, DropCard, Keyed;
    match step
    case Append(id, lines) => AppendAccounts(w.db, id, lines, p);
    case Drop(id) => DropAccounts(w.db, id, p);
    case DropSecret(card) => DropCardAccounts(w.db, card, p);
    case Payment(seen, sess, now) =>
      if Confirms(seen, sess) {
        SettleAccounts(w.db, seen.trade, sess.tradeNo, now, p);
      }
    case _ => SameCardsHeld(w.db, Apply(w, step).db, p);
  }

  lemma FreshProductHoldsNothing(db: Db, p: nat)
    requires Keyed(db) && p !in db.products
    ensures Held(db, p) == 0
  {
    CountGrows(db.cards, p, false, 0, db.nextCard);
    CountGrows(db.cards, p, true, 0, db.nextCard);
  }

  lemma IdsAreNotReused(w: World, step: Step, p: nat)
    requires Keyed(w.db) && p >= w.db.nextProduct
    ensures p in Apply(w, step).db.products ==> step.Create? && p == w.db.nextProduct
    ensures Apply(w, step).db.nextProduct <= w.db.nextProduct + 1
    ensures Apply(w, step).db.nextProduct == w.db.nextProduct || step.Create?
    ensures AppendedBy(w.db, step, p) == 0 && DeletedBy(w.db, step, p) == 0
  {
  }

  // For a product that is still there, every card ever added is unsold, sold, or was deleted unsold.
  lemma {:induction false} NoCardIsLost(ws: seq<World>, steps: seq<Step>, n: nat, p: nat)
    requires Run(ws, steps) && n <= |steps|
    ensures p in ws[n].db.products ==> Held(ws[n].db, p) + Deleted(ws, steps, n, p) == Appended(ws, steps, n, p)
    ensures p >= ws[n].db.nextProduct ==> Appended(ws, steps, n, p) == 0 && Deleted(ws, steps, n, p) == 0
  {
    hide Sound, Held, AppendedBy, DeletedBy, Apply, Keyed;
    if n > 0 {
      assert Happens(ws, steps, n - 1);
      NoCardIsLost(ws, steps, n - 1, p);
      InventoryIsSound(ws, steps, n - 1);
      AccountsMove(ws[n - 1], steps[n - 1], p);
    }
  }

  lemma AccountsMove(w: World, step: Step, p: nat)
    requires Sound(w.db)
    ensures var w' := Apply(w, step);
      (p in w'.db.products && p in w.db.products ==>
         Held(w'.db, p) + DeletedBy(w.db, step, p) == Held(w.db, p) + AppendedBy(w.db, step, p)) &&
      (p in w'.db.products && p !in w.db.products ==>
         p >= w.db.nextProduct && Held(w'.db, p) == 0) &&
      (p >= w.db.nextProduct ==> AppendedBy(w.db, step, p) == 0 && DeletedBy(w.db, step, p) == 0) &&
      w.db.nextProduct <= w'.db.nextProduct
  {
    var w' := Apply(w, step);
    if p in w'.db.products && p in w.db.products {
      StepAccounts(w, step, p);
    } else if p in w'.db.products {
      FreshProductHoldsNothing(w.db, p);
    }
    if p >= w.db.nextProduct {
      IdsAreNotReused(w, step, p);
    }
  }
}
