/** The shop's store (internal/shop/db.go) and its settlement path (internal/shop/handlers_public.go).
    Each SQL transaction is one method: it commits as a whole or leaves the tables as they were. */
module Shop {
  import opened Bytes

  datatype Delivery = Auto | Card | Unknown

  datatype Product = Product(delivery: Delivery, template: string, stock: int, details: string)

  // `owner` is the order that consumed the card.
  datatype Secret = Secret(product: nat, content: string, owner: Option<string>)

  datatype Status = Pending | Expired | AwaitManual | Paid

  datatype Order = Order(
    trade: string, product: nat, amount: int, currency: string,
    status: Status, tradeNo: string, fulfillment: string, createdAt: int, paidAt: int)

  // The tables, with the AUTOINCREMENT counters that never hand out an id twice.
  datatype Db = Db(
    products: map<nat, Product>, cards: map<nat, Secret>, orders: map<string, Order>,
    nextProduct: nat, nextCard: nat)

  datatype Failure = NotFound | NotPending | AlreadyConsumed | Constraint | Aborted

  datatype Result<T> = Ok(value: T) | Err(error: Failure)

  predicate Settleable(status: Status) {
    status == Pending || status == Expired
  }

  function AtLeastZero(n: int): int {
    if n < 0 then 0 else n
  }

  // ---------------------------------------------------------------- what each transaction does

  predicate Unsold(cards: map<nat, Secret>, product: nat, id: nat) {
    id in cards && cards[id].product == product && cards[id].owner.None?
  }

  // SELECT … WHERE product_id = ? AND consumed = 0 ORDER BY id ASC LIMIT 1
  function FirstUnsold(cards: map<nat, Secret>, product: nat, from: nat, next: nat): (r: Option<nat>)
    ensures r.Some? ==> from <= r.value < next && Unsold(cards, product, r.value)
    ensures forall id | from <= id < (if r.Some? then r.value else next) :: !Unsold(cards, product, id)
    decreases next - from
  {
    if from >= next then None
    else if Unsold(cards, product, from) then Some(from)
    else FirstUnsold(cards, product, from + 1, next)
  }

  function InsertCards(cards: map<nat, Secret>, product: nat, lines: seq<string>, next: nat): map<nat, Secret> {
    if lines == [] then cards
    else InsertCards(cards, product, lines[..|lines| - 1], next)
           [next + |lines| - 1 := Secret(product, lines[|lines| - 1], None)]
  }

  function Cleaned(lines: seq<string>): seq<string> {
    if lines == [] then []
    else
      var t := TrimSpace(lines[|lines| - 1]);
      Cleaned(lines[..|lines| - 1]) + if t != "" then [t] else []
  }

  function TakeOne(product: Product): Product {
    product.(stock := AtLeastZero(product.stock - 1))
  }

  function AddProduct(db: Db, p: Product): Db {
    db.(products := db.products[db.nextProduct := p.(stock := 0)], nextProduct := db.nextProduct + 1)
  }

  function EditProduct(db: Db, id: nat, p: Product): Db {
    if id !in db.products then db
    else db.(products := db.products[id := p.(stock := db.products[id].stock)])
  }

  // Deleting a product takes its cards with it, sold ones too; orders stay.
  function DropProduct(db: Db, id: nat): Db {
    if id !in db.products then db
    else db.(products := db.products - {id}, cards := map c | c in db.cards && db.cards[c].product != id :: db.cards[c])
  }

  function AppendCards(db: Db, id: nat, lines: seq<string>): Db {
    var clean := Cleaned(lines);
    if clean == [] || id !in db.products then db
    else db.(products := db.products[id := db.products[id].(stock := db.products[id].stock + |clean|)],
             cards := InsertCards(db.cards, id, clean, db.nextCard), nextCard := db.nextCard + |clean|)
  }

  function DropCard(db: Db, id: nat): Db {
    if id !in db.cards || db.cards[id].owner.Some? then db
    else
      var p := db.cards[id].product;
      db.(cards := db.cards - {id},
          products := if p in db.products then db.products[p := TakeOne(db.products[p])] else db.products)
  }

  // strings.EqualFold against "usd"; U+017F is the other letter that folds to an s.
  predicate IsUsd(c: string) {
    |c| == 3 && c[0] in {'u', 'U'} && c[1] in {'s', 'S', '\U{017F}'} && c[2] in {'d', 'D'}
  }

  function NormalizeCurrency(c: string): (r: string)
    ensures r == "usd" || r == "cny"
  {
    if IsUsd(TrimSpace(c)) then "usd" else "cny"
  }

  function PlaceOrder(db: Db, o: Order, now: int): Db {
    if o.trade in db.orders then db
    else db.(orders := db.orders[o.trade :=
      o.(status := Pending, tradeNo := "", fulfillment := "", paidAt := 0, createdAt := now,
         currency := NormalizeCurrency(o.currency))])
  }

  datatype Fulfilment = Fulfilment(status: Status, text: string, card: Option<nat>)

  // What a payment for this product delivers right now.
  function Deliver(db: Db, product: nat): Fulfilment {
    if product !in db.products then Fulfilment(AwaitManual, "", None)
    else match db.products[product].delivery
      case Auto => Fulfilment(Paid, db.products[product].template, None)
      case Card =>
        var card := FirstUnsold(db.cards, product, 0, db.nextCard);
        if card.None? then Fulfilment(AwaitManual, "", None)
        else Fulfilment(Paid, db.cards[card.value].content, card)
      case Unknown => Fulfilment(AwaitManual, "", None)
  }

  function SellCard(db: Db, card: nat, trade: string): Db
    requires card in db.cards && db.cards[card].product in db.products
  {
    var p := db.cards[card].product;
    db.(cards := db.cards[card := db.cards[card].(owner := Some(trade))],
        products := db.products[p := TakeOne(db.products[p])])
  }

  function SettleOrder(db: Db, trade: string, tradeNo: string, now: int): Db {
    if trade !in db.orders || !Settleable(db.orders[trade].status) then db
    else
      var f := Deliver(db, db.orders[trade].product);
      var db' := if f.card.Some? then SellCard(db, f.card.value, trade) else db;
      db'.(orders := db.orders[trade :=
        db.orders[trade].(status := f.status, tradeNo := tradeNo, fulfillment := f.text, paidAt := now)])
  }

  function FulfilByHand(db: Db, trade: string, text: string): Db {
    if trade !in db.orders || Settleable(db.orders[trade].status) then db
    else db.(orders := db.orders[trade := db.orders[trade].(fulfillment := text, status := Paid)])
  }

  function Swept(o: Order, cutoff: int): Order {
    if o.status == Pending && o.createdAt < cutoff then o.(status := Expired) else o
  }

  function ExpireBefore(db: Db, cutoff: int): Db {
    db.(orders := map t | t in db.orders :: Swept(db.orders[t], cutoff))
  }

  // ---------------------------------------------------------------- the store

  class Store {
    var products: map<nat, Product>
    var cards: map<nat, Secret>
    var orders: map<string, Order>
    var nextProduct: nat
    var nextCard: nat

    ghost function View(): Db
      reads this
    {
      Db(products, cards, orders, nextProduct, nextCard)
    }

    constructor ()
      ensures View() == Db(map[], map[], map[], 0, 0)
    {
      products, cards, orders, nextProduct, nextCard := map[], map[], map[], 0, 0;
    }

    // `commits` tells whether SQLite completes the transaction.
    method CreateProduct(p: Product, commits: bool) returns (r: Result<nat>)
      modifies this
      ensures commits ==> r == Ok(old(nextProduct)) && View() == AddProduct(old(View()), p)
      ensures !commits ==> r == Err(Aborted) && View() == old(View())
    {
      if !commits {
        return Err(Aborted);
      }
      products := products[nextProduct := p.(stock := 0)];
      nextProduct := nextProduct + 1;
      return Ok(nextProduct - 1);
    }

    method UpdateProduct(id: nat, p: Product, commits: bool) returns (r: Result<()>)
      modifies this
      ensures View() == if commits then EditProduct(old(View()), id, p) else old(View())
      ensures r == if !commits then Err(Aborted) else if id in old(products) then Ok(()) else Err(NotFound)
    {
      if !commits {
        return Err(Aborted);
      }
      if id !in products {
        return Err(NotFound);
      }
      products := products[id := p.(stock := products[id].stock)];
      return Ok(());
    }

    method DeleteProduct(id: nat, commits: bool) returns (r: Result<()>)
      modifies this
      ensures View() == if commits then DropProduct(old(View()), id) else old(View())
      ensures r == if !commits then Err(Aborted) else if id in old(products) then Ok(()) else Err(NotFound)
    {
      if !commits {
        return Err(Aborted);
      }
      if id !in products {
        return Err(NotFound);
      }
      products := products - {id};
      cards := map c | c in cards && cards[c].product != id :: cards[c];
      return Ok(());
    }

    // An insert for a product that is gone violates the foreign key and rolls everything back.
    method AppendCardSecrets(id: nat, lines: seq<string>, commits: bool) returns (r: Result<nat>)
      modifies this
      ensures View() == if commits then AppendCards(old(View()), id, lines) else old(View())
      ensures r == if Cleaned(lines) == [] then Ok(0) else if !commits then Err(Aborted)
                   else if id in old(products) then Ok(|Cleaned(lines)|) else Err(Constraint)
    {
      var clean: seq<string> := [];
      for i := 0 to |lines|
        invariant clean == Cleaned(lines[..i])
      {
        assert lines[..i + 1][..i] == lines[..i];
        var t := TrimSpace(lines[i]);
        if t != "" {
          clean := clean + [t];
        }
      }
      assert lines[..|lines|] == lines;
      if |clean| == 0 {
        return Ok(0);
      }
      if !commits {
        return Err(Aborted);
      }
      if id !in products {
        return Err(Constraint);
      }
      var inserted := cards;
      for i := 0 to |clean|
        invariant inserted == InsertCards(cards, id, clean[..i], nextCard)
      {
        assert clean[..i + 1][..i] == clean[..i];
        inserted := inserted[nextCard + i := Secret(id, clean[i], None)];
      }
      assert clean[..|clean|] == clean;
      cards := inserted;
      nextCard := nextCard + |clean|;
      products := products[id := products[id].(stock := products[id].stock + |clean|)];
      return Ok(|clean|);
    }

    method DeleteUnconsumedSecret(id: nat, commits: bool) returns (r: Result<()>)
      modifies this
      ensures View() == if commits then DropCard(old(View()), id) else old(View())
      ensures r == if !commits then Err(Aborted) else if id !in old(cards) then Err(NotFound)
                   else if old(cards)[id].owner.Some? then Err(AlreadyConsumed) else Ok(())
    {
      if !commits {
        return Err(Aborted);
      }
      if id !in cards {
        return Err(NotFound);
      }
      if cards[id].owner.Some? {
        return Err(AlreadyConsumed);
      }
      var p := cards[id].product;
      cards := cards - {id};
      if p in products {
        products := products[p := products[p].(stock := AtLeastZero(products[p].stock - 1))];
      }
      return Ok(());
    }

    method CreateOrder(o: Order, now: int, commits: bool) returns (r: Result<()>)
      modifies this
      ensures View() == if commits then PlaceOrder(old(View()), o, now) else old(View())
      ensures r == if !commits then Err(Aborted) else if o.trade in old(orders) then Err(Constraint) else Ok(())
    {
      if !commits {
        return Err(Aborted);
      }
      if o.trade in orders {
        return Err(Constraint);
      }
      orders := orders[o.trade :=
        o.(status := Pending, tradeNo := "", fulfillment := "", paidAt := 0, createdAt := now,
           currency := NormalizeCurrency(o.currency))];
      return Ok(());
    }

    // The status guard of lockPendingOrder.
    method LockPendingOrder(trade: string) returns (r: Result<Order>)
      ensures r == if trade !in orders then Err(NotFound)
                   else if Settleable(orders[trade].status) then Ok(orders[trade]) else Err(NotPending)
    {
      if trade !in orders {
        return Err(NotFound);
      }
      if orders[trade].status != Pending && orders[trade].status != Expired {
        return Err(NotPending);
      }
      return Ok(orders[trade]);
    }

    method LowestUnsold(product: nat) returns (r: Option<nat>)
      ensures r == FirstUnsold(cards, product, 0, nextCard)
    {
      var id := 0;
      while id < nextCard && !Unsold(cards, product, id)
        invariant id <= nextCard
        invariant FirstUnsold(cards, product, 0, nextCard) == FirstUnsold(cards, product, id, nextCard)
      {
        id := id + 1;
      }
      return if id < nextCard then Some(id) else None;
    }

    method MarkOrderPaidAndFulfil(trade: string, tradeNo: string, now: int, commits: bool) returns (r: Result<Order>)
      modifies this
      ensures View() == if commits then SettleOrder(old(View()), trade, tradeNo, now) else old(View())
      ensures r == if !commits then Err(Aborted) else if trade !in old(orders) then Err(NotFound)
                   else if Settleable(old(orders)[trade].status) then Ok(orders[trade]) else Err(NotPending)
    {
      if !commits {
        return Err(Aborted);
      }
      var locked := LockPendingOrder(trade);
      if locked.Err? {
        return Err(locked.error);
      }
      var o := locked.value;
      var newStatus, fulfilment := Paid, "";
      var delivery := if o.product in products then products[o.product].delivery else Unknown;
      match delivery {
        case Auto =>
          fulfilment := products[o.product].template;
        case Card =>
          var card := LowestUnsold(o.product);
          if card.None? {
            newStatus := AwaitManual;
          } else {
            var c := card.value;
            fulfilment := cards[c].content;
            cards := cards[c := cards[c].(owner := Some(trade))];
            var stock := AtLeastZero(products[o.product].stock - 1);
            products := products[o.product := products[o.product].(stock := stock)];
          }
        case Unknown =>
          newStatus := AwaitManual;
      }
      o := o.(status := newStatus, tradeNo := tradeNo, fulfillment := fulfilment, paidAt := now);
      orders := orders[trade := o];
      return Ok(o);
    }

    method SetFulfillment(trade: string, text: string, commits: bool) returns (r: Result<()>)
      modifies this
      ensures View() == if commits then FulfilByHand(old(View()), trade, text) else old(View())
      ensures r == if !commits then Err(Aborted)
                   else if trade in old(orders) && !Settleable(old(orders)[trade].status) then Ok(()) else Err(NotFound)
    {
      if !commits {
        return Err(Aborted);
      }
      if trade !in orders || (orders[trade].status != AwaitManual && orders[trade].status != Paid) {
        return Err(NotFound);
      }
      orders := orders[trade := orders[trade].(fulfillment := text, status := Paid)];
      return Ok(());
    }

    method ExpirePendingBefore(cutoff: int, commits: bool)
      modifies this
      ensures View() == if commits then ExpireBefore(old(View()), cutoff) else old(View())
    {
      if commits {
        orders := map t | t in orders :: Swept(orders[t], cutoff);
      }
    }
  }

  // ---------------------------------------------------------------- settlement

  // A Checkout Session; VerifyPaidSession is the check of its amount and currency.
  datatype Session = Session(paid: bool, tradeNo: string, verifies: (int, string) -> bool)

  datatype World = World(db: Db, mail: seq<string>)

  predicate Confirms(seen: Order, sess: Session) {
    Settleable(seen.status) && sess.paid && sess.verifies(seen.amount, seen.currency)
  }

  // Only the caller whose transaction moved the order queues the delivery email.
  function Confirm(w: World, seen: Order, sess: Session, now: int): World {
    if !Confirms(seen, sess) then w
    else World(SettleOrder(w.db, seen.trade, sess.tradeNo, now),
               w.mail + if seen.trade in w.db.orders && Settleable(w.db.orders[seen.trade].status)
                        then [seen.trade] else [])
  }

  class Shop {
    const db: Store
    var deliveries: seq<string>   // orders whose settlement email is queued

    ghost function View(): World
      reads this, db
    {
      World(db.View(), deliveries)
    }

    constructor (db: Store)
      ensures this.db == db && deliveries == []
    {
      this.db := db;
      deliveries := [];
    }

    // `seen` is the order as the caller read it, before anything another actor did since.
    method ApplyStripeSession(seen: Order, sess: Option<Session>, now: int, commits: bool) returns (ok: bool)
      modifies this, db
      ensures View() == if commits && sess.Some? then Confirm(old(View()), seen, sess.value, now) else old(View())
      ensures !ok ==> View() == old(View())
    {
      if !Settleable(seen.status) {
        return true;
      }
      if sess.None? {
        return false;
      }
      if !sess.value.paid {
        return true;
      }
      if !sess.value.verifies(seen.amount, seen.currency) {
        return true;
      }
      var updated := db.MarkOrderPaidAndFulfil(seen.trade, sess.value.tradeNo, now, commits);
      if updated == Err(NotPending) {
        return true;
      }
      if updated.Err? {
        return false;
      }
      deliveries := deliveries + [seen.trade];
      return true;
    }

    // The poll path. `hosted` is what the payment provider answers for the order's session, if anything.
    method MaybeSettleStripeOrder(seen: Order, hosted: Option<Session>, now: int, commits: bool)
      modifies this, db
      ensures View() == if commits && hosted.Some? then Confirm(old(View()), seen, hosted.value, now) else old(View())
    {
      if !Settleable(seen.status) || hosted.None? {
        return;
      }
      var _ := ApplyStripeSession(seen, hosted, now, commits);
    }
  }
}
