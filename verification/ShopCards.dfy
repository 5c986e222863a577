/** Which text a card holds: every line appended to a product becomes one card with that line, keeps it, and
    is sold or deleted with it. */
module ShopCards {
  import opened Bytes
  import opened Shop
  import opened ShopTheorems

  // ---------------------------------------------------------------- the lines of a batch

  // Blank lines are dropped and the others trimmed, in order.
  lemma CleanedOne(line: string)
    ensures Cleaned([line]) == if TrimSpace(line) == "" then [] else [TrimSpace(line)]
  {
    assert Cleaned([]) == [] && [line][..0] == [];
  }

  lemma {:induction false} CleanedJoins(a: seq<string>, b: seq<string>)
    ensures Cleaned(a + b) == Cleaned(a) + Cleaned(b)
    decreases |b|
  {
    hide TrimSpace;
    if b == [] {
      assert a + b == a;
    } else {
      assert (a + b)[..|a + b| - 1] == a + b[..|b| - 1];
      CleanedJoins(a, b[..|b| - 1]);
    }
  }

  lemma {:induction false} InsertedAt(cards: map<nat, Secret>, id: nat, lines: seq<string>, next: nat, j: nat)
    requires j < |lines|
    ensures var cards' := InsertCards(cards, id, lines, next);
      next + j in cards' && cards'[next + j] == Secret(id, lines[j], None)
  {
    if j < |lines| - 1 {
      InsertedAt(cards, id, lines[..|lines| - 1], next, j);
    }
  }

  // The j-th line that is not blank becomes the j-th new card, and no other card is touched.
  lemma EachLineIsACard(db: Db, id: nat, lines: seq<string>)
    requires Keyed(db) && id in db.products
    ensures var clean, db' := Cleaned(lines), AppendCards(db, id, lines);
      db'.nextCard == db.nextCard + |clean| &&
      (forall j | 0 <= j < |clean| ::
         db.nextCard + j in db'.cards && db'.cards[db.nextCard + j] == Secret(id, clean[j], None)) &&
      forall c | c < db.nextCard || c >= db'.nextCard ::
        (c in db'.cards <==> c in db.cards) && (c in db.cards ==> db'.cards[c] == db.cards[c])
  {
    var clean := Cleaned(lines);
    InsertsAre(db.cards, id, clean, db.nextCard);
    hide InsertCards, Cleaned;
    forall j | 0 <= j < |clean|
      ensures var cards' := InsertCards(db.cards, id, clean, db.nextCard);
        db.nextCard + j in cards' && cards'[db.nextCard + j] == Secret(id, clean[j], None)
    {
      InsertedAt(db.cards, id, clean, db.nextCard, j);
    }
  }

  // ---------------------------------------------------------------- the texts of a product

  function One(b: bool): nat {
    if b then 1 else 0
  }

  predicate IsCopy(cards: map<nat, Secret>, p: nat, text: string, c: nat) {
    c in cards && cards[c].product == p && cards[c].content == text
  }

  // How many of the product's cards with an id below n hold the text, sold or not.
  function Copies(cards: map<nat, Secret>, p: nat, text: string, n: nat): nat {
    if n == 0 then 0 else Copies(cards, p, text, n - 1) + One(IsCopy(cards, p, text, n - 1))
  }

  lemma {:induction false} SameCopies(cards: map<nat, Secret>, cards': map<nat, Secret>, p: nat, text: string, n: nat)
    requires forall c: nat | c < n :: IsCopy(cards', p, text, c) == IsCopy(cards, p, text, c)
    ensures Copies(cards', p, text, n) == Copies(cards, p, text, n)
  {
    if n > 0 {
      SameCopies(cards, cards', p, text, n - 1);
    }
  }

  lemma {:induction false} OneCopyLess(cards: map<nat, Secret>, cards': map<nat, Secret>, p: nat, text: string,
          n: nat, c: nat)
    requires c < n && !IsCopy(cards', p, text, c)
    requires forall d: nat | d != c :: IsCopy(cards', p, text, d) == IsCopy(cards, p, text, d)
    ensures Copies(cards', p, text, n) + One(IsCopy(cards, p, text, c)) == Copies(cards, p, text, n)
  {
    hide IsCopy;
    if c == n - 1 {
      SameCopies(cards, cards', p, text, n - 1);
    } else {
      OneCopyLess(cards, cards', p, text, n - 1, c);
    }
  }

  lemma {:induction false} NoCopies(cards: map<nat, Secret>, p: nat, text: string, n: nat)
    requires forall c | c in cards :: cards[c].product != p
    ensures Copies(cards, p, text, n) == 0
  {
    if n > 0 {
      NoCopies(cards, p, text, n - 1);
    }
  }

  lemma {:induction false} InsertedCopies(cards: map<nat, Secret>, id: nat, lines: seq<string>, next: nat, p: nat,
          text: string)
    requires forall c | c in cards :: c < next
    ensures Copies(InsertCards(cards, id, lines, next), p, text, next + |lines|) ==
            Copies(cards, p, text, next) + if p == id then multiset(lines)[text] else 0
  {
    if lines != [] {
      var fewer, last := lines[..|lines| - 1], lines[|lines| - 1];
      var before, after := InsertCards(cards, id, fewer, next), InsertCards(cards, id, lines, next);
      InsertedCopies(cards, id, fewer, next, p, text);
      InsertsAre(cards, id, fewer, next);
      LastCopy(before, after, id, last, p, text, next + |fewer|);
      assert lines == fewer + [last];
    }
  }

  lemma LastCopy(before: map<nat, Secret>, after: map<nat, Secret>, id: nat, last: string, p: nat, text: string, n: nat)
    requires after == before[n := Secret(id, last, None)]
    ensures Copies(after, p, text, n + 1) == Copies(before, p, text, n) + One(p == id && last == text)
  {
    SameCopies(before, after, p, text, n);
  }

  // ---------------------------------------------------------------- one step

  function CopiesAdded(db: Db, step: Step, p: nat, text: string): nat {
    if step.Append? && step.id == p && p in db.products then multiset(Cleaned(step.lines))[text] else 0
  }

  function CopiesDeleted(db: Db, step: Step, p: nat, text: string): nat {
    One(step.DropSecret? && Unsold(db.cards, p, step.card) && db.cards[step.card].content == text)
  }

  function AllCopies(db: Db, p: nat, text: string): nat {
    Copies(db.cards, p, text, db.nextCard)
  }

  lemma AppendAddsCopies(db: Db, id: nat, lines: seq<string>, p: nat, text: string)
    requires Keyed(db) && p in db.products
    ensures AllCopies(AppendCards(db, id, lines), p, text) ==
            AllCopies(db, p, text) + CopiesAdded(db, Append(id, lines), p, text)
  {
    hide Cleaned, InsertCards, Copies;
    if Cleaned(lines) != [] && id in db.products {
      InsertedCopies(db.cards, id, Cleaned(lines), db.nextCard, p, text);
    }
  }

  lemma DropCardCopies(db: Db, card: nat, p: nat, text: string)
    requires Keyed(db)
    ensures AllCopies(DropCard(db, card), p, text) + CopiesDeleted(db, DropSecret(card), p, text) ==
            AllCopies(db, p, text)
  {
    hide Copies;
    var db' := DropCard(db, card);
    if card in db.cards && db.cards[card].owner.None? {
      assert forall d: nat | d != card :: IsCopy(db'.cards, p, text, d) == IsCopy(db.cards, p, text, d);
      OneCopyLess(db.cards, db'.cards, p, text, db.nextCard, card);
    }
  }

  // Nothing but appending and deleting touches the texts of a product that stays.
  lemma OtherStepsKeepCopies(w: World, step: Step, p: nat, text: string)
    requires !step.Append? && !step.DropSecret? && p in w.db.products && p in Apply(w, step).db.products
    ensures AllCopies(Apply(w, step).db, p, text) == AllCopies(w.db, p, text)
  {
    var db, db' := w.db, Apply(w, step).db;
    forall c: nat ensures IsCopy(db'.cards, p, text, c) == IsCopy(db.cards, p, text, c) && db'.nextCard == db.nextCard {
      OtherStepKeepsCopy(w, step, p, text, c);
    }
    hide Apply, IsCopy, Copies;
    SameCopies(db.cards, db'.cards, p, text, db.nextCard);
  }

  lemma OtherStepKeepsCopy(w: World, step: Step, p: nat, text: string, c: nat)
    requires !step.Append? && !step.DropSecret? && p in w.db.products && p in Apply(w, step).db.products
    ensures var db, db' := w.db, Apply(w, step).db;
      IsCopy(db'.cards, p, text, c) == IsCopy(db.cards, p, text, c) && db'.nextCard == db.nextCard
  {
    hide FirstUnsold;
  }

  lemma StepCopies(w: World, step: Step, p: nat, text: string)
    requires Sound(w.db)
    ensures var w' := Apply(w, step);
      (p in w'.db.products && p in w.db.products ==>
         AllCopies(w'.db, p, text) + CopiesDeleted(w.db, step, p, text) ==
           AllCopies(w.db, p, text) + CopiesAdded(w.db, step, p, text)) &&
      (p in w'.db.products && p !in w.db.products ==> p >= w.db.nextProduct && AllCopies(w'.db, p, text) == 0) &&
      (p >= w.db.nextProduct ==> CopiesAdded(w.db, step, p, text) == CopiesDeleted(w.db, step, p, text) == 0) &&
      w.db.nextProduct <= w'.db.nextProduct
  {
    hide StockExact, SoldFirst, OwnersSettled, OneCardEach, AllCopies, Cleaned, FirstUnsold, InsertCards;
    var w' := Apply(w, step);
    if p in w'.db.products && p in w.db.products {
      match step
      case Append(id, lines) => AppendAddsCopies(w.db, id, lines, p, text);
      case DropSecret(card) => DropCardCopies(w.db, card, p, text);
      case _ => OtherStepsKeepCopies(w, step, p, text);
    } else if p in w'.db.products {
      NewProductHasNoCopies(w, step, p, text);
    }
  }

  lemma NewProductHasNoCopies(w: World, step: Step, p: nat, text: string)
    requires Keyed(w.db) && p !in w.db.products && p in Apply(w, step).db.products
    ensures p >= w.db.nextProduct && AllCopies(Apply(w, step).db, p, text) == 0
  {
    hide Copies, FirstUnsold, InsertCards, Cleaned;
    NoCopies(w.db.cards, p, text, w.db.nextCard);
  }

  // ---------------------------------------------------------------- over every run

  ghost function AppendedCopies(ws: seq<World>, steps: seq<Step>, n: nat, p: nat, text: string): nat
    requires |ws| == |steps| + 1 && n <= |steps|
  {
    if n == 0 then 0
    else AppendedCopies(ws, steps, n - 1, p, text) + CopiesAdded(ws[n - 1].db, steps[n - 1], p, text)
  }

  ghost function DeletedCopies(ws: seq<World>, steps: seq<Step>, n: nat, p: nat, text: string): nat
    requires |ws| == |steps| + 1 && n <= |steps|
  {
    if n == 0 then 0
    else DeletedCopies(ws, steps, n - 1, p, text) + CopiesDeleted(ws[n - 1].db, steps[n - 1], p, text)
  }

  // For a product that is still there and every text: as many of its cards hold the text, or did when they
  // were deleted unsold, as lines with that text were appended to it.
  lemma {:induction false} NoTextIsLost(ws: seq<World>, steps: seq<Step>, n: nat, p: nat, text: string)
    requires Run(ws, steps) && n <= |steps|
    ensures p in ws[n].db.products ==>
              AllCopies(ws[n].db, p, text) + DeletedCopies(ws, steps, n, p, text) ==
                AppendedCopies(ws, steps, n, p, text)
    ensures p >= ws[n].db.nextProduct ==>
              AppendedCopies(ws, steps, n, p, text) == 0 && DeletedCopies(ws, steps, n, p, text) == 0
  {
    hide Sound, AllCopies, CopiesAdded, CopiesDeleted, Apply;
    if n > 0 {
      assert Happens(ws, steps, n - 1);
      NoTextIsLost(ws, steps, n - 1, p, text);
      InventoryIsSound(ws, steps, n - 1);
      StepCopies(ws[n - 1], steps[n - 1], p, text);
    }
  }

  lemma StepKeepsText(w: World, step: Step, c: nat)
    requires Keyed(w.db) && c in w.db.cards && c in Apply(w, step).db.cards
    ensures var card, card' := w.db.cards[c], Apply(w, step).db.cards[c];
      card'.content == card.content && card'.product == card.product &&
      (card.owner.Some? ==> card'.owner == card.owner)
    ensures step.Append? ==> Apply(w, step).db.cards[c] == w.db.cards[c]
  {
    hide FirstUnsold, Cleaned;
    if step.Append? {
      InsertsAre(w.db.cards, step.id, Cleaned(step.lines), w.db.nextCard);
    }
  }

  // A card keeps its text, its product, and from its sale on its owner, for as long as it is there.
  lemma {:induction false} CardsKeepTheirText(ws: seq<World>, steps: seq<Step>, i: nat, j: nat, c: nat)
    requires Run(ws, steps) && i <= j < |ws| && forall k | i <= k <= j :: c in ws[k].db.cards
    ensures var card, card' := ws[i].db.cards[c], ws[j].db.cards[c];
      card'.content == card.content && card'.product == card.product &&
      (card.owner.Some? ==> card'.owner == card.owner)
    decreases j
  {
    hide Apply;
    if i < j {
      assert Happens(ws, steps, j - 1);
      CardsKeepTheirText(ws, steps, i, j - 1, c);
      InventoryIsSound(ws, steps, j - 1);
      StepKeepsText(ws[j - 1], steps[j - 1], c);
    }
  }

  // ---------------------------------------------------------------- what is on sale

  // The product as the operator created it or last edited it.
  ghost function LastEdit(ws: seq<World>, steps: seq<Step>, n: nat, p: nat): seq<Product>
    requires |ws| == |steps| + 1 && n <= |steps|
    decreases n
  {
    if n == 0 then []
    else match steps[n - 1]
      case Create(product) => if p == ws[n - 1].db.nextProduct then [product] else LastEdit(ws, steps, n - 1, p)
      case Edit(id, product) =>
        if p == id && LastEdit(ws, steps, n - 1, p) != [] then [product] else LastEdit(ws, steps, n - 1, p)
      case Drop(id) => if p == id then [] else LastEdit(ws, steps, n - 1, p)
      case _ => LastEdit(ws, steps, n - 1, p)
  }

  // Over every run a product is what its last edit says, but for the stock, which is not edited; and a product
  // that was dropped, or never created, is not there.
  lemma {:induction false} ProductsAreAsEdited(ws: seq<World>, steps: seq<Step>, n: nat, p: nat)
    requires Run(ws, steps) && n <= |steps|
    ensures var last := LastEdit(ws, steps, n, p);
      (p in ws[n].db.products <==> last != []) && |last| <= 1 &&
      (last != [] ==> ws[n].db.products[p] == last[0].(stock := ws[n].db.products[p].stock))
  {
    hide Apply;
    if n > 0 {
      assert Happens(ws, steps, n - 1);
      ProductsAreAsEdited(ws, steps, n - 1, p);
      InventoryIsSound(ws, steps, n - 1);
      StepEdits(ws[n - 1], steps[n - 1], p);
    }
  }

  lemma StepEdits(w: World, step: Step, p: nat)
    requires Keyed(w.db)
    ensures var ps, ps' := w.db.products, Apply(w, step).db.products;
      match step
      case Create(product) =>
        if p == w.db.nextProduct then p in ps' && ps'[p] == product.(stock := 0)
        else (p in ps' <==> p in ps) && (p in ps ==> ps'[p] == ps[p])
      case Edit(id, product) =>
        (p in ps' <==> p in ps) && (p in ps ==> ps'[p] == if p == id then product.(stock := ps[p].stock) else ps[p])
      case Drop(id) => (p in ps' <==> p in ps && p != id) && (p in ps' ==> ps'[p] == ps[p])
      case _ => (p in ps' <==> p in ps) && (p in ps ==> ps'[p] == ps[p].(stock := ps'[p].stock))
  {
    hide FirstUnsold, InsertCards, Cleaned;
  }
}
