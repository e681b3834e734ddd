/**
  Stock conservation for the cart store. Starting from an empty cart over a
  catalog, the counter shown for (id, size) plus the cart's quantity for
  (id, size) stays equal to the catalog's original stock, as long as every
  add passes the menu page's "is anything left?" test. `addToCart` does not
  make that test itself.
 */
module CartConservation {
  import opened Seqs
  import opened Food
  import opened Cart

  /** The cart store's public mutators. */
  datatype CartOp =
    | Add(item: FoodItem, size: Size)
    | Remove(id: string, size: Size)
    | SetQuantity(id: string, size: Size, quantity: int)
    | Clear

  function Apply(c: Cart, op: CartOp): Cart {
    match op
    case Add(item, s) => AddToCart(c, item, s)
    case Remove(id, s) => RemoveFromCart(c, id, s)
    case SetQuantity(id, s, q) => UpdateQuantity(c, id, s, q)
    case Clear => ClearCart(c)
  }

  /**
    When a call keeps the books. An add needs the stock the menu page shows
    to be positive. A quantity change must not raise the line by more than
    the stock shown; nothing in the store or its callers checks this one.
   */
  predicate Guarded(c: Cart, op: CartOp) {
    match op
    case Add(item, s) => ShownStock(c.availableItems, item.id, s) > 0
    case SetQuantity(id, s, q) =>
      FindLine(c.items, Key(id, s)).Some? ==>
        q - FindLine(c.items, Key(id, s)).value.quantity <= ShownStock(c.availableItems, id, s)
    case Remove(_, _) => true
    case Clear => true
  }

  /** The state after applying `ops` in order. */
  function Run(c: Cart, ops: seq<CartOp>): Cart
    decreases |ops|
  {
    if ops == [] then c else Run(Apply(c, ops[0]), ops[1..])
  }

  /** Every call of the run passes its guard in the state it is made in. */
  predicate GuardedRun(c: Cart, ops: seq<CartOp>)
    decreases |ops|
  {
    ops == [] || (Guarded(c, ops[0]) && GuardedRun(Apply(c, ops[0]), ops[1..]))
  }

  /** The books balance: counter plus cart quantity is the original stock, for every entry and size. */
  predicate Conserved(c: Cart, seed: seq<FoodItem>) {
    && UniqueKeys(c.items)
    && |c.availableItems| == |seed|
    && (forall i :: 0 <= i < |seed| ==> SameButStock(c.availableItems[i], seed[i]))
    && (forall i, s :: 0 <= i < |seed| ==>
          c.availableItems[i].available.Get(s) + CartQty(c.items, Key(seed[i].id, s)) == seed[i].available.Get(s))
  }

  /** With unique ids, the stock the page shows for an id is that entry's counter. */
  lemma {:induction false} ShownStockAt(av: seq<FoodItem>, i: int, s: Size)
    requires UniqueIds(av) && 0 <= i < |av|
    ensures ShownStock(av, av[i].id, s) == av[i].available.Get(s)
  {
    assert HasId(av[i].id)(av[i]);
    var j := FirstIndex(av, HasId(av[i].id)).value;
    assert av[j].id == av[i].id;
  }

  lemma {:induction false} ConservedIds(c: Cart, seed: seq<FoodItem>)
    requires Conserved(c, seed) && UniqueIds(seed)
    ensures UniqueIds(c.availableItems)
    ensures forall i :: 0 <= i < |seed| ==> c.availableItems[i].id == seed[i].id
  {
  }

  lemma {:induction false} AddConserves(c: Cart, seed: seq<FoodItem>, item: FoodItem, s: Size)
    requires Conserved(c, seed) && UniqueIds(seed)
    requires ShownStock(c.availableItems, item.id, s) > 0
    ensures Conserved(AddToCart(c, item, s), seed)
  {
    var r := AddToCart(c, item, s);
    var k := Key(item.id, s);
    ConservedIds(c, seed);
    forall i, s' | 0 <= i < |seed|
      ensures r.availableItems[i].available.Get(s') + CartQty(r.items, Key(seed[i].id, s')) == seed[i].available.Get(s')
    {
      var k' := Key(seed[i].id, s');
      if FindLine(c.items, k).Some? {
        QtyBump(c.items, k, k');
      } else {
        QtyAppend(c.items, CartItem(item, s, 1), k');
      }
      if seed[i].id == item.id && s' == s {
        ShownStockAt(c.availableItems, i, s);
      } else if seed[i].id == item.id {
        assert s' == Other(s);
      }
    }
  }

  lemma {:induction false} RemoveConserves(c: Cart, seed: seq<FoodItem>, id: string, s: Size)
    requires Conserved(c, seed) && StockNonNegative(seed)
    ensures Conserved(RemoveFromCart(c, id, s), seed)
  {
    var r := RemoveFromCart(c, id, s);
    var k := Key(id, s);
    if FindLine(c.items, k).Some? {
      QtyFound(c.items, k);
      forall i, s' | 0 <= i < |seed|
        ensures r.availableItems[i].available.Get(s') + CartQty(r.items, Key(seed[i].id, s')) == seed[i].available.Get(s')
      {
        QtyDrop(c.items, k, Key(seed[i].id, s'));
        assert c.availableItems[i].id == seed[i].id;
        if seed[i].id == id && s' != s {
          assert s' == Other(s);
        }
      }
    }
  }

  lemma {:induction false} SetQuantityConserves(c: Cart, seed: seq<FoodItem>, id: string, s: Size, q: int)
    requires Conserved(c, seed) && UniqueIds(seed)
    requires Guarded(c, SetQuantity(id, s, q))
    ensures Conserved(UpdateQuantity(c, id, s, q), seed)
  {
    var r := UpdateQuantity(c, id, s, q);
    var k := Key(id, s);
    ConservedIds(c, seed);
    if FindLine(c.items, k).Some? {
      QtyFound(c.items, k);
      forall i, s' | 0 <= i < |seed|
        ensures r.availableItems[i].available.Get(s') + CartQty(r.items, Key(seed[i].id, s')) == seed[i].available.Get(s')
      {
        QtySet(c.items, k, q, Key(seed[i].id, s'));
        if seed[i].id == id && s' == s {
          ShownStockAt(c.availableItems, i, s);
        } else if seed[i].id == id {
          assert s' == Other(s);
        }
      }
    }
  }

  lemma {:induction false} ClearConserves(c: Cart, seed: seq<FoodItem>)
    requires Conserved(c, seed) && StockNonNegative(seed)
    ensures Conserved(ClearCart(c), seed)
  {
    forall i, s | 0 <= i < |c.availableItems|
      ensures c.availableItems[i].available.Get(s) + CartQty(c.items, Key(c.availableItems[i].id, s)) >= 0
    {
      assert c.availableItems[i].id == seed[i].id;
    }
    ClearCartReturnsQuantities(c);
    var r := ClearCart(c);
    forall i, s | 0 <= i < |seed|
      ensures r.availableItems[i].available.Get(s) + CartQty(r.items, Key(seed[i].id, s)) == seed[i].available.Get(s)
    {
      assert c.availableItems[i].id == seed[i].id;
    }
  }

  /** One guarded call keeps the books balanced. */
  lemma {:induction false} StepConserves(c: Cart, seed: seq<FoodItem>, op: CartOp)
    requires Conserved(c, seed) && UniqueIds(seed) && StockNonNegative(seed)
    requires Guarded(c, op)
    ensures Conserved(Apply(c, op), seed)
  {
    match op
    case Add(item, s) => AddConserves(c, seed, item, s);
    case Remove(id, s) => RemoveConserves(c, seed, id, s);
    case SetQuantity(id, s, q) => SetQuantityConserves(c, seed, id, s, q);
    case Clear => ClearConserves(c, seed);
  }

  lemma {:induction false} RunConservesFrom(c: Cart, seed: seq<FoodItem>, ops: seq<CartOp>)
    requires Conserved(c, seed) && UniqueIds(seed) && StockNonNegative(seed)
    requires GuardedRun(c, ops)
    ensures Conserved(Run(c, ops), seed)
    decreases |ops|
  {
    if ops != [] {
      StepConserves(c, seed, ops[0]);
      RunConservesFrom(Apply(c, ops[0]), seed, ops[1..]);
    }
  }

  /**
    Conservation: from an empty cart over a catalog with unique ids and
    non-negative stock, after any guarded sequence of adds, removals,
    quantity changes and clears, every counter plus the cart's quantity for
    its (id, size) equals the catalog's original stock.
   */
  lemma {:induction false} RunConserves(seed: seq<FoodItem>, ops: seq<CartOp>)
    requires UniqueIds(seed) && StockNonNegative(seed)
    requires GuardedRun(Initial(seed), ops)
    ensures Conserved(Run(Initial(seed), ops), seed)
    ensures forall i, s :: 0 <= i < |seed| ==>
      Run(Initial(seed), ops).availableItems[i].available.Get(s) + CartQty(Run(Initial(seed), ops).items, Key(seed[i].id, s))
        == seed[i].available.Get(s)
  {
    assert Conserved(Initial(seed), seed);
    RunConservesFrom(Initial(seed), seed, ops);
  }

  /** Without the page's test, adding an item that is out of stock breaks conservation. */
  lemma UnguardedAddBreaksConservation()
    ensures var seed := [FoodItem("x", "", "", PerSize(0, 0), PerSize("", ""), "", PerSize(0, 0))];
      && Conserved(Initial(seed), seed)
      && !Conserved(AddToCart(Initial(seed), seed[0], Medium), seed)
  {
    var seed := [FoodItem("x", "", "", PerSize(0, 0), PerSize("", ""), "", PerSize(0, 0))];
    var r := AddToCart(Initial(seed), seed[0], Medium);
    assert r.items == [CartItem(seed[0], Medium, 1)];
    assert CartQty(r.items, Key("x", Medium)) == 1;
    assert r.availableItems[0].available.Get(Medium) == 0;
  }

  /**
    Without a stock test on `updateQuantity`, raising a line past the stock
    shown breaks conservation: the counter is floored at 0 and the excess
    is not accounted for anywhere.
   */
  lemma UnguardedSetQuantityBreaksConservation()
    ensures var seed := [FoodItem("x", "", "", PerSize(0, 0), PerSize("", ""), "", PerSize(1, 0))];
      var c := AddToCart(Initial(seed), seed[0], Medium);
      && ShownStock(Initial(seed).availableItems, "x", Medium) > 0
      && Conserved(c, seed)
      && !Conserved(UpdateQuantity(c, "x", Medium, 5), seed)
  {
    var seed := [FoodItem("x", "", "", PerSize(0, 0), PerSize("", ""), "", PerSize(1, 0))];
    var c := AddToCart(Initial(seed), seed[0], Medium);
    assert HasId("x")(seed[0]);
    assert c.items == [CartItem(seed[0], Medium, 1)];
    assert CartQty(c.items, Key("x", Medium)) == 1;
    assert CartQty(c.items, Key("x", Large)) == 0;
    assert c.availableItems[0].available.Get(Medium) == 0;
    assert Conserved(c, seed);
    var r := UpdateQuantity(c, "x", Medium, 5);
    assert Matches(Key("x", Medium))(c.items[0]);
    assert r.items == [CartItem(seed[0], Medium, 5)];
    assert CartQty(r.items, Key("x", Medium)) == 5;
    assert r.availableItems[0].available.Get(Medium) == 0;
  }

  /** Adding the same (id, size) twice to a cart without it yields one line of quantity 2, not two lines. */
  lemma {:induction false} AddTwiceMerges(c: Cart, item: FoodItem, s: Size)
    requires FindLine(c.items, Key(item.id, s)).None?
    ensures AddToCart(AddToCart(c, item, s), item, s).items == c.items + [CartItem(item, s, 2)]
  {
    var once := AddToCart(c, item, s);
    var twice := AddToCart(once, item, s);
    assert once.items == c.items + [CartItem(item, s, 1)];
    assert Matches(Key(item.id, s))(once.items[|c.items|]);
    assert FindLine(once.items, Key(item.id, s)).Some?;
    assert |twice.items| == |c.items| + 1;
    forall i | 0 <= i < |twice.items|
      ensures twice.items[i] == (c.items + [CartItem(item, s, 2)])[i]
    {
      if i < |c.items| {
        assert !Matches(Key(item.id, s))(c.items[i]);
      }
    }
  }

  lemma {:induction false} AddToOnlyLine(c: Cart, item: FoodItem, s: Size, n: int)
    requires c.items == [CartItem(item, s, n)]
    ensures AddToCart(c, item, s).items == [CartItem(item, s, n + 1)]
  {
    assert Matches(Key(item.id, s))(c.items[0]);
  }

  /** A balanced empty cart shows exactly the original catalog. */
  lemma {:induction false} EmptyBalancedIsSeed(c: Cart, seed: seq<FoodItem>)
    requires Conserved(c, seed) && c.items == []
    ensures c.availableItems == seed
  {
    forall i | 0 <= i < |seed|
      ensures c.availableItems[i] == seed[i]
    {
      var a := c.availableItems[i].available;
      assert a.Get(Medium) + CartQty([], Key(seed[i].id, Medium)) == seed[i].available.Get(Medium);
      assert a.Get(Large) + CartQty([], Key(seed[i].id, Large)) == seed[i].available.Get(Large);
      assert a == seed[i].available;
    }
  }

  /** One more add of catalog entry `j` to a cart holding only `n` of it. */
  lemma {:induction false} AddOneMore(c: Cart, seed: seq<FoodItem>, j: int, s: Size, n: nat)
    requires Conserved(c, seed) && UniqueIds(seed) && 0 <= j < |seed|
    requires c.items == if n == 0 then [] else [CartItem(seed[j], s, n)]
    requires seed[j].available.Get(s) > n
    ensures Guarded(c, Add(seed[j], s))
    ensures Conserved(AddToCart(c, seed[j], s), seed)
    ensures AddToCart(c, seed[j], s).items == [CartItem(seed[j], s, n + 1)]
    ensures AddToCart(c, seed[j], s).availableItems[j].available.Get(s) == seed[j].available.Get(s) - n - 1
  {
    var k := Key(seed[j].id, s);
    assert CartQty(c.items, k) == n;
    ConservedIds(c, seed);
    ShownStockAt(c.availableItems, j, s);
    AddConserves(c, seed, seed[j], s);
    if n != 0 {
      AddToOnlyLine(c, seed[j], s, n);
    }
    var r := AddToCart(c, seed[j], s);
    assert CartQty(r.items, k) == n + 1;
  }

  /** Removing the only line empties the cart and restores the catalog. */
  lemma {:induction false} RemoveOnlyLine(c: Cart, seed: seq<FoodItem>, j: int, s: Size, n: int)
    requires Conserved(c, seed) && StockNonNegative(seed) && 0 <= j < |seed|
    requires c.items == [CartItem(seed[j], s, n)]
    ensures RemoveFromCart(c, seed[j].id, s) == Cart([], seed)
  {
    var r := RemoveFromCart(c, seed[j].id, s);
    RemoveConserves(c, seed, seed[j].id, s);
    EmptyBalancedIsSeed(r, seed);
  }

  /**
    Three adds of one entry at one size give a single line of quantity 3
    and a counter 3 lower; removing that line restores the catalog.
   */
  lemma {:induction false} AddThreeThenRemove(seed: seq<FoodItem>, j: int, s: Size)
    requires UniqueIds(seed) && StockNonNegative(seed) && 0 <= j < |seed|
    requires seed[j].available.Get(s) >= 3
    ensures var c3 := AddToCart(AddToCart(AddToCart(Initial(seed), seed[j], s), seed[j], s), seed[j], s);
      && c3.items == [CartItem(seed[j], s, 3)]
      && c3.availableItems[j].available.Get(s) == seed[j].available.Get(s) - 3
      && RemoveFromCart(c3, seed[j].id, s) == Initial(seed)
  {
    var c0 := Initial(seed);
    assert Conserved(c0, seed);
    AddOneMore(c0, seed, j, s, 0);
    var c1 := AddToCart(c0, seed[j], s);
    AddOneMore(c1, seed, j, s, 1);
    var c2 := AddToCart(c1, seed[j], s);
    AddOneMore(c2, seed, j, s, 2);
    var c3 := AddToCart(c2, seed[j], s);
    RemoveOnlyLine(c3, seed, j, s, 3);
  }

  /**
    The seed burger ("1"), medium size, stock 10: three adds give one line
    of quantity 3 and a counter of 7; removing the line restores 10.
   */
  lemma SeedBurgerScenario()
    ensures var burger := SeedCatalog()[0];
      var c3 := AddToCart(AddToCart(AddToCart(Initial(SeedCatalog()), burger, Medium), burger, Medium), burger, Medium);
      && c3.items == [CartItem(burger, Medium, 3)]
      && c3.availableItems[0].available.Get(Medium) == 7
      && RemoveFromCart(c3, "1", Medium) == Initial(SeedCatalog())
  {
    SeedCatalogWellFormed();
    AddThreeThenRemove(SeedCatalog(), 0, Medium);
  }
}
