/**
  The cart store: an ordered list of cart lines keyed by (item id, size) and
  a copy of the catalog whose per-size `available` counters move opposite to
  the cart's quantities, floored at 0. Each operation maps the latest
  committed state to the next one.
 */
module Cart {
  import opened Wrappers
  import opened Seqs
  import opened Food

  datatype Cart = Cart(items: seq<CartItem>, availableItems: seq<FoodItem>)

  /** An empty cart over the given catalog. */
  function Initial(catalog: seq<FoodItem>): Cart {
    Cart([], catalog)
  }

  /** `Math.max(0, x)`. */
  function Max0(x: int): int {
    if x < 0 then 0 else x
  }

  function Matches(k: Key): CartItem -> bool {
    (line: CartItem) => KeyOf(line) == k
  }

  function Keeps(k: Key): CartItem -> bool {
    (line: CartItem) => KeyOf(line) != k
  }

  function Bump(): CartItem -> CartItem {
    (line: CartItem) => line.(quantity := line.quantity + 1)
  }

  function SetTo(q: int): CartItem -> CartItem {
    (line: CartItem) => line.(quantity := q)
  }

  /** At most one line per (id, size). */
  predicate UniqueKeys(items: seq<CartItem>) {
    forall i, j :: 0 <= i < j < |items| ==> KeyOf(items[i]) != KeyOf(items[j])
  }

  /** `items.find(...)` on the key. */
  function FindLine(items: seq<CartItem>, k: Key): Option<CartItem> {
    Find(items, Matches(k))
  }

  /** Total quantity of the lines with key `k`. */
  function CartQty(items: seq<CartItem>, k: Key): int {
    if items == [] then 0
    else (if KeyOf(items[0]) == k then items[0].quantity else 0) + CartQty(items[1..], k)
  }

  /** Two catalog entries that differ at most in their stock counters. */
  predicate SameButStock(a: FoodItem, b: FoodItem) {
    a == b.(available := a.available)
  }

  /** The stock of one entry at size `s`, lowered by `q` and floored at 0. */
  function Reduce(s: Size, q: int): FoodItem -> FoodItem {
    (f: FoodItem) => f.(available := f.available.With(s, Max0(f.available.Get(s) - q)))
  }

  /**
    `updateAvailable`: every catalog entry with this id has its counter for
    `s` lowered by `q` (raised when `q` is negative), never below 0; the
    other size, the other fields and all other entries stay as they were.
   */
  function UpdateAvailable(av: seq<FoodItem>, id: string, s: Size, q: int): (r: seq<FoodItem>)
    ensures |r| == |av|
    ensures forall i :: 0 <= i < |av| && av[i].id != id ==> r[i] == av[i]
    ensures forall i :: 0 <= i < |av| && av[i].id == id ==>
      && r[i].available.Get(s) == Max0(av[i].available.Get(s) - q)
      && r[i].available.Get(Other(s)) == av[i].available.Get(Other(s))
      && SameButStock(r[i], av[i])
    ensures StockNonNegative(av) ==> StockNonNegative(r)
  {
    ReduceKeepsNonNegative(av, id, s, q);
    MapWhere(av, HasId(id), Reduce(s, q))
  }

  lemma {:induction false} ReduceKeepsNonNegative(av: seq<FoodItem>, id: string, s: Size, q: int)
    ensures StockNonNegative(av) ==> StockNonNegative(MapWhere(av, HasId(id), Reduce(s, q)))
  {
    var r := MapWhere(av, HasId(id), Reduce(s, q));
    if StockNonNegative(av) {
      forall i, s' | 0 <= i < |r|
        ensures r[i].available.Get(s') >= 0
      {
        ReduceAt(av[i], id, s, q, s');
      }
    }
  }

  lemma ReduceAt(f: FoodItem, id: string, s: Size, q: int, s': Size)
    requires f.available.Get(s') >= 0
    ensures (if HasId(id)(f) then Reduce(s, q)(f) else f).available.Get(s') >= 0
  {
    if HasId(id)(f) && s' != s {
      assert s' == Other(s);
    }
  }

  /**
    The stock the menu page reads before adding:
    `availableItems.find(i => i.id === id)?.available[s] || 0`.
   */
  function ShownStock(av: seq<FoodItem>, id: string, s: Size): (r: int)
    ensures FirstIndex(av, HasId(id)).None? ==> r == 0
    ensures FirstIndex(av, HasId(id)).Some? ==> r == av[FirstIndex(av, HasId(id)).value].available.Get(s)
  {
    match Find(av, HasId(id))
    case Some(f) => f.available.Get(s)
    case None => 0
  }

  /** The lines with key `k` get their quantity raised by 1; the others are kept. */
  function BumpLines(items: seq<CartItem>, k: Key): (r: seq<CartItem>)
    ensures |r| == |items|
    ensures forall i :: 0 <= i < |items| && KeyOf(items[i]) == k ==> r[i] == items[i].(quantity := items[i].quantity + 1)
    ensures forall i :: 0 <= i < |items| && KeyOf(items[i]) != k ==> r[i] == items[i]
    ensures UniqueKeys(items) ==> UniqueKeys(r)
  {
    BumpKeepsKeys(items, k);
    MapWhere(items, Matches(k), Bump())
  }

  /** The lines with key `k` get quantity `q`; the others are kept; without such a line nothing changes. */
  function SetLines(items: seq<CartItem>, k: Key, q: int): (r: seq<CartItem>)
    ensures |r| == |items|
    ensures forall i :: 0 <= i < |items| && KeyOf(items[i]) == k ==> r[i] == items[i].(quantity := q)
    ensures forall i :: 0 <= i < |items| && KeyOf(items[i]) != k ==> r[i] == items[i]
    ensures UniqueKeys(items) ==> UniqueKeys(r)
    ensures FindLine(items, k).None? ==> r == items
  {
    SetKeepsKeys(items, k, q);
    RewriteAbsent(items, k, SetTo(q));
    MapWhere(items, Matches(k), SetTo(q))
  }

  /** The lines with key `k` are dropped, the others kept in order; without such a line nothing changes. */
  function DropLines(items: seq<CartItem>, k: Key): (r: seq<CartItem>)
    ensures forall i :: 0 <= i < |r| ==> KeyOf(r[i]) != k
    ensures forall i :: 0 <= i < |items| && KeyOf(items[i]) != k ==> items[i] in r
    ensures forall i :: 0 <= i < |r| ==> r[i] in items
    ensures UniqueKeys(items) ==> UniqueKeys(r)
    ensures FindLine(items, k).None? ==> r == items
  {
    FilterKeepsUnique(items, Keeps(k));
    DropAbsent(items, k);
    Filter(items, Keeps(k))
  }

  /** Dropping lines distributes over concatenation: the kept lines stay in order. */
  lemma {:induction false} DropLinesKeepsOrder(xs: seq<CartItem>, ys: seq<CartItem>, k: Key)
    ensures DropLines(xs + ys, k) == DropLines(xs, k) + DropLines(ys, k)
  {
    FilterAppend(xs, ys, Keeps(k));
  }

  /**
    `addToCart`: a repeat (id, size) bumps that line's quantity in place,
    a new one is appended with quantity 1; either way the counter drops by 1.
    There is no stock check here; the caller makes it.
   */
  function AddToCart(c: Cart, item: FoodItem, s: Size): (r: Cart)
    ensures FindLine(c.items, Key(item.id, s)).Some? ==>
      && |r.items| == |c.items|
      && (forall i :: 0 <= i < |c.items| && KeyOf(c.items[i]) == Key(item.id, s) ==>
            r.items[i] == c.items[i].(quantity := c.items[i].quantity + 1))
      && (forall i :: 0 <= i < |c.items| && KeyOf(c.items[i]) != Key(item.id, s) ==>
            r.items[i] == c.items[i])
    ensures FindLine(c.items, Key(item.id, s)).None? ==>
      r.items == c.items + [CartItem(item, s, 1)]
    ensures r.availableItems == UpdateAvailable(c.availableItems, item.id, s, 1)
    ensures UniqueKeys(c.items) ==> UniqueKeys(r.items)
    ensures StockNonNegative(c.availableItems) ==> StockNonNegative(r.availableItems)
  {
    var k := Key(item.id, s);
    var items := if FindLine(c.items, k).Some? then BumpLines(c.items, k) else c.items + [CartItem(item, s, 1)];
    Cart(items, UpdateAvailable(c.availableItems, item.id, s, 1))
  }

  /**
    `removeFromCart`: every line with the key goes, the others stay in order;
    the first such line's quantity is given back to the counter.
   */
  function RemoveFromCart(c: Cart, id: string, s: Size): (r: Cart)
    ensures r.items == DropLines(c.items, Key(id, s))
    ensures FindLine(c.items, Key(id, s)).None? ==> r == c
    ensures FindLine(c.items, Key(id, s)).Some? ==>
      r.availableItems == UpdateAvailable(c.availableItems, id, s, -FindLine(c.items, Key(id, s)).value.quantity)
    ensures StockNonNegative(c.availableItems) ==> StockNonNegative(r.availableItems)
  {
    var k := Key(id, s);
    var found := FindLine(c.items, k);
    var av := if found.Some? then UpdateAvailable(c.availableItems, id, s, -found.value.quantity) else c.availableItems;
    Cart(DropLines(c.items, k), av)
  }

  /**
    `updateQuantity`: the matching line's quantity becomes `q`, even when `q`
    is 0 or negative (the line is not removed), and the counter moves by the
    difference; without a matching line nothing changes.
   */
  function UpdateQuantity(c: Cart, id: string, s: Size, q: int): (r: Cart)
    ensures r.items == SetLines(c.items, Key(id, s), q)
    ensures FindLine(c.items, Key(id, s)).None? ==> r == c
    ensures FindLine(c.items, Key(id, s)).Some? ==>
      r.availableItems == UpdateAvailable(c.availableItems, id, s, q - FindLine(c.items, Key(id, s)).value.quantity)
    ensures StockNonNegative(c.availableItems) ==> StockNonNegative(r.availableItems)
  {
    var k := Key(id, s);
    var found := FindLine(c.items, k);
    var av := if found.Some? then UpdateAvailable(c.availableItems, id, s, q - found.value.quantity) else c.availableItems;
    Cart(SetLines(c.items, k, q), av)
  }

  /** Gives every line's quantity back to its counter, one line after the other. */
  function RestoreAll(av: seq<FoodItem>, lines: seq<CartItem>): (r: seq<FoodItem>)
    ensures |r| == |av|
    ensures forall i :: 0 <= i < |av| ==> SameButStock(r[i], av[i])
    ensures StockNonNegative(av) ==> StockNonNegative(r)
    decreases lines
  {
    if lines == [] then av
    else RestoreAll(UpdateAvailable(av, lines[0].item.id, lines[0].size, -lines[0].quantity), lines[1..])
  }

  /** `clearCart`: every line's quantity goes back to availability, then the cart is emptied. */
  function ClearCart(c: Cart): (r: Cart)
    ensures r.items == []
    ensures |r.availableItems| == |c.availableItems|
    ensures forall i :: 0 <= i < |c.availableItems| ==> SameButStock(r.availableItems[i], c.availableItems[i])
    ensures c.items == [] ==> r == c
    ensures StockNonNegative(c.availableItems) ==> StockNonNegative(r.availableItems)
  {
    Cart([], RestoreAll(c.availableItems, c.items))
  }

  lemma {:induction false} DropAbsent(items: seq<CartItem>, k: Key)
    ensures FindLine(items, k).None? ==> Filter(items, Keeps(k)) == items
  {
    if FindLine(items, k).None? {
      forall i | 0 <= i < |items|
        ensures Keeps(k)(items[i])
      {
        assert !Matches(k)(items[i]);
      }
      FilterKeepsAll(items, Keeps(k));
    }
  }

  lemma {:induction false} RewriteAbsent(items: seq<CartItem>, k: Key, f: CartItem -> CartItem)
    ensures FindLine(items, k).None? ==> MapWhere(items, Matches(k), f) == items
  {
    var r := MapWhere(items, Matches(k), f);
    if FindLine(items, k).None? {
      assert forall i :: 0 <= i < |items| ==> r[i] == items[i];
    }
  }

  /** Changing quantities in place keeps the keys unique. */
  lemma {:induction false} SetKeepsKeys(items: seq<CartItem>, k: Key, q: int)
    ensures UniqueKeys(items) ==> UniqueKeys(MapWhere(items, Matches(k), SetTo(q)))
  {
    var r := MapWhere(items, Matches(k), SetTo(q));
    assert forall i :: 0 <= i < |items| ==> KeyOf(r[i]) == KeyOf(items[i]);
  }

  lemma {:induction false} BumpKeepsKeys(items: seq<CartItem>, k: Key)
    ensures UniqueKeys(items) ==> UniqueKeys(MapWhere(items, Matches(k), Bump()))
  {
    var r := MapWhere(items, Matches(k), Bump());
    assert forall i :: 0 <= i < |items| ==> KeyOf(r[i]) == KeyOf(items[i]);
  }

  lemma {:induction false} FilterKeepsUnique(items: seq<CartItem>, p: CartItem -> bool)
    ensures UniqueKeys(items) ==> UniqueKeys(Filter(items, p))
  {
    if items != [] && UniqueKeys(items) {
      var tail := items[1..];
      assert UniqueKeys(tail) by {
        forall i, j | 0 <= i < j < |tail|
          ensures KeyOf(tail[i]) != KeyOf(tail[j])
        {
          assert tail[i] == items[i + 1] && tail[j] == items[j + 1];
        }
      }
      FilterKeepsUnique(tail, p);
      if p(items[0]) {
        var r := Filter(items, p);
        var ft := Filter(tail, p);
        assert r == [items[0]] + ft;
        forall i, j | 0 <= i < j < |r|
          ensures KeyOf(r[i]) != KeyOf(r[j])
        {
          if i == 0 {
            assert r[j] == ft[j - 1];
            assert ft[j - 1] in tail;
            var m :| 0 <= m < |tail| && tail[m] == ft[j - 1];
            assert tail[m] == items[m + 1];
          } else {
            assert r[i] == ft[i - 1] && r[j] == ft[j - 1];
          }
        }
      }
    }
  }

  // ---------------------------------------------------------------------
  // How the operations move the per-key cart quantity

  lemma {:induction false} QtyAppend(items: seq<CartItem>, line: CartItem, k: Key)
    ensures CartQty(items + [line], k) == CartQty(items, k) + (if KeyOf(line) == k then line.quantity else 0)
  {
    if items == [] {
      assert items + [line] == [line];
    } else {
      assert (items + [line])[1..] == items[1..] + [line];
      QtyAppend(items[1..], line, k);
    }
  }

  lemma {:induction false} QtyAbsent(items: seq<CartItem>, k: Key)
    requires FindLine(items, k).None?
    ensures CartQty(items, k) == 0
  {
    if items != [] {
      assert !Matches(k)(items[0]);
      QtyAbsent(items[1..], k);
    }
  }

  /** With unique keys, the quantity for a key is the quantity of the line found for it. */
  lemma {:induction false} QtyFound(items: seq<CartItem>, k: Key)
    requires UniqueKeys(items)
    requires FindLine(items, k).Some?
    ensures CartQty(items, k) == FindLine(items, k).value.quantity
  {
    if KeyOf(items[0]) == k {
      assert FindLine(items, k).value == items[0];
      assert forall i :: 0 <= i < |items[1..]| ==> KeyOf(items[1..][i]) != k by {
        forall i | 0 <= i < |items[1..]|
          ensures KeyOf(items[1..][i]) != k
        {
          assert items[1..][i] == items[i + 1];
        }
      }
      QtyAbsent(items[1..], k);
    } else {
      assert FirstIndex(items, Matches(k)).value > 0;
      assert FindLine(items[1..], k).Some?;
      assert FindLine(items[1..], k).value == FindLine(items, k).value;
      QtyFound(items[1..], k);
    }
  }

  lemma {:induction false} QtyBump(items: seq<CartItem>, k: Key, k': Key)
    requires UniqueKeys(items)
    ensures CartQty(MapWhere(items, Matches(k), Bump()), k') ==
      CartQty(items, k') + (if k' == k && FindLine(items, k).Some? then 1 else 0)
  {
    if items != [] {
      var rest := MapWhere(items, Matches(k), Bump());
      assert rest[1..] == MapWhere(items[1..], Matches(k), Bump());
      QtyBump(items[1..], k, k');
      if KeyOf(items[0]) == k {
        assert FindLine(items[1..], k).None? by {
          forall i | 0 <= i < |items[1..]|
            ensures !Matches(k)(items[1..][i])
          {
            assert items[1..][i] == items[i + 1];
          }
        }
      } else {
        assert FindLine(items, k).Some? == FindLine(items[1..], k).Some?;
      }
    }
  }

  lemma {:induction false} QtySet(items: seq<CartItem>, k: Key, q: int, k': Key)
    requires UniqueKeys(items)
    ensures CartQty(MapWhere(items, Matches(k), SetTo(q)), k') ==
      if k' != k then CartQty(items, k')
      else if FindLine(items, k).Some? then q
      else 0
  {
    if items == [] {
    } else {
      var rest := MapWhere(items, Matches(k), SetTo(q));
      assert rest[1..] == MapWhere(items[1..], Matches(k), SetTo(q));
      QtySet(items[1..], k, q, k');
      if KeyOf(items[0]) == k {
        assert FindLine(items[1..], k).None? by {
          forall i | 0 <= i < |items[1..]|
            ensures !Matches(k)(items[1..][i])
          {
            assert items[1..][i] == items[i + 1];
          }
        }
      } else {
        assert FindLine(items, k).Some? == FindLine(items[1..], k).Some?;
        if k' == k && FindLine(items, k).None? {
          QtyAbsent(items, k);
        }
      }
    }
  }

  lemma {:induction false} QtyDrop(items: seq<CartItem>, k: Key, k': Key)
    ensures CartQty(Filter(items, Keeps(k)), k') == if k' == k then 0 else CartQty(items, k')
  {
    if items != [] {
      QtyDrop(items[1..], k, k');
      if Keeps(k)(items[0]) {
        assert Filter(items, Keeps(k)) == [items[0]] + Filter(items[1..], Keeps(k));
        assert ([items[0]] + Filter(items[1..], Keeps(k)))[1..] == Filter(items[1..], Keeps(k));
      }
    }
  }

  /**
    Clearing a cart with unique keys gives each counter back exactly the
    quantity held for it, provided no counter would end below 0.
   */
  lemma {:induction false} RestoreAllReturnsQuantities(av: seq<FoodItem>, lines: seq<CartItem>)
    requires UniqueKeys(lines)
    requires forall i, s :: 0 <= i < |av| ==> av[i].available.Get(s) + CartQty(lines, Key(av[i].id, s)) >= 0
    ensures forall i, s :: 0 <= i < |av| ==>
      RestoreAll(av, lines)[i].available.Get(s) == av[i].available.Get(s) + CartQty(lines, Key(av[i].id, s))
    decreases lines
  {
    if lines != [] {
      var l := lines[0];
      var av' := UpdateAvailable(av, l.item.id, l.size, -l.quantity);
      var tail := lines[1..];
      UniqueTail(lines);
      forall i, s | 0 <= i < |av'|
        ensures av'[i].available.Get(s) + CartQty(tail, Key(av'[i].id, s)) == av[i].available.Get(s) + CartQty(lines, Key(av[i].id, s))
      {
        RestoreStepAt(av, av', lines, i, s);
      }
      RestoreAllReturnsQuantities(av', tail);
      forall i, s | 0 <= i < |av|
        ensures RestoreAll(av, lines)[i].available.Get(s) == av[i].available.Get(s) + CartQty(lines, Key(av[i].id, s))
      {
        RestoreStepAt(av, av', lines, i, s);
      }
    }
  }

  /** The tail of a list with unique keys has unique keys and lacks the head's key. */
  lemma {:induction false} UniqueTail(lines: seq<CartItem>)
    requires lines != [] && UniqueKeys(lines)
    ensures UniqueKeys(lines[1..])
    ensures FindLine(lines[1..], KeyOf(lines[0])).None?
    ensures CartQty(lines[1..], KeyOf(lines[0])) == 0
  {
    var tail := lines[1..];
    forall i, j | 0 <= i < j < |tail|
      ensures KeyOf(tail[i]) != KeyOf(tail[j])
    {
      assert tail[i] == lines[i + 1] && tail[j] == lines[j + 1];
    }
    forall i | 0 <= i < |tail|
      ensures !Matches(KeyOf(lines[0]))(tail[i])
    {
      assert tail[i] == lines[i + 1];
    }
    QtyAbsent(tail, KeyOf(lines[0]));
  }

  /** One step of `clearCart`, for one counter: no quantity is lost or gained. */
  lemma {:induction false} RestoreStepAt(av: seq<FoodItem>, av': seq<FoodItem>, lines: seq<CartItem>, i: int, s: Size)
    requires lines != [] && 0 <= i < |av|
    requires av' == UpdateAvailable(av, lines[0].item.id, lines[0].size, -lines[0].quantity)
    requires CartQty(lines[1..], KeyOf(lines[0])) == 0
    requires av[i].available.Get(s) + CartQty(lines, Key(av[i].id, s)) >= 0
    ensures av'[i].id == av[i].id
    ensures av'[i].available.Get(s) + CartQty(lines[1..], Key(av'[i].id, s)) == av[i].available.Get(s) + CartQty(lines, Key(av[i].id, s))
  {
    var l := lines[0];
    var k := Key(av[i].id, s);
    assert CartQty(lines, k) == (if KeyOf(l) == k then l.quantity else 0) + CartQty(lines[1..], k);
    if av[i].id != l.item.id {
      assert av'[i] == av[i];
    } else if s == l.size {
      assert av'[i].available.Get(s) == Max0(av[i].available.Get(s) + l.quantity);
    } else {
      assert s == Other(l.size);
      assert av'[i].available.Get(s) == av[i].available.Get(s);
    }
  }

  /**
    `clearCart` with one line per key gives each counter back exactly the
    quantity the cart held for it, whenever that leaves no counter negative.
   */
  lemma ClearCartReturnsQuantities(c: Cart)
    requires UniqueKeys(c.items)
    requires forall i, s :: 0 <= i < |c.availableItems| ==>
      c.availableItems[i].available.Get(s) + CartQty(c.items, Key(c.availableItems[i].id, s)) >= 0
    ensures forall i, s :: 0 <= i < |c.availableItems| ==>
      ClearCart(c).availableItems[i].available.Get(s) ==
        c.availableItems[i].available.Get(s) + CartQty(c.items, Key(c.availableItems[i].id, s))
  {
    RestoreAllReturnsQuantities(c.availableItems, c.items);
  }

  /** `clearCart` on an empty cart changes nothing, so clearing twice is clearing once. */
  lemma {:induction false} ClearCartIdempotent(c: Cart)
    ensures ClearCart(ClearCart(c)) == ClearCart(c)
    ensures ClearCart(Initial(c.availableItems)) == Initial(c.availableItems)
  {
  }


}
