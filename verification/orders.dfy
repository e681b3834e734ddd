/**
  The orders store: placed orders, most recent first, a load from local
  storage with a loading / error state and a user-triggered retry, and a
  write-through that is held back while a load is in progress. Order ids
  and timestamps come from the caller (they stand for `uuidv4()` and
  `Date.now()`).
 */
module Orders {
  import opened Wrappers
  import opened Seqs
  import opened Food
  import opened Storage

  /** A frozen copy of one cart line: later catalog edits do not reach it. */
  datatype OrderItem = OrderItem(id: string, name: string, size: Size, quantity: int, price: int)

  datatype Order = Order(id: string, address: string, total: int, items: seq<OrderItem>, timestamp: int)

  /**
    The store's state. `retryPending` is the one timer the retry effect may
    have scheduled; a new retry replaces it (the effect's cleanup clears
    the old timer).
   */
  datatype Orders = Orders(
    orders: seq<Order>,
    isLoading: bool,
    error: Option<string>,
    retryCount: nat,
    retryPending: bool)

  /** State on the first render: no orders, loading, no error. */
  function Initial(): Orders {
    Orders([], true, None, 0, false)
  }

  /** The order items for a list of cart lines, one per line and in the same order. */
  function FreezeLines(lines: seq<CartItem>): (r: seq<OrderItem>)
    ensures |r| == |lines|
    ensures forall i :: 0 <= i < |lines| ==>
      && r[i].id == lines[i].item.id
      && r[i].name == lines[i].item.name
      && r[i].size == lines[i].size
      && r[i].quantity == lines[i].quantity
      && r[i].price == lines[i].item.price.Get(lines[i].size)
  {
    if lines == [] then []
    else
      var l := lines[0];
      [OrderItem(l.item.id, l.item.name, l.size, l.quantity, l.item.price.Get(l.size))] + FreezeLines(lines[1..])
  }

  /**
    `addOrder`: builds the order from the cart lines, the caller's address
    and total (the total is stored, not computed) and the injected id and
    time, puts it in front of the existing orders and returns it.
   */
  function AddOrder(st: Orders, address: string, lines: seq<CartItem>, total: int, newId: string, now: int): (r: (Orders, Order))
    ensures r.0.orders == [r.1] + st.orders
    ensures r.0 == st.(orders := r.0.orders)
    ensures r.1.id == newId && r.1.address == address && r.1.total == total && r.1.timestamp == now
    ensures r.1.items == FreezeLines(lines)
  {
    var order := Order(newId, address, total, FreezeLines(lines), now);
    (st.(orders := [order] + st.orders), order)
  }

  function IdIs(id: string): Order -> bool {
    (o: Order) => o.id == id
  }

  /** `getOrder`: the first order with this id, or none. */
  function GetOrder(orders: seq<Order>, id: string): (r: Option<Order>)
    ensures r.None? <==> forall i :: 0 <= i < |orders| ==> orders[i].id != id
    ensures r.Some? ==> r.value.id == id
    ensures r.Some? ==> exists i :: 0 <= i < |orders| && orders[i] == r.value && forall j :: 0 <= j < i ==> orders[j].id != id
  {
    var found := Find(orders, IdIs(id));
    if found.Some? then
      var i := FirstIndex(orders, IdIs(id)).value;
      assert orders[i] == found.value && forall j :: 0 <= j < i ==> !IdIs(id)(orders[j]);
      found
    else
      found
  }

  /** Looking up the id of an order just added finds that order. */
  lemma {:induction false} GetAfterAdd(st: Orders, address: string, lines: seq<CartItem>, total: int, newId: string, now: int)
    ensures var r := AddOrder(st, address, lines, total, newId, now);
      GetOrder(r.0.orders, newId) == Some(r.1)
  {
    var r := AddOrder(st, address, lines, total, newId, now);
    assert IdIs(newId)(r.0.orders[0]);
  }

  /** Adding an order does not change what other ids look up to. */
  lemma {:induction false} GetOtherAfterAdd(st: Orders, address: string, lines: seq<CartItem>, total: int, newId: string, now: int, id: string)
    requires id != newId
    ensures GetOrder(AddOrder(st, address, lines, total, newId, now).0.orders, id) == GetOrder(st.orders, id)
  {
    var os := AddOrder(st, address, lines, total, newId, now).0.orders;
    assert !IdIs(id)(os[0]);
    assert os[1..] == st.orders;
  }

  // ---------------------------------------------------------------------
  // Loading, retrying and write-through

  /** The message `loadOrders` records when it cannot reach storage. */
  function LoadError(b: Backend<Order>): string
    requires !Readable(b)
  {
    match b
    case ServerSide => "Not running on client side"
    case NoLocalStorage => "localStorage is not available"
    case Denied(thrown) => thrown.GetOr("Failed to load orders")
  }

  /**
    `loadOrders`. With storage reachable it ends not loading and without
    error: a stored list replaces the orders, a stored value that does not
    parse or is not a list empties them, and no stored value leaves them.
    With storage unreachable it ends not loading, with an error, and the
    orders untouched.
   */
  function LoadOrders(st: Orders, b: Backend<Order>): (r: Orders)
    ensures !r.isLoading
    ensures r.retryCount == st.retryCount && r.retryPending == st.retryPending
    ensures r.error.None? <==> Readable(b)
    ensures !Readable(b) ==> r.error == Some(LoadError(b))
    ensures Readable(b) && b.slot.Json? ==> r.orders == b.slot.entries
    ensures Readable(b) && (b.slot.Garbage? || b.slot.Scalar?) ==> r.orders == []
    ensures !(Readable(b) && Present(b.slot)) ==> r.orders == st.orders
  {
    if Readable(b) then
      var orders :=
        match b.slot
        case Missing => st.orders
        case Blank => st.orders
        case Garbage => []
        case Scalar => []
        case Json(xs) => xs;
      st.(orders := orders, isLoading := false, error := None)
    else
      st.(isLoading := false, error := Some(LoadError(b)))
  }

  /** `retry`: bumps the counter, which (being above 0) schedules one load. */
  function Retry(st: Orders): (r: Orders)
    ensures r.retryCount == st.retryCount + 1 && r.retryCount > 0
    ensures r.retryPending
    ensures r.(retryCount := st.retryCount, retryPending := st.retryPending) == st
  {
    st.(retryCount := st.retryCount + 1, retryPending := true)
  }

  /** The scheduled retry timer fires: a pending load runs, otherwise nothing happens. */
  function Tick(st: Orders, b: Backend<Order>): (r: Orders)
    ensures !r.retryPending
    ensures !st.retryPending ==> r == st
    ensures st.retryPending ==> r == LoadOrders(st.(retryPending := false), b)
  {
    if st.retryPending then LoadOrders(st.(retryPending := false), b) else st
  }

  /**
    The write-through effect: nothing is written while a load is in
    progress, and a write that throws is caught and leaves storage as it was.
   */
  function Persist(st: Orders, b: Backend<Order>): (r: Backend<Order>)
    ensures st.isLoading ==> r == b
    ensures !st.isLoading && b.Local? ==> r == Local(Json(st.orders))
    ensures !b.Local? ==> r == b
  {
    if !st.isLoading then Write(b, st.orders) else b
  }

  /** The initial load followed by the write it triggers. */
  function Mount(b: Backend<Order>): (r: (Orders, Backend<Order>))
    ensures !r.0.isLoading
    ensures Readable(b) ==> r.0.error.None?
    ensures !Readable(b) ==> r.0.error.Some? && r.0.orders == []
    ensures b.Local? ==> r.1 == Local(Json(r.0.orders))
    ensures !b.Local? ==> r.1 == b
  {
    var st := LoadOrders(Initial(), b);
    (st, Persist(st, b))
  }

  /** A corrupt stored value loads as no orders, without error, and is then overwritten by an empty list. */
  lemma CorruptStoreIsOverwritten()
    ensures var m := Mount(Local(Garbage));
      m.0.orders == [] && m.0.error.None? && m.1 == Local(Json([]))
  {
  }

  /** Loading twice from the same storage is loading once. */
  lemma {:induction false} LoadIdempotent(st: Orders, b: Backend<Order>)
    ensures LoadOrders(LoadOrders(st, b), b) == LoadOrders(st, b)
  {
  }

  /** Round trip: what the write-through stores, any later load reads back. */
  lemma {:induction false} PersistThenLoad(st: Orders, other: Orders, b: Backend<Order>)
    requires !st.isLoading && b.Local?
    ensures LoadOrders(other, Persist(st, b)).orders == st.orders
    ensures LoadOrders(other, Persist(st, b)).error.None?
  {
  }

  /**
    Retrying twice before the timer fires runs one load: the second retry
    replaces the first timer.
   */
  lemma {:induction false} DoubleRetryLoadsOnce(st: Orders, b: Backend<Order>)
    ensures Tick(Tick(Retry(Retry(st)), b), b) == Tick(Retry(Retry(st)), b)
    ensures Tick(Retry(Retry(st)), b).retryCount == st.retryCount + 2
  {
  }

  /** After a failed load, a retry against readable storage clears the error. */
  lemma {:induction false} RetryRecovers(st: Orders, b: Backend<Order>)
    requires Readable(b)
    ensures Tick(Retry(st), b).error.None?
    ensures !Tick(Retry(st), b).isLoading
  {
  }

  /** The arguments of one `addOrder` call, with the id and time it is given. */
  datatype Placement = Placement(address: string, lines: seq<CartItem>, total: int, newId: string, now: int)

  /** A sequence of `addOrder` calls, each followed by the write-through effect. */
  function PlaceAll(st: Orders, b: Backend<Order>, ps: seq<Placement>): (Orders, Backend<Order>)
    decreases |ps|
  {
    if ps == [] then (st, b)
    else
      var p := ps[0];
      var st' := AddOrder(st, p.address, p.lines, p.total, p.newId, p.now).0;
      PlaceAll(st', Persist(st', b), ps[1..])
  }

  /** Placing orders keeps every earlier order, behind the new ones. */
  lemma {:induction false} PlaceAllKeepsHistory(st: Orders, b: Backend<Order>, ps: seq<Placement>)
    ensures var r := PlaceAll(st, b, ps).0;
      |r.orders| == |st.orders| + |ps| && r.orders[|ps|..] == st.orders
    ensures PlaceAll(st, b, ps).0.isLoading == st.isLoading
    decreases |ps|
  {
    if ps != [] {
      var p := ps[0];
      var st' := AddOrder(st, p.address, p.lines, p.total, p.newId, p.now).0;
      PlaceAllKeepsHistory(st', Persist(st', b), ps[1..]);
      var r := PlaceAll(st', Persist(st', b), ps[1..]).0;
      assert r.orders[|ps|..] == r.orders[|ps| - 1..][1..];
    }
  }

  /**
    Round trip: after mounting on writable storage and placing any orders,
    a fresh store mounted on the resulting storage loads exactly the
    current orders.
   */
  lemma {:induction false} RemountSeesOrders(b: Backend<Order>, ps: seq<Placement>)
    requires b.Local?
    ensures var r := PlaceAll(Mount(b).0, Mount(b).1, ps);
      Mount(r.1).0.orders == r.0.orders
  {
    StoredFollowsOrders(Mount(b).0, Mount(b).1, ps);
  }

  lemma {:induction false} StoredFollowsOrders(st: Orders, b: Backend<Order>, ps: seq<Placement>)
    requires !st.isLoading && b == Local(Json(st.orders))
    ensures var r := PlaceAll(st, b, ps);
      !r.0.isLoading && r.1 == Local(Json(r.0.orders))
    decreases |ps|
  {
    if ps != [] {
      var p := ps[0];
      var st' := AddOrder(st, p.address, p.lines, p.total, p.newId, p.now).0;
      StoredFollowsOrders(st', Persist(st', b), ps[1..]);
    }
  }

  /** Placing orders never changes storage that does not take writes. */
  lemma {:induction false} UnwritableStaysPut(st: Orders, b: Backend<Order>, ps: seq<Placement>)
    requires !b.Local?
    ensures PlaceAll(st, b, ps).1 == b
    decreases |ps|
  {
    if ps != [] {
      var p := ps[0];
      var st' := AddOrder(st, p.address, p.lines, p.total, p.newId, p.now).0;
      UnwritableStaysPut(st', Persist(st', b), ps[1..]);
    }
  }

  /**
    When reads work but every write throws (and is caught), the orders
    placed in one session are lost: a fresh store mounted afterwards loads
    what the first mount loaded, without error.
   */
  lemma {:induction false} RemountAfterFailedWrites(b: Backend<Order>, ps: seq<Placement>)
    requires b.ReadOnly?
    ensures var r := PlaceAll(Mount(b).0, Mount(b).1, ps);
      r.1 == b && Mount(r.1).0.orders == Mount(b).0.orders && Mount(r.1).0.error.None?
  {
    UnwritableStaysPut(Mount(b).0, Mount(b).1, ps);
  }
}
