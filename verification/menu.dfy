/**
  The menu store: the catalog as an ordered list, append / replace-by-id /
  filter-by-id edits, a one-time hydration from local storage and a
  write-through of the whole list once hydration is over.
 */
module Menu {
  import opened Seqs
  import opened Food
  import opened Storage

  datatype Menu = Menu(foodItems: seq<FoodItem>, isInitialized: bool)

  /** State before hydration: the seed catalog, not yet initialized. */
  function Initial(): Menu {
    Menu(SeedCatalog(), false)
  }

  function IdIsNot(id: string): FoodItem -> bool {
    (f: FoodItem) => f.id != id
  }

  function Replace(u: FoodItem): FoodItem -> FoodItem {
    (f: FoodItem) => u
  }

  /** `addFoodItem`: the item goes at the end; ids are not checked. */
  function AddFoodItem(items: seq<FoodItem>, item: FoodItem): (r: seq<FoodItem>)
    ensures |r| == |items| + 1
    ensures r[..|items|] == items
    ensures r[|items|] == item
  {
    items + [item]
  }

  /** `updateFoodItem`: every entry with this id becomes `u`; nothing else moves. */
  function UpdateFoodItem(items: seq<FoodItem>, id: string, u: FoodItem): (r: seq<FoodItem>)
    ensures |r| == |items|
    ensures forall i :: 0 <= i < |items| && items[i].id == id ==> r[i] == u
    ensures forall i :: 0 <= i < |items| && items[i].id != id ==> r[i] == items[i]
    ensures (forall i :: 0 <= i < |items| ==> items[i].id != id) ==> r == items
  {
    MapWhere(items, HasId(id), Replace(u))
  }

  /** `deleteFoodItem`: no entry with this id is left, and the others keep their order. */
  function DeleteFoodItem(items: seq<FoodItem>, id: string): (r: seq<FoodItem>)
    ensures forall i :: 0 <= i < |r| ==> r[i].id != id
    ensures forall i :: 0 <= i < |items| && items[i].id != id ==> items[i] in r
    ensures forall i :: 0 <= i < |r| ==> r[i] in items
    ensures (forall i :: 0 <= i < |items| ==> items[i].id != id) ==> r == items
  {
    DeleteAbsent(items, id);
    Filter(items, IdIsNot(id))
  }

  lemma {:induction false} DeleteAbsent(items: seq<FoodItem>, id: string)
    ensures (forall i :: 0 <= i < |items| ==> items[i].id != id) ==> Filter(items, IdIsNot(id)) == items
  {
    if forall i :: 0 <= i < |items| ==> items[i].id != id {
      FilterKeepsAll(items, IdIsNot(id));
    }
  }

  /** Deleting distributes over concatenation: relative order is kept. */
  lemma {:induction false} DeleteKeepsOrder(xs: seq<FoodItem>, ys: seq<FoodItem>, id: string)
    ensures DeleteFoodItem(xs + ys, id) == DeleteFoodItem(xs, id) + DeleteFoodItem(ys, id)
  {
    FilterAppend(xs, ys, IdIsNot(id));
  }

  /** Deleting the same id twice is deleting it once. */
  lemma {:induction false} DeleteIdempotent(items: seq<FoodItem>, id: string)
    ensures DeleteFoodItem(DeleteFoodItem(items, id), id) == DeleteFoodItem(items, id)
  {
  }

  /** Adding an item and then deleting its id is deleting the id from the original list. */
  lemma {:induction false} DeleteUndoesAdd(items: seq<FoodItem>, item: FoodItem)
    ensures DeleteFoodItem(AddFoodItem(items, item), item.id) == DeleteFoodItem(items, item.id)
  {
    DeleteKeepsOrder(items, [item], item.id);
    assert DeleteFoodItem([item], item.id) == [];
  }

  /** Updating twice with the same value is updating once. */
  lemma {:induction false} UpdateIdempotent(items: seq<FoodItem>, id: string, u: FoodItem)
    ensures UpdateFoodItem(UpdateFoodItem(items, id, u), id, u) == UpdateFoodItem(items, id, u)
  {
  }

  /** An update does not change which entries a delete of the same id removes. */
  lemma {:induction false} DeleteAfterUpdate(items: seq<FoodItem>, id: string, u: FoodItem)
    requires u.id == id
    ensures DeleteFoodItem(UpdateFoodItem(items, id, u), id) == DeleteFoodItem(items, id)
    decreases |items|
  {
    if items != [] {
      var r := UpdateFoodItem(items, id, u);
      assert r[1..] == UpdateFoodItem(items[1..], id, u);
      DeleteAfterUpdate(items[1..], id, u);
    }
  }

  // ---------------------------------------------------------------------
  // Hydration and write-through

  /** No parsed value can be something other than a list of items. */
  predicate Loadable(b: Backend<FoodItem>) {
    !(Readable(b) && b.slot.Scalar?)
  }

  /**
    The mount effect: a stored list replaces the items; no stored value, a
    storage error or an unparsable value leave them as they are; in every
    case the store ends initialized.
   */
  function Hydrate(m: Menu, b: Backend<FoodItem>): (r: Menu)
    requires Loadable(b)
    ensures r.isInitialized
    ensures Readable(b) && b.slot.Json? ==> r.foodItems == b.slot.entries
    ensures !(Readable(b) && b.slot.Json?) ==> r.foodItems == m.foodItems
  {
    if Readable(b) && b.slot.Json? then Menu(b.slot.entries, true)
    else m.(isInitialized := true)
  }

  /**
    The write-through effect: once initialized the whole list is written;
    storage that does not take the write keeps what it held.
   */
  function Persist(m: Menu, b: Backend<FoodItem>): (r: Backend<FoodItem>)
    ensures !m.isInitialized ==> r == b
    ensures m.isInitialized && b.Local? ==> r == Local(Json(m.foodItems))
    ensures !b.Local? ==> r == b
  {
    if m.isInitialized then Write(b, m.foodItems) else b
  }

  /** The menu edits. */
  datatype MenuOp = AddItem(item: FoodItem) | UpdateItem(id: string, u: FoodItem) | DeleteItem(id: string)

  function Edit(items: seq<FoodItem>, op: MenuOp): seq<FoodItem> {
    match op
    case AddItem(item) => AddFoodItem(items, item)
    case UpdateItem(id, u) => UpdateFoodItem(items, id, u)
    case DeleteItem(id) => DeleteFoodItem(items, id)
  }

  /** An edit followed by the effect that mirrors it to storage. */
  function Step(m: Menu, b: Backend<FoodItem>, op: MenuOp): (r: (Menu, Backend<FoodItem>))
    ensures r.0.isInitialized == m.isInitialized
    ensures !m.isInitialized ==> r.1 == b
    ensures m.isInitialized && b.Local? ==> r.1 == Local(Json(r.0.foodItems))
  {
    var m' := m.(foodItems := Edit(m.foodItems, op));
    (m', Persist(m', b))
  }

  /**
    Mounting: hydration runs, the first render's write effect sees an
    uninitialized store and writes nothing, and the write after hydration
    stores the hydrated list.
   */
  function Mount(b: Backend<FoodItem>): (r: (Menu, Backend<FoodItem>))
    requires Loadable(b)
    ensures r.0.isInitialized
    ensures Readable(b) && b.slot.Json? ==> r.0.foodItems == b.slot.entries
    ensures !(Readable(b) && b.slot.Json?) ==> r.0.foodItems == Initial().foodItems
    ensures b.Local? ==> r.1 == Local(Json(r.0.foodItems))
    ensures !b.Local? ==> r.1 == b
  {
    var m := Hydrate(Initial(), b);
    (m, Persist(m, b))
  }

  /**
    Nothing is written before hydration: any edits made before the store is
    initialized leave storage as it was.
   */
  lemma {:induction false} NoWriteBeforeInit(m: Menu, b: Backend<FoodItem>, ops: seq<MenuOp>)
    requires !m.isInitialized
    ensures RunEdits(m, b, ops).1 == b
    ensures !RunEdits(m, b, ops).0.isInitialized
    decreases |ops|
  {
    if ops != [] {
      var r := Step(m, b, ops[0]);
      NoWriteBeforeInit(r.0, r.1, ops[1..]);
    }
  }

  function RunEdits(m: Menu, b: Backend<FoodItem>, ops: seq<MenuOp>): (Menu, Backend<FoodItem>)
    decreases |ops|
  {
    if ops == [] then (m, b)
    else
      var r := Step(m, b, ops[0]);
      RunEdits(r.0, r.1, ops[1..])
  }

  /**
    Round trip: after mounting on writable storage and any edits, a fresh
    store mounted on the resulting storage sees exactly the current list.
   */
  lemma {:induction false} RemountSeesLatest(b: Backend<FoodItem>, ops: seq<MenuOp>)
    requires b.Local? && Loadable(b)
    ensures var r := RunEdits(Mount(b).0, Mount(b).1, ops);
      Loadable(r.1) && Mount(r.1).0 == r.0
  {
    var m := Mount(b);
    StoredFollowsEdits(m.0, m.1, ops);
  }

  lemma {:induction false} StoredFollowsEdits(m: Menu, b: Backend<FoodItem>, ops: seq<MenuOp>)
    requires m.isInitialized && b == Local(Json(m.foodItems))
    ensures var r := RunEdits(m, b, ops);
      r.0.isInitialized && r.1 == Local(Json(r.0.foodItems))
    decreases |ops|
  {
    if ops != [] {
      var r := Step(m, b, ops[0]);
      StoredFollowsEdits(r.0, r.1, ops[1..]);
    }
  }

  /** Edits never change storage that does not take writes. */
  lemma {:induction false} UnwritableStaysPut(m: Menu, b: Backend<FoodItem>, ops: seq<MenuOp>)
    requires !b.Local?
    ensures RunEdits(m, b, ops).1 == b
    decreases |ops|
  {
    if ops != [] {
      var r := Step(m, b, ops[0]);
      UnwritableStaysPut(r.0, r.1, ops[1..]);
    }
  }

  /**
    When reads work but every write throws, the edits of one session are
    lost: a fresh store mounted afterwards sees what the first mount saw.
   */
  lemma {:induction false} RemountAfterFailedWrites(b: Backend<FoodItem>, ops: seq<MenuOp>)
    requires b.ReadOnly? && Loadable(b)
    ensures var r := RunEdits(Mount(b).0, Mount(b).1, ops);
      r.1 == b && Mount(r.1).0 == Mount(b).0
  {
    UnwritableStaysPut(Mount(b).0, Mount(b).1, ops);
  }
}
