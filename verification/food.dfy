/**
  The catalog's data model: the two-valued size, per-size records, food
  items, cart lines and the seed catalog the stores start from. Prices are
  whole cents; they are only ever copied, never computed with.
 */
module Food {

  datatype Size = Medium | Large

  function Other(s: Size): Size {
    match s
    case Medium => Large
    case Large => Medium
  }

  /** A value for each size, like the source's `{ medium, large }` records. */
  datatype PerSize<T> = PerSize(medium: T, large: T) {

    function Get(s: Size): T {
      match s
      case Medium => medium
      case Large => large
    }

    /** The record with the entry for `s` replaced and the other size kept. */
    function With(s: Size, v: T): (r: PerSize<T>)
      ensures r.Get(s) == v
      ensures r.Get(Other(s)) == Get(Other(s))
    {
      match s
      case Medium => this.(medium := v)
      case Large => this.(large := v)
    }
  }

  datatype FoodItem = FoodItem(
    id: string,
    name: string,
    description: string,
    price: PerSize<int>,
    weight: PerSize<string>,
    image: string,
    available: PerSize<int>)

  /** A cart line: a snapshot of the item, the chosen size and a quantity. */
  datatype CartItem = CartItem(item: FoodItem, size: Size, quantity: int)

  /** Cart lines are identified by the pair (item id, size). */
  datatype Key = Key(id: string, size: Size)

  function KeyOf(line: CartItem): Key {
    Key(line.item.id, line.size)
  }

  /** The `item.id === id` test. */
  function HasId(id: string): FoodItem -> bool {
    (f: FoodItem) => f.id == id
  }

  predicate UniqueIds(catalog: seq<FoodItem>) {
    forall i, j :: 0 <= i < j < |catalog| ==> catalog[i].id != catalog[j].id
  }

  predicate StockNonNegative(catalog: seq<FoodItem>) {
    forall i, s :: 0 <= i < |catalog| ==> catalog[i].available.Get(s) >= 0
  }

  /** The address of a catalog photo, all hosted on one image service with the same query. */
  function Unsplash(photo: string): (url: string)
    ensures |url| == |photo| + 67
  {
    "https://images.unsplash.com/photo-" + photo + "?q=80&w=1000&auto=format&fit=crop"
  }

  /** The built-in catalog every store starts from. */
  function SeedCatalog(): seq<FoodItem> {
    [ FoodItem("1", "Classic Burger",
               "Juicy beef patty with fresh vegetables and special sauce",
               PerSize(899, 1299), PerSize("200g", "300g"),
               Unsplash("1568901346375-23c9450c58cd"),
               PerSize(10, 8)),
      FoodItem("2", "Margherita Pizza",
               "Fresh tomatoes, mozzarella, and basil on our signature crust",
               PerSize(1099, 1599), PerSize("400g", "600g"),
               Unsplash("1604382354936-07c5d9983bd3"),
               PerSize(15, 12)),
      FoodItem("3", "Caesar Salad",
               "Crisp romaine lettuce with parmesan and croutons",
               PerSize(799, 1199), PerSize("250g", "400g"),
               Unsplash("1550304943-4f24f54ddde9"),
               PerSize(20, 15)) ]
  }

  /** The seed catalog meets the hypotheses of the cart's conservation theorem. */
  lemma SeedCatalogWellFormed()
    ensures UniqueIds(SeedCatalog())
    ensures StockNonNegative(SeedCatalog())
    ensures |SeedCatalog()| == 3
  {
    var c := SeedCatalog();
    assert c[0].id == "1" && c[1].id == "2" && c[2].id == "3";
    forall i, s | 0 <= i < |c|
      ensures c[i].available.Get(s) >= 0
    {
    }
  }
}
