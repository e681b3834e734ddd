# ipe-food client stores in Dafny

A model of the three client-side state stores of the ipe-food storefront
(a React/Next.js app with a menu, a cart and an order list kept in browser
local storage), with proofs of what they guarantee.

- **Cart store** (`context/cart-context.tsx`): an ordered list of cart
  lines keyed by (item id, size), plus a copy of the catalog whose
  per-size `available` counters move opposite to cart quantities and are
  floored at 0. Modules `Cart` (operations) and `CartConservation`
  (the stock conservation theorem and scenarios).
- **Menu store** (`context/menu-context.tsx`): append, replace-by-id and
  delete-by-id on the catalog, a one-time hydration from storage and a
  write-through gated on `isInitialized`. Module `Menu`.
- **Orders store** (`context/orders-context.tsx`): `addOrder` freezes cart
  lines into order items and prepends the order, `getOrder` is a
  first-match lookup, `loadOrders`/`retry` form a loading/error state
  machine and the write-through is held back while loading. Module `Orders`.

Supporting modules: `Food` (sizes, items, cart lines, the seed catalog of
`data/food-items.ts`), `Storage` (local storage seen as a slot whose
content is null, empty, unparsable, a non-array or an array, in an
environment that may lack `window` or `localStorage`, throw on every
access, or allow reads while every `setItem` throws, as a full quota does),
`Seqs` (first-match search, filter and conditional rewrite, written once
and used by all three stores), `Wrappers` (`Option`).

Each store is explicit state passed through pure functions; each call acts
on the latest committed state. Ids and timestamps are parameters. Prices
and totals are whole cents and are only copied.

The model follows the code where it differs from a tidier description of
such a store:
- `updateQuantity` with a quantity of 0 or less keeps the line (with that
  quantity) instead of removing it.
- `addToCart` makes no stock check; the menu page tests `available > 0`
  before calling it (`app/page.tsx:25-32`). Conservation is proved under
  that test, and `CartConservation.UnguardedAddBreaksConservation` shows
  it fails without it.
- `addOrder` stores the caller's `total`; it does not compute it.
- Orders have no status field and there is no status toggle.
- A stored orders value that does not parse, or is not an array, loads as
  no orders and sets **no** error; only unreachable storage sets an error.
- A second `retry` before the first timer fires replaces that timer (the
  effect's cleanup clears it), so two quick retries run one load.
- When storage can be read but `setItem` throws, the orders store catches
  the error and the stored value stays as it was, so orders placed in that
  session are gone after a remount; the menu store does not catch it.

## Model

| member | source | states |
|---|---|---|
| Cart.UpdateAvailable | context/cart-context.tsx:23-36 | only entries with the id change, and only their counter for the given size, which becomes max(0, old - q); the other size, other fields and other entries are unchanged; non-negative stock stays non-negative |
| Cart.BumpLines | context/cart-context.tsx:44-50 | the lines with the key are raised by 1 in place, every other line is unchanged, the count of lines is kept and keys stay unique |
| Cart.DropLines | context/cart-context.tsx:69 | no kept line has the key, every line without the key is kept, nothing new appears, keys stay unique, and without such a line the list is unchanged |
| Cart.DropLinesKeepsOrder | context/cart-context.tsx:69 | dropping the key's lines from two concatenated lists is the concatenation of dropping from each, so the kept lines keep their order |
| Cart.SetLines | context/cart-context.tsx:82-88 | the lines with the key get the new quantity in place, every other line is unchanged, keys stay unique, and without such a line the list is unchanged |
| Cart.ShownStock | app/page.tsx:25 | the stock the page tests is the first catalog entry with the id's counter for the size, or 0 when no entry has the id |
| Cart.AddToCart | context/cart-context.tsx:38-57 | a repeat (id, size) bumps that line by 1 in place with the line count and every other line unchanged; otherwise a line of quantity 1 is appended at the end; the counter drops by 1 floored at 0; unique keys and non-negative stock are kept |
| Cart.RemoveFromCart | context/cart-context.tsx:59-70 | every line with the key is gone and the rest are kept in order; with a line, its quantity goes back to the counter; without one, nothing changes |
| Cart.UpdateQuantity | context/cart-context.tsx:72-89 | line count unchanged; matching lines get quantity q even when q <= 0; counter becomes max(0, avail - (q - oldQ)); with no matching line the whole cart is unchanged |
| Cart.ClearCart | context/cart-context.tsx:91-97 | the cart is emptied, only stock counters change, an empty cart is left unchanged and counters stay non-negative |
| Cart.ClearCartReturnsQuantities | context/cart-context.tsx:91-97 | with one line per key, every counter gets back exactly the cart's quantity for its (id, size) |
| Cart.ClearCartIdempotent | context/cart-context.tsx:91-97 | clearing twice equals clearing once; clearing an empty cart leaves availability unchanged |
| Cart.QtyFound | context/cart-context.tsx:60-66 | with one line per key, the quantity `find` returns is the whole cart quantity for that key, so removal returns all of it |
| Cart.RestoreAllReturnsQuantities | context/cart-context.tsx:93-95 | the per-line restores of clearCart, applied one after another, add each key's quantity to its counter without loss when no floor is hit |
| CartConservation.AddConserves | context/cart-context.tsx:38-57 | an add that passes the page's stock test keeps counter + cart quantity equal to the original stock for every entry and size |
| CartConservation.RemoveConserves | context/cart-context.tsx:59-70 | a removal keeps counter + cart quantity equal to the original stock |
| CartConservation.SetQuantityConserves | context/cart-context.tsx:72-89 | a quantity change that does not exceed the shown stock keeps counter + cart quantity equal to the original stock |
| CartConservation.ClearConserves | context/cart-context.tsx:91-97 | clearing keeps counter + cart quantity equal to the original stock, i.e. restores the original counters |
| CartConservation.RunConserves | context/cart-context.tsx:23-97 | from an empty cart, after any guarded sequence of add, remove, quantity change and clear, every counter plus its (id, size) cart quantity equals the seed stock |
| CartConservation.UnguardedAddBreaksConservation | context/cart-context.tsx:38-57 | without the caller's stock test, adding an out-of-stock item breaks conservation (the counter is floored at 0 while the cart grows) |
| CartConservation.UnguardedSetQuantityBreaksConservation | context/cart-context.tsx:72-89 | `updateQuantity` makes no stock check: after a guarded add, raising the line past the stock shown floors the counter at 0 and breaks conservation |
| CartConservation.AddTwiceMerges | context/cart-context.tsx:39-53 | adding the same (id, size) twice yields one line of quantity 2, not two lines |
| CartConservation.AddThreeThenRemove | context/cart-context.tsx:38-70 | three adds give one line of quantity 3 and a counter 3 lower; removing it restores the catalog and empties the cart |
| CartConservation.SeedBurgerScenario | data/food-items.ts:4-21 | item "1" medium (stock 10): three adds give quantity 3 and counter 7; removal restores 10 |
| Food.SeedCatalogWellFormed | data/food-items.ts:3-57 | the seed catalog has unique ids and non-negative stock, as the conservation theorem needs |
| Menu.AddFoodItem | context/menu-context.tsx:41-43 | the item is appended: length grows by 1 and the old list is the prefix |
| Menu.UpdateFoodItem | context/menu-context.tsx:45-49 | length kept; exactly the entries with the id become the new item; the list is unchanged when no id matches |
| Menu.DeleteFoodItem | context/menu-context.tsx:51-55 | no entry with the id remains, every other entry remains, nothing new appears; unchanged when no id matches |
| Menu.DeleteKeepsOrder | context/menu-context.tsx:51-55 | delete distributes over concatenation, so the kept entries stay in their original order |
| Menu.DeleteIdempotent | context/menu-context.tsx:51-55 | deleting an id twice equals deleting it once |
| Menu.DeleteUndoesAdd | context/menu-context.tsx:41-55 | adding an item then deleting its id equals deleting that id from the original list |
| Menu.UpdateIdempotent | context/menu-context.tsx:45-49 | updating twice with the same item equals updating once |
| Menu.DeleteAfterUpdate | context/menu-context.tsx:45-55 | when the new item keeps the id, deleting that id after the update equals deleting it from the original list |
| Menu.Hydrate | context/menu-context.tsx:22-33 | a stored list that can be read replaces the items; no value, an unparsable value or a storage error keeps them; the store is initialized on every path |
| Menu.Persist | context/menu-context.tsx:35-39 | nothing is written while not initialized; once initialized writable storage gets the whole list, and storage whose `setItem` throws or is unreachable keeps what it held |
| Menu.Step | context/menu-context.tsx:35-55 | after an edit on an initialized store, writable storage holds exactly the edited list; before initialization storage is untouched |
| Menu.Mount | context/menu-context.tsx:19-39 | the store starts from the seed and ends initialized with the stored list when one can be read, else the seed; writable storage then holds that list, any other storage keeps what it held |
| Menu.NoWriteBeforeInit | context/menu-context.tsx:35-39 | any number of edits before initialization write nothing to storage |
| Menu.RemountSeesLatest | context/menu-context.tsx:22-39 | on writable storage, after mounting and any edits, a fresh store mounted on the same storage hydrates to exactly the current list |
| Menu.RemountAfterFailedWrites | context/menu-context.tsx:22-39 | when reads work but every `setItem` throws, storage never changes and a fresh mount after any edits sees what the first mount saw |
| Orders.FreezeLines | context/orders-context.tsx:94-100 | one order item per cart line, in order, copying id, name, size and quantity, with price = the line's price at its size |
| Orders.AddOrder | context/orders-context.tsx:92-116 | the new order is put in front of the old orders, which follow unchanged; address and total are stored as passed, id and time are the injected ones; the returned order is the one prepended; nothing else changes |
| Orders.GetOrder | context/orders-context.tsx:118-120 | none exactly when no order has the id; otherwise the first order with that id |
| Orders.GetAfterAdd | context/orders-context.tsx:110-120 | looking up the id of the order just added returns that order |
| Orders.GetOtherAfterAdd | context/orders-context.tsx:110-120 | adding an order does not change the lookup of any other id |
| Orders.LoadOrders | context/orders-context.tsx:27-60 | ends not loading; no error exactly when storage can be read; a stored array replaces the orders, a non-array or unparsable value gives none, no value keeps them; unreachable storage keeps them and sets the error message of its case |
| Orders.LoadIdempotent | context/orders-context.tsx:27-60 | loading twice from the same storage equals loading once |
| Orders.Retry | context/orders-context.tsx:77-79 | the retry counter goes up by 1, so it is above 0 and a load is scheduled; nothing else changes |
| Orders.Tick | context/orders-context.tsx:68-75 | a scheduled load runs once when the timer fires; with nothing scheduled the state is unchanged |
| Orders.DoubleRetryLoadsOnce | context/orders-context.tsx:68-79 | two retries before the timer fires cause one load; the counter still counts both |
| Orders.RetryRecovers | context/orders-context.tsx:68-79 | a retry against readable storage ends not loading and with no error |
| Orders.Persist | context/orders-context.tsx:82-90 | nothing is written while loading; otherwise writable storage gets the whole order list, and storage that is unreachable or whose `setItem` throws (the error is caught) keeps what it held |
| Orders.Mount | context/orders-context.tsx:63-65 | the initial load ends not loading; with readable storage it has no error, and writable storage then holds the loaded orders; otherwise it has an error and no orders; storage that does not take writes is untouched |
| Orders.CorruptStoreIsOverwritten | context/orders-context.tsx:44-52 | an unparsable stored value loads as no orders with no error, and the following write replaces it with an empty list |
| Orders.PersistThenLoad | context/orders-context.tsx:82-90 | on writable storage, what the write-through stores a later load reads back unchanged and without error |
| Orders.PlaceAllKeepsHistory | context/orders-context.tsx:110 | placing orders keeps every earlier order, in order, behind the new ones |
| Orders.RemountSeesOrders | context/orders-context.tsx:82-90 | on writable storage, after mounting and placing any orders, a fresh store mounted on the same storage loads exactly the current orders |
| Orders.RemountAfterFailedWrites | context/orders-context.tsx:82-90 | when reads work but every `setItem` throws, the caught failures leave storage unchanged, so a fresh mount after placing any orders loads what the first mount loaded, without error |

## Left out

- React rendering, providers, hooks and the `useCart`/`useMenu`/`useOrders` guards: plumbing; each store is explicit state.
- Stale closures and batched `setState`: every call is taken to act on the latest committed state. Two `addToCart` calls from one closure would see the same `items` in the source; the model does not capture that.
- `localStorage`, `JSON.stringify` and `JSON.parse` are an abstract slot. A written list is assumed to parse back to itself, and parsed arrays are assumed to hold well-shaped records.
- Logging through `console.error` has no observable effect on the stores and is dropped.
- `uuidv4()`, `Date.now()` and `Math.random()` are parameters; the 1-second delay of the retry timer is dropped (`Orders.Tick` is the timer firing).
- Floating-point prices and `toFixed` formatting: prices and totals are integer cents and are only copied. Quantities and counters are integers; fractional JavaScript numbers are not modelled.
- Menu.Hydrate: requires that a parsed stored value is an array; in the source a parsed non-array is installed as the item list, which a list of items cannot represent.
- Menu.Mount: carries the same requirement as `Menu.Hydrate`, for the same reason.
- Menu.RemountSeesLatest: carries the same requirement as `Menu.Hydrate`, for the same reason.
- Menu.RemountAfterFailedWrites: carries the same requirement as `Menu.Hydrate`, for the same reason.
- Menu.Persist: the menu's write effect has no try/catch, so a `setItem` that throws (storage that is read-only or unreachable) escapes the effect as an uncaught error; the model records only that storage keeps what it held, not the escaping error.
- Orders.Persist: where reading `window.localStorage` itself throws (`Denied`), the guard at `context/orders-context.tsx:83` throws outside the `try`, so the error escapes the effect; the model records only that storage is untouched, not the escaping error.
- CartConservation.RunConserves: quantity changes are assumed not to raise a line by more than the stock shown; neither `updateQuantity` nor any caller checks this, and without it the floor at 0 breaks conservation, as `CartConservation.UnguardedSetQuantityBreaksConservation` shows.
- The `try`/`catch`/rethrow around `addOrder`: nothing in the modelled body can fail.
- The cart's catalog copy starts from the seed catalog, not from the menu store's list, exactly as in the source; the two stores are not connected.
- UI-only files (`app/page.tsx` apart from its stock test, the admin pages, the image upload, layouts and the checkout page) are not part of this model.
