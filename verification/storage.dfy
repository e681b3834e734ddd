/**
  Browser local storage, abstracted. A key's content is described by what
  `getItem` followed by `JSON.parse` makes of it; `setItem(key,
  JSON.stringify(xs))` is taken to store a value that parses back to `xs`.
 */
module Storage {
  import opened Wrappers

  /** What one storage key holds. */
  datatype Slot<T> =
    | Missing                 // getItem returns null
    | Blank                   // the empty string, which is falsy
    | Garbage                 // text that JSON.parse rejects
    | Scalar                  // valid JSON that is not an array
    | Json(entries: seq<T>)   // a JSON array of well-shaped records

  /** The environment a store runs in, from the store's point of view. */
  datatype Backend<T> =
    | ServerSide                      // no `window`
    | NoLocalStorage                  // `window.localStorage` is falsy
    | Denied(thrown: Option<string>)  // every access throws; the message if it is an Error
    | Local(slot: Slot<T>)            // reads and writes succeed
    | ReadOnly(slot: Slot<T>)         // reads succeed, `setItem` throws (a full quota, say)

  /** `getItem` works, so the key's content can be read. */
  predicate Readable<T>(b: Backend<T>) {
    b.Local? || b.ReadOnly?
  }

  /** The `if (stored)` test: null and the empty string count as no value. */
  predicate Present<T>(slot: Slot<T>) {
    !slot.Missing? && !slot.Blank?
  }

  /**
    `setItem(key, JSON.stringify(entries))`: only writable storage takes it;
    a write that throws, or cannot be attempted, leaves storage as it was.
   */
  function Write<T>(b: Backend<T>, entries: seq<T>): (r: Backend<T>)
    ensures r.Local? <==> b.Local?
    ensures r.Local? ==> Present(r.slot) && r.slot == Json(entries)
    ensures !b.Local? ==> r == b
  {
    if b.Local? then Local(Json(entries)) else b
  }
}
