/** The device-local key-value store (`localStorage`) the client keeps its reading in. */
module Storage {
  import opened Wrappers

  /** In JavaScript a stored value is used only when it is truthy: `null` (no item) and the empty
      string both count as missing. */
  predicate Truthy(v: Option<string>) {
    v.Some? && v.value != ""
  }

  /** A table from keys to text values, changed in place by `setItem` and `removeItem`. */
  class LocalStorage {
    var items: map<string, string>

    constructor (initial: map<string, string>)
      ensures items == initial
    {
      items := initial;
    }

    /** `getItem(key)`: the stored text, or `null` (here `None`). */
    function GetItem(key: string): Option<string>
      reads this
    {
      Lookup(items, key)
    }

    /** `setItem(key, value)`. */
    method SetItem(key: string, value: string)
      modifies this
      ensures items == old(items)[key := value]
    {
      items := items[key := value];
    }

    /** `removeItem(key)`: removes the key if present, and does nothing otherwise. */
    method RemoveItem(key: string)
      modifies this
      ensures items == old(items) - {key}
    {
      items := items - {key};
    }
  }

  /** Looking a key up in a table the way `getItem` does. */
  function Lookup(items: map<string, string>, key: string): Option<string> {
    if key in items then Some(items[key]) else None
  }
}
