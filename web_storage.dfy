/**
 * The browser's `localStorage`: a map from string keys to string values,
 * read with `getItem` (null for a missing key) and written with `setItem`.
 */
module WebStorage {
  import opened Wrappers

  /** `getItem(key)` on the entries `items`. */
  function Lookup(items: map<string, string>, key: string): (r: Option<string>)
    ensures r.Some? <==> key in items
    ensures r.Some? ==> r.value == items[key]
  {
    if key in items then Some(items[key]) else None
  }

  class Storage {
    var items: map<string, string>

    constructor (items: map<string, string>)
      ensures this.items == items
    {
      this.items := items;
    }

    /** `storage.getItem(key)`: the stored text, or null when the key was never set. */
    method GetItem(key: string) returns (value: Option<string>)
      ensures value.Some? <==> key in items
      ensures value.Some? ==> value.value == items[key]
    {
      value := Lookup(items, key);
    }

    /** `storage.setItem(key, value)`: that key now holds `value`, no other entry changes. */
    method SetItem(key: string, value: string)
      modifies this
      ensures items == old(items)[key := value]
    {
      items := items[key := value];
    }
  }

}
