/** The key-value cache that src/applications.ts uses through `get`, `has`
    and `set`. Expiry (TTL) and the SQLite backing store are not modelled. */
module KeyValue {
  import opened Wrappers
  import opened Records
  import opened Keys

  /** The typing the source's casts rely on: list-family keys hold raw
      application lists, and only they do. */
  ghost predicate WellTyped(store: map<string, Value>) {
    forall k :: k in store ==> (store[k].AppList? <==> IsListKey(k))
  }

  /** A value may be stored under a key when it keeps the store well typed. */
  predicate Fits(key: string, v: Value) {
    v.AppList? <==> IsListKey(key)
  }

  class Cache {
    var store: map<string, Value>

    ghost predicate Valid()
      reads this
    {
      WellTyped(store)
    }

    constructor ()
      ensures Valid() && store == map[]
    {
      store := map[];
    }

    /** `cache.get(key)`: the stored value, or None (`undefined`) when the
        key is absent. */
    function Get(key: string): (r: Option<Value>)
      reads this
      ensures r.Some? <==> key in store
      ensures r.Some? ==> r.value == store[key]
      ensures Valid() && r.Some? ==> (r.value.AppList? <==> IsListKey(key))
    {
      if key in store then Some(store[key]) else None
    }

    /** `cache.has(key)`: the key is present, whatever its value (a stored
        `null` counts as present). */
    function Has(key: string): (b: bool)
      reads this
      ensures b <==> Get(key).Some?
    {
      key in store
    }

    /** `cache.set(key, v, ttl)`: overwrites the entry for `key`, and only it. */
    method Set(key: string, v: Value)
      requires Valid() && Fits(key, v)
      modifies this
      ensures Valid()
      ensures store == old(store)[key := v]
      ensures Get(key) == Some(v)
      ensures forall k :: k != key ==> Get(k) == old(Get(k))
    {
      store := store[key := v];
    }
  }
}
