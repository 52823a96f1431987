/** The key/value record a session owns (the `db` of the session package). */
module Record {
  import opened Wrappers

  /** A record maps each key to the last value stored under it. */
  datatype Db<V> = Db(entries: map<string, V>) {

    /** The value under `key`, or None (the Go code returns `nil`). */
    function Get(key: string): Option<V>
    {
      if key in entries then Some(entries[key]) else None
    }

    /** The number of keys held. */
    function Len(): nat
    {
      |entries|
    }

    /** Inserts or overwrites `key`; every other key keeps its value. */
    function Set(key: string, val: V): (d: Db<V>)
      ensures d.Get(key) == Some(val)
      ensures forall k :: k != key ==> d.Get(k) == Get(k)
      ensures d.Len() == if key in entries then Len() else Len() + 1
    {
      Db(entries[key := val])
    }

    /** Removes `key` if present (a no-op otherwise); every other key keeps its value. */
    function Delete(key: string): (d: Db<V>)
      ensures d.Get(key) == None
      ensures forall k :: k != key ==> d.Get(k) == Get(k)
      ensures d.Len() == if key in entries then Len() - 1 else Len()
    {
      var m := entries - {key};
      assert key in entries ==> entries.Keys == m.Keys + {key};
      Db(m)
    }

    /** Empties the record. */
    function Reset(): (d: Db<V>)
      ensures d.Len() == 0
      ensures forall k :: d.Get(k) == None
    {
      Db(map[])
    }
  }

  /** A newly allocated record (`new(db)`). */
  function Empty<V>(): Db<V>
  {
    Db(map[])
  }
}
