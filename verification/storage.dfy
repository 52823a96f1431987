/**
 * The storage backend a Store is configured with, seen through the two calls
 * the session lifecycle makes (Set and Delete) plus the lookup a later request
 * would make. Whether a call fails is decided by the backend, so every call
 * takes that decision as a `fault` parameter; a failed call leaves the
 * backend as it was.
 */
module Storage {
  import opened Wrappers
  import opened Errors

  newtype byte = x: int | 0 <= x < 256

  /** What is kept for one session id: the serialized record and its time to live in seconds. */
  datatype Entry = Entry(data: seq<byte>, ttl: int)

  type Backend = map<string, Entry>

  /** The backend's state after a call, with the call's answer. */
  datatype Written = Written(backend: Backend, outcome: Outcome<Error>)

  /** What a later `Get(key)` against the backend would find. */
  function Lookup(b: Backend, key: string): Option<Entry>
  {
    if key in b then Some(b[key]) else None
  }

  /** `Storage.Set(key, data, ttl)`. */
  function Set(b: Backend, key: string, data: seq<byte>, ttl: int, fault: Option<Error>): (r: Written)
    ensures fault.Some? ==> r == Written(b, Fail(fault.value))
    ensures fault.None? ==> r.outcome == Pass && Lookup(r.backend, key) == Some(Entry(data, ttl))
    ensures forall k :: k != key ==> Lookup(r.backend, k) == Lookup(b, k)
  {
    if fault.Some? then Written(b, Fail(fault.value)) else Written(b[key := Entry(data, ttl)], Pass)
  }

  /** `Storage.Delete(key)`; deleting a missing key succeeds. */
  function Delete(b: Backend, key: string, fault: Option<Error>): (r: Written)
    ensures fault.Some? ==> r == Written(b, Fail(fault.value))
    ensures fault.None? ==> r.outcome == Pass && Lookup(r.backend, key).None?
    ensures forall k :: k != key ==> Lookup(r.backend, k) == Lookup(b, k)
  {
    if fault.Some? then Written(b, Fail(fault.value)) else Written(b - {key}, Pass)
  }
}
