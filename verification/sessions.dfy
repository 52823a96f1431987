/**
 * The session object and its lifecycle: the pool hooks, the accessors, the
 * record operations and the three transitions Destroy, Regenerate and Save.
 *
 * Everything a transition can change lives in a World: the storage backend,
 * the log of cookie directives written to responses, and the pool's free
 * list. Every transition is a pure function from a session and a world to
 * the new session, the new world and the error it returns.
 */
module Sessions {
  import opened Wrappers
  import opened Errors
  import opened Record
  import opened Store
  import opened Cookies
  import Storage

  /** An opaque reference to the request context a session writes its cookies to. */
  type CtxRef = nat

  /** `ctx`, `config` and `db` are pointers in session.go; None stands for `nil`. */
  datatype Session<V> = Session(
    ctx: Option<CtxRef>,
    config: Option<Config>,
    db: Option<Db<V>>,
    id: string,
    isFresh: bool)

  /** A cookie written to the response of request context `ctx`. */
  datatype Directive = Directive(ctx: CtxRef, cookie: Cookie)

  datatype World<V> = World(
    storage: Storage.Backend,
    cookies: seq<Directive>,
    pool: seq<Session<V>>)

  /** A session together with the world around it. */
  datatype State<V> = State(session: Session<V>, world: World<V>)

  /** The result of a lifecycle transition: new session, new world and the error returned. */
  datatype Step<V> = Step(session: Session<V>, world: World<V>, outcome: Outcome<Error>)

  // ---------------------------------------------------------------- pool

  /** What the pool's `New` hook allocates: every field at its zero value. */
  function Zero<V>(): Session<V>
  {
    Session(None, None, None, "", false)
  }

  /** The state releaseSession leaves a session in. */
  predicate Cleared<V>(s: Session<V>)
  {
    && s.ctx.None?
    && s.config.None?
    && s.id == ""
    && s.isFresh
    && (s.db.None? || s.db.value.Len() == 0)
  }

  /** Every session waiting in the pool has been cleared. */
  predicate PoolInv<V>(pool: seq<Session<V>>)
  {
    forall i :: 0 <= i < |pool| ==> Cleared(pool[i])
  }

  /** A session as acquireSession hands it out from a well-kept pool. */
  function Blank<V>(): Session<V>
  {
    Session(None, None, Some(Empty()), "", true)
  }

  /**
   * acquireSession: takes the pooled session at `pick`, or a newly allocated
   * one when `pick` is past the free list (the pool may always fall back to
   * `New`), gives it a new empty record and marks it fresh.
   */
  function Acquire<V>(w: World<V>, pick: nat): (r: State<V>)
    ensures r.session.db == Some(Empty()) && r.session.isFresh
    ensures PoolInv(w.pool) ==> r.session == Blank() && PoolInv(r.world.pool)
    ensures pick < |w.pool| ==> r.world.pool == w.pool[..pick] + w.pool[pick + 1..]
    ensures pick >= |w.pool| ==> r.world == w
    ensures r.world.storage == w.storage && r.world.cookies == w.cookies
  {
    var s := if pick < |w.pool| then w.pool[pick] else Zero();
    var rest := if pick < |w.pool| then w.pool[..pick] + w.pool[pick + 1..] else w.pool;
    assert PoolInv(w.pool) ==> PoolInv(rest) by {
      if pick < |w.pool| && PoolInv(w.pool) {
        forall i | 0 <= i < |rest|
          ensures Cleared(rest[i])
        {
          if i < pick {
            assert rest[i] == w.pool[i];
          } else {
            assert rest[i] == w.pool[i + 1];
          }
        }
      }
    }
    State(s.(db := Some(Empty()), isFresh := true), w.(pool := rest))
  }

  /** The field reset releaseSession performs: detach, reset the record if there is one, clear the id. */
  function Clear<V>(s: Session<V>): (c: Session<V>)
    ensures Cleared(c)
    ensures c.db.Some? <==> s.db.Some?
  {
    Session(None, None, if s.db.Some? then Some(s.db.value.Reset()) else None, "", true)
  }

  /** releaseSession: clears the session and puts it back on the free list. */
  function Release<V>(s: Session<V>, w: World<V>): (r: State<V>)
    ensures Cleared(r.session)
    ensures r.world.pool == w.pool + [r.session]
    ensures PoolInv(w.pool) ==> PoolInv(r.world.pool)
    ensures r.world.storage == w.storage && r.world.cookies == w.cookies
  {
    var c := Clear(s);
    State(c, w.(pool := w.pool + [c]))
  }

  // ----------------------------------------------------------- accessors

  /** Fresh() */
  function Fresh<V>(s: Session<V>): bool
  {
    s.isFresh
  }

  /** ID() */
  function ID<V>(s: Session<V>): string
  {
    s.id
  }

  /** Get(key): the value the record holds under `key`. */
  function Get<V>(s: Session<V>, key: string): Option<V>
    requires s.db.Some?
  {
    s.db.value.Get(key)
  }

  /** `t` is bound to the same context and Store and has the same id and freshness as `s`. */
  predicate SameIdentity<V>(s: Session<V>, t: Session<V>)
  {
    t.ctx == s.ctx && t.config == s.config && ID(t) == ID(s) && Fresh(t) == Fresh(s)
  }

  /** Set(key, val): only the record changes, and only at `key`. */
  function Set<V>(s: Session<V>, key: string, val: V): (t: Session<V>)
    requires s.db.Some?
    ensures t.db.Some? && SameIdentity(s, t)
    ensures Get(t, key) == Some(val)
    ensures forall k :: k != key ==> Get(t, k) == Get(s, k)
  {
    s.(db := Some(s.db.value.Set(key, val)))
  }

  /** Delete(key): only the record changes, and only at `key`. */
  function Delete<V>(s: Session<V>, key: string): (t: Session<V>)
    requires s.db.Some?
    ensures t.db.Some? && SameIdentity(s, t)
    ensures Get(t, key) == None
    ensures forall k :: k != key ==> Get(t, k) == Get(s, k)
  {
    s.(db := Some(s.db.value.Delete(key)))
  }

  // ---------------------------------------------------------- transitions

  /**
   * Destroy: empties the record first, then deletes the id from storage and,
   * only if that succeeded, writes the revoking cookie. The session stays
   * bound and keeps its id and freshness.
   */
  function Destroy<V>(s: Session<V>, w: World<V>, fault: Option<Error>): (r: Step<V>)
    requires s.db.Some? && s.config.Some?
    requires fault.None? ==> s.ctx.Some?
    ensures r.session == s.(db := Some(Empty()))
    ensures r.world.pool == w.pool
    ensures fault.Some? ==> r.outcome == Fail(fault.value) && r.world == w
    ensures fault.None? ==>
      && r.outcome == Pass
      && Storage.Lookup(r.world.storage, s.id).None?
      && (forall k :: k != s.id ==> Storage.Lookup(r.world.storage, k) == Storage.Lookup(w.storage, k))
      && r.world.cookies == w.cookies + [Directive(s.ctx.value, RevokeCookie(s.config.value))]
  {
    var reset := s.(db := Some(s.db.value.Reset()));
    var del := Storage.Delete(w.storage, s.id, fault);
    if del.outcome.Fail? then
      Step(reset, w, del.outcome)
    else
      var revoke := Directive(s.ctx.value, RevokeCookie(s.config.value));
      Step(reset, w.(storage := del.backend, cookies := w.cookies + [revoke]), Pass)
  }

  /**
   * Regenerate: deletes the old id from storage and, only if that succeeded,
   * takes `generated` (the Store's key generator output) as the new id.
   */
  function Regenerate<V>(s: Session<V>, w: World<V>, fault: Option<Error>, generated: string): (r: Step<V>)
    requires s.config.Some?
    ensures fault.Some? ==> r == Step(s, w, Fail(fault.value))
    ensures fault.None? ==>
      && r.outcome == Pass
      && r.session == s.(id := generated)
      && Storage.Lookup(r.world.storage, s.id).None?
      && (forall k :: k != s.id ==> Storage.Lookup(r.world.storage, k) == Storage.Lookup(w.storage, k))
      && r.world.cookies == w.cookies && r.world.pool == w.pool
  {
    var del := Storage.Delete(w.storage, s.id, fault);
    if del.outcome.Fail? then
      Step(s, w, del.outcome)
    else
      Step(s.(id := generated), w.(storage := del.backend), Pass)
  }

  /** Save stores something only when the record holds at least one key. */
  predicate HasData<V>(s: Session<V>)
    requires s.db.Some?
  {
    s.db.value.Len() > 0
  }

  /**
   * Save: with an empty record, succeeds and does nothing. Otherwise encodes
   * the record with `marshal`, writes it under the id with the configured
   * expiration, and only if both steps succeeded writes the session cookie
   * and releases the session to the pool.
   */
  function Save<V>(s: Session<V>, w: World<V>, marshal: Db<V> -> Result<seq<Storage.byte>, Error>,
                   fault: Option<Error>): (r: Step<V>)
    requires s.db.Some?
    requires HasData(s) && marshal(s.db.value).Success? ==> s.config.Some?
    requires HasData(s) && marshal(s.db.value).Success? && fault.None? ==> s.ctx.Some?
    ensures !HasData(s) ==> r == Step(s, w, Pass)
    ensures HasData(s) && marshal(s.db.value).Failure? ==>
      r == Step(s, w, Fail(marshal(s.db.value).error))
    ensures HasData(s) && marshal(s.db.value).Success? && fault.Some? ==>
      r == Step(s, w, Fail(fault.value))
    ensures HasData(s) && marshal(s.db.value).Success? && fault.None? ==>
      && r.outcome == Pass
      && Storage.Lookup(r.world.storage, s.id)
         == Some(Storage.Entry(marshal(s.db.value).value, s.config.value.expiration))
      && (forall k :: k != s.id ==> Storage.Lookup(r.world.storage, k) == Storage.Lookup(w.storage, k))
      && r.world.cookies == w.cookies + [Directive(s.ctx.value, SessionCookie(s.config.value, s.id))]
      && Cleared(r.session)
      && r.world.pool == w.pool + [r.session]
    ensures PoolInv(w.pool) ==> PoolInv(r.world.pool)
  {
    if !HasData(s) then
      Step(s, w, Pass)
    else
      match marshal(s.db.value)
      case Failure(e) => Step(s, w, Fail(e))
      case Success(data) =>
        var put := Storage.Set(w.storage, s.id, data, s.config.value.expiration, fault);
        if put.outcome.Fail? then
          Step(s, w, put.outcome)
        else
          var issue := Directive(s.ctx.value, SessionCookie(s.config.value, s.id));
          var released := Release(s, w.(storage := put.backend, cookies := w.cookies + [issue]));
          Step(released.session, released.world, Pass)
  }
}
