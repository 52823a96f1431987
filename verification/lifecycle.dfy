/**
 * Properties that relate several calls of the session lifecycle: the pool
 * cycle, sequences of record operations, repeated Regenerate, and what a
 * Save after Save or Destroy does.
 */
module Lifecycle {
  import opened Wrappers
  import opened Errors
  import opened Record
  import opened Sessions
  import Storage

  // ---------------------------------------------------------------- pool

  /** Clearing is idempotent: releasing an already-cleared session changes none of its fields. */
  lemma ClearIdempotent<V>(s: Session<V>)
    ensures Clear(Clear(s)) == Clear(s)
    ensures Cleared(s) ==> Clear(s) == s
  {
  }

  /**
   * A released session comes back from the pool blank, whichever pooled
   * session the pool hands out: no id, no Store, no context, an empty record.
   */
  lemma ReleaseThenAcquireIsBlank<V>(s: Session<V>, w: World<V>, pick: nat)
    requires PoolInv(w.pool)
    ensures var back := Acquire(Release(s, w).world, pick).session;
      && back == Blank()
      && (ID(s) != "" ==> ID(back) != ID(s))
      && back.db.value.Len() == 0 && Fresh(back)
  {
  }

  // ------------------------------------------------------ record operations

  datatype RecordOp<V> = Put(key: string, val: V) | Remove(key: string)

  /** One Set or Delete call on the session. */
  function Apply<V>(s: Session<V>, op: RecordOp<V>): (t: Session<V>)
    requires s.db.Some?
    ensures t.db.Some?
  {
    match op
    case Put(k, v) => Set(s, k, v)
    case Remove(k) => Delete(s, k)
  }

  /** A sequence of Set and Delete calls, in order. They never touch the id, freshness or binding. */
  function Run<V>(s: Session<V>, ops: seq<RecordOp<V>>): (t: Session<V>)
    requires s.db.Some?
    ensures t.db.Some? && SameIdentity(s, t)
    decreases |ops|
  {
    if ops == [] then s else Run(Apply(s, ops[0]), ops[1..])
  }

  /** A key no operation in `ops` names keeps its value through all of them. */
  lemma {:induction false} UntouchedKeySurvives<V>(s: Session<V>, key: string, ops: seq<RecordOp<V>>)
    requires s.db.Some?
    requires forall i :: 0 <= i < |ops| ==> ops[i].key != key
    ensures Get(Run(s, ops), key) == Get(s, key)
    decreases |ops|
  {
    if ops != [] {
      var next := Apply(s, ops[0]);
      assert Get(next, key) == Get(s, key);
      UntouchedKeySurvives(next, key, ops[1..]);
    }
  }

  /** Get(k) after Set(k, v) returns v until the next Set or Delete of k. */
  lemma {:induction false} GetAfterSetUntilOverwritten<V>(s: Session<V>, key: string, val: V, ops: seq<RecordOp<V>>)
    requires s.db.Some?
    requires forall i :: 0 <= i < |ops| ==> ops[i].key != key
    ensures Get(Run(Set(s, key, val), ops), key) == Some(val)
  {
    UntouchedKeySurvives(Set(s, key, val), key, ops);
  }

  /** Whatever was stored before, Destroy leaves a record where every Get finds nothing. */
  lemma DestroyForgetsEveryKey<V>(s: Session<V>, w: World<V>, fault: Option<Error>, key: string)
    requires s.db.Some? && s.config.Some?
    requires fault.None? ==> s.ctx.Some?
    ensures Get(Destroy(s, w, fault).session, key) == None
  {
  }

  // ------------------------------------------------------------ Regenerate

  /** A run of successful Regenerate calls, the key generator yielding `ids` in turn. */
  function RegenerateEach<V>(s: Session<V>, w: World<V>, ids: seq<string>): (r: State<V>)
    requires s.config.Some?
    ensures r.session.config == s.config
    decreases |ids|
  {
    if ids == [] then
      State(s, w)
    else
      var step := Regenerate(s, w, None, ids[0]);
      RegenerateEach(step.session, step.world, ids[1..])
  }

  /**
   * After successful Regenerate calls the session holds the last generated id
   * and nothing else in it changed; every id it held before (the first one and
   * all but the last generated) is gone from storage; storage under any other
   * id is untouched, and no cookie or pool change happened.
   */
  lemma {:induction false} RegenerateEachRetiresOldIds<V>(s: Session<V>, w: World<V>, ids: seq<string>)
    requires s.config.Some?
    ensures var r := RegenerateEach(s, w, ids);
      && r.session == (if ids == [] then s else s.(id := ids[|ids| - 1]))
      && (ids != [] ==> Storage.Lookup(r.world.storage, s.id).None?)
      && (forall j :: 0 <= j < |ids| - 1 ==> Storage.Lookup(r.world.storage, ids[j]).None?)
      && (forall k :: k != s.id && k !in ids ==>
            Storage.Lookup(r.world.storage, k) == Storage.Lookup(w.storage, k))
      && (forall k :: Storage.Lookup(w.storage, k).None? ==> Storage.Lookup(r.world.storage, k).None?)
      && r.world.cookies == w.cookies && r.world.pool == w.pool
    decreases |ids|
  {
    if ids != [] {
      var step := Regenerate(s, w, None, ids[0]);
      var tail := ids[1..];
      RegenerateEachRetiresOldIds(step.session, step.world, tail);
      var r := RegenerateEach(step.session, step.world, tail);
      assert r == RegenerateEach(s, w, ids);
      forall j | 0 <= j < |ids| - 1
        ensures Storage.Lookup(r.world.storage, ids[j]).None?
      {
        if j > 0 {
          assert ids[j] == tail[j - 1];
        }
      }
      forall k | k != s.id && k !in ids
        ensures Storage.Lookup(r.world.storage, k) == Storage.Lookup(w.storage, k)
      {
        assert k != step.session.id && k !in tail;
      }
    }
  }

  /** Two Regenerate calls in a row with distinct generator outputs: two distinct ids, both old ones deleted. */
  lemma RegenerateTwice<V>(s: Session<V>, w: World<V>, first: string, second: string)
    requires s.config.Some?
    requires first != second
    ensures var r := RegenerateEach(s, w, [first, second]);
      && ID(r.session) == second && ID(r.session) != first
      && Storage.Lookup(r.world.storage, s.id).None?
      && Storage.Lookup(r.world.storage, first).None?
  {
    RegenerateEachRetiresOldIds(s, w, [first, second]);
  }

  /** A failed Regenerate changes nothing, so retrying it is the same as succeeding first time. */
  lemma RegenerateRetryIsSafe<V>(s: Session<V>, w: World<V>, e: Error, generated: string)
    requires s.config.Some?
    ensures var failed := Regenerate(s, w, Some(e), generated);
      Regenerate(failed.session, failed.world, None, generated) == Regenerate(s, w, None, generated)
  {
  }

  // ------------------------------------------------------------------ Save

  /**
   * After a successful Save the session is released with an empty record, so
   * a second Save, whatever the encoder or backend would answer, returns
   * success and changes nothing.
   */
  lemma SaveTwiceIsNoop<V>(s: Session<V>, w: World<V>, marshal: Db<V> -> Result<seq<Storage.byte>, Error>,
                           fault: Option<Error>, marshal2: Db<V> -> Result<seq<Storage.byte>, Error>,
                           fault2: Option<Error>)
    requires s.db.Some?
    requires HasData(s) && marshal(s.db.value).Success? ==> s.config.Some?
    requires HasData(s) && marshal(s.db.value).Success? && fault.None? ==> s.ctx.Some?
    requires Save(s, w, marshal, fault).outcome == Pass
    ensures var first := Save(s, w, marshal, fault);
      && first.session.db.Some?
      && Save(first.session, first.world, marshal2, fault2) == Step(first.session, first.world, Pass)
  {
  }

  /** After Destroy the record is empty, so a following Save writes nothing and issues no cookie. */
  lemma DestroyThenSaveIsNoop<V>(s: Session<V>, w: World<V>, fault: Option<Error>,
                                 marshal: Db<V> -> Result<seq<Storage.byte>, Error>, fault2: Option<Error>)
    requires s.db.Some? && s.config.Some?
    requires fault.None? ==> s.ctx.Some?
    ensures var d := Destroy(s, w, fault);
      && d.session.db.Some?
      && Save(d.session, d.world, marshal, fault2) == Step(d.session, d.world, Pass)
  {
  }

  /** A failed Save changes nothing, so it can be retried as if it had never been called. */
  lemma SaveRetryIsSafe<V>(s: Session<V>, w: World<V>, marshal: Db<V> -> Result<seq<Storage.byte>, Error>,
                           e: Error)
    requires s.db.Some?
    requires HasData(s) && marshal(s.db.value).Success? ==> s.config.Some? && s.ctx.Some?
    ensures var failed := Save(s, w, marshal, Some(e));
      && failed.session.db.Some?
      && Save(failed.session, failed.world, marshal, None) == Save(s, w, marshal, None)
  {
  }
}
