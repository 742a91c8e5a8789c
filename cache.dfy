/** An in-memory key/value cache with one fixed time-to-live per instance.
    Every entry carries an absolute expiry; expiry is checked lazily when the
    entry is read, and an expired entry is deleted by that read. There is no
    size bound and no background sweep. The clock is an explicit `now`
    parameter (milliseconds), standing for the wall-clock reading the cache
    takes at each call. */
module TtlCache {

  datatype Option<T> = None | Some(value: T)

  /** What the cache stores for a key: the value and the instant after which
      it is no longer served. */
  datatype Entry<V> = Entry(value: V, expiry: int)

  /** Time-to-live used when the constructor is given none: 60 seconds. */
  const DefaultTtl: int := 60000

  /** The cache operations, as they appear in a trace of calls. */
  datatype Op<V> =
    | SetOp(key: string, value: V, now: int)
    | GetOp(key: string, now: int)
    | InvalidateOp(key: string)
    | ClearOp

  /** The value a `get` of `key` at time `now` reports. An entry is visible
      while `now <= expiry`; the boundary instant is still a hit. */
  function Read<V>(m: map<string, Entry<V>>, key: string, now: int): Option<V>
  {
    if key in m && now <= m[key].expiry then Some(m[key].value) else None
  }

  /** The map after one operation on a cache whose time-to-live is `ttl`.
      Only `set` adds or replaces an entry, and only for its own key; `get`
      drops its key exactly when the entry it finds has expired; an
      operation naming one key leaves every other key as it was. */
  function Step<V>(m: map<string, Entry<V>>, op: Op<V>, ttl: int): (r: map<string, Entry<V>>)
    ensures op.ClearOp? ==> r == map[]
    ensures op.SetOp? ==> op.key in r && r[op.key] == Entry(op.value, op.now + ttl)
    ensures !op.SetOp? ==> r.Keys <= m.Keys && forall k :: k in r ==> r[k] == m[k]
    ensures op.GetOp? ==> (op.key in r <==> Read(m, op.key, op.now).Some?)
    ensures op.InvalidateOp? ==> op.key !in r
    ensures !op.ClearOp? ==> forall k :: k != op.key ==> (k in r <==> k in m) && (k in r ==> r[k] == m[k])
  {
    match op
    case SetOp(key, value, now) => m[key := Entry(value, now + ttl)]
    case GetOp(key, now) => if key in m && now > m[key].expiry then m - {key} else m
    case InvalidateOp(key) => m - {key}
    case ClearOp => map[]
  }

  /** The map after a whole trace of operations, applied first to last. A key
      it holds was already there or was `set` somewhere in the trace. */
  function Run<V>(m: map<string, Entry<V>>, ops: seq<Op<V>>, ttl: int): (r: map<string, Entry<V>>)
    ensures forall k :: k in r && k !in m ==> exists i :: 0 <= i < |ops| && IsSetOf(ops[i], k)
    decreases |ops|
  {
    if ops == [] then m
    else
      var m' := Step(m, ops[0], ttl);
      var r := Run(m', ops[1..], ttl);
      assert forall k :: k in r && k !in m ==> exists i :: 0 <= i < |ops| && IsSetOf(ops[i], k) by {
        forall k | k in r && k !in m
          ensures exists i :: 0 <= i < |ops| && IsSetOf(ops[i], k)
        {
          if k in m' {
            assert IsSetOf(ops[0], k);
          } else {
            var i :| 0 <= i < |ops[1..]| && IsSetOf(ops[1..][i], k);
            assert ops[1..][i] == ops[i + 1];
          }
        }
      }
      r
  }

  class Cache<V> {
    /** Fixed at construction; no operation changes it. */
    const ttl: int
    /** The key-to-entry map the operations update in place. */
    var entries: map<string, Entry<V>>

    constructor (ttl: int := DefaultTtl)
      ensures this.ttl == ttl
      ensures entries == map[]
    {
      this.ttl := ttl;
      entries := map[];
    }

    /** Stores `value` under `key` with expiry `now + ttl`, replacing any
        previous entry for `key`, and returns `value`. */
    method Set(key: string, value: V, now: int) returns (r: V)
      modifies this
      ensures r == value
      ensures entries == old(entries)[key := Entry(value, now + ttl)]
      ensures entries == Step(old(entries), SetOp(key, value, now), ttl)
    {
      var item := Entry(value, now + ttl);
      entries := entries[key := item];
      r := value;
    }

    /** Reports the value stored under `key` if it has not expired at `now`.
        An entry found expired is deleted; nothing else is touched. */
    method Get(key: string, now: int) returns (r: Option<V>)
      modifies this
      ensures key !in old(entries) ==> r == None && entries == old(entries)
      ensures key in old(entries) && now <= old(entries)[key].expiry ==>
                r == Some(old(entries)[key].value) && entries == old(entries)
      ensures key in old(entries) && now > old(entries)[key].expiry ==>
                r == None && entries == old(entries) - {key}
      ensures r == Read(old(entries), key, now)
      ensures entries == Step(old(entries), GetOp(key, now), ttl)
    {
      if key !in entries {
        return None;
      }
      var item := entries[key];
      if now > item.expiry {
        entries := entries - {key};
        return None;
      }
      r := Some(item.value);
    }

    /** Removes the entry for `key`, if any; every other entry stays. */
    method Invalidate(key: string)
      modifies this
      ensures entries == old(entries) - {key}
      ensures entries == Step(old(entries), InvalidateOp(key), ttl)
    {
      entries := entries - {key};
    }

    /** Removes every entry. */
    method Clear()
      modifies this
      ensures entries == map[]
      ensures entries == Step(old(entries), ClearOp, ttl)
    {
      entries := map[];
    }
  }

  /** `op` leaves an entry for `key` expiring at `deadline` in place: it is
      neither a `set` nor an `invalidate` of `key`, nor a `clear`, and a
      `get` of `key` happens no later than `deadline`. */
  predicate Spares<V>(op: Op<V>, key: string, deadline: int)
  {
    match op
    case SetOp(k, _, _) => k != key
    case GetOp(k, now) => k != key || now <= deadline
    case InvalidateOp(k) => k != key
    case ClearOp => false
  }

  /** `op` names `key` (or all keys, for `clear`). */
  predicate Mentions<V>(op: Op<V>, key: string)
  {
    match op
    case SetOp(k, _, _) => k == key
    case GetOp(k, _) => k == key
    case InvalidateOp(k) => k == key
    case ClearOp => true
  }

  predicate IsSetOf<V>(op: Op<V>, key: string)
  {
    op.SetOp? && op.key == key
  }

  /** An entry survives every operation that spares it. */
  lemma {:induction false} EntrySurvives<V>(m: map<string, Entry<V>>, ops: seq<Op<V>>, ttl: int, key: string)
    requires key in m
    requires forall i :: 0 <= i < |ops| ==> Spares(ops[i], key, m[key].expiry)
    ensures key in Run(m, ops, ttl) && Run(m, ops, ttl)[key] == m[key]
    decreases |ops|
  {
    if ops != [] {
      var m' := Step(m, ops[0], ttl);
      assert Spares(ops[0], key, m[key].expiry);
      assert key in m' && m'[key] == m[key];
      forall i | 0 <= i < |ops[1..]|
        ensures Spares(ops[1..][i], key, m'[key].expiry)
      {
        assert ops[1..][i] == ops[i + 1];
      }
      EntrySurvives(m', ops[1..], ttl, key);
    }
  }

  /** After `set(key, value)` at time `t`, a `get` of `key` at any `t'` up to
      `t + ttl` reports `value`, provided no later `set`, `invalidate` or
      `clear` touched `key` and no `get` of `key` came after the expiry. */
  lemma SetThenGetWithinTtl<V>(m: map<string, Entry<V>>, key: string, value: V, t: int,
                               ops: seq<Op<V>>, t': int, ttl: int)
    requires t' <= t + ttl
    requires forall i :: 0 <= i < |ops| ==> Spares(ops[i], key, t + ttl)
    ensures Read(Run(Step(m, SetOp(key, value, t), ttl), ops, ttl), key, t') == Some(value)
  {
    var m' := Step(m, SetOp(key, value, t), ttl);
    EntrySurvives(m', ops, ttl, key);
  }

  /** A key that is absent stays absent until it is `set` again, so every
      `get` of it reports nothing. */
  lemma {:induction false} AbsentUntilSet<V>(m: map<string, Entry<V>>, ops: seq<Op<V>>, ttl: int, key: string)
    requires key !in m
    requires forall i :: 0 <= i < |ops| ==> !IsSetOf(ops[i], key)
    ensures key !in Run(m, ops, ttl)
    ensures forall now :: Read(Run(m, ops, ttl), key, now) == None
    decreases |ops|
  {
    if ops != [] {
      assert !IsSetOf(ops[0], key);
      forall i | 0 <= i < |ops[1..]|
        ensures !IsSetOf(ops[1..][i], key)
      {
        assert ops[1..][i] == ops[i + 1];
      }
      AbsentUntilSet(Step(m, ops[0], ttl), ops[1..], ttl, key);
    }
  }

  /** A key that was never set in a fresh cache is never reported. */
  lemma NeverSetIsAbsent<V>(ops: seq<Op<V>>, ttl: int, key: string, now: int)
    requires forall i :: 0 <= i < |ops| ==> !IsSetOf(ops[i], key)
    ensures Read(Run(map[], ops, ttl), key, now) == None
  {
    AbsentUntilSet(map[], ops, ttl, key);
  }

  /** After `invalidate(key)`, `get(key)` reports nothing until `key` is set again. */
  lemma InvalidatedIsAbsent<V>(m: map<string, Entry<V>>, key: string, ops: seq<Op<V>>, ttl: int, now: int)
    requires forall i :: 0 <= i < |ops| ==> !IsSetOf(ops[i], key)
    ensures Read(Run(Step(m, InvalidateOp(key), ttl), ops, ttl), key, now) == None
  {
    AbsentUntilSet(Step(m, InvalidateOp(key), ttl), ops, ttl, key);
  }

  /** After `clear()`, `get` of any key reports nothing until that key is set again. */
  lemma ClearedIsAbsent<V>(m: map<string, Entry<V>>, key: string, ops: seq<Op<V>>, ttl: int, now: int)
    requires forall i :: 0 <= i < |ops| ==> !IsSetOf(ops[i], key)
    ensures Step(m, ClearOp, ttl) == map[]
    ensures Read(Run(Step(m, ClearOp, ttl), ops, ttl), key, now) == None
  {
    AbsentUntilSet(Step(m, ClearOp, ttl), ops, ttl, key);
  }

  /** Operations that never name `key` leave its entry (or its absence) as it was. */
  lemma {:induction false} OtherKeysUntouched<V>(m: map<string, Entry<V>>, ops: seq<Op<V>>, ttl: int, key: string)
    requires forall i :: 0 <= i < |ops| ==> !Mentions(ops[i], key)
    ensures key in Run(m, ops, ttl) <==> key in m
    ensures key in m ==> Run(m, ops, ttl)[key] == m[key]
    decreases |ops|
  {
    if ops != [] {
      assert !Mentions(ops[0], key);
      forall i | 0 <= i < |ops[1..]|
        ensures !Mentions(ops[1..][i], key)
      {
        assert ops[1..][i] == ops[i + 1];
      }
      OtherKeysUntouched(Step(m, ops[0], ttl), ops[1..], ttl, key);
    }
  }
}
