/** The part of cluster/lock.go that is guarded by il.mu: the map of per-key
    mutexes with their reference counts. The functions on `Table` say what each
    critical section does; module LockObjects performs the same sections in place. */
module LockTable {
  import opened Options

  type Key = string
  type MutexId = nat

  /** A keyMutex: a sync.Mutex (locked or not, it has no owner) and its reference count. */
  datatype Mutex = Mutex(locked: bool, waiters: int)

  /** Every keyMutex ever made, in order of creation, and the map that names some of them. */
  datatype Table = Table(locks: map<Key, MutexId>, mutexes: seq<Mutex>)

  /** Every entry of the map names a keyMutex that exists, and no two keys share one. */
  ghost predicate WellFormed(t: Table) {
    && (forall k :: k in t.locks ==> t.locks[k] < |t.mutexes|)
    && (forall j, k :: j in t.locks && k in t.locks && t.locks[j] == t.locks[k] ==> j == k)
  }

  function SetLocked(t: Table, m: MutexId, locked: bool): Table
    requires m < |t.mutexes|
  {
    t.(mutexes := t.mutexes[m := t.mutexes[m].(locked := locked)])
  }

  function SetWaiters(t: Table, m: MutexId, waiters: int): Table
    requires m < |t.mutexes|
  {
    t.(mutexes := t.mutexes[m := t.mutexes[m].(waiters := waiters)])
  }

  /** getOrCreate: the keyMutex the call will use, and the table after registering. */
  function GetOrCreate(t: Table, key: Key): (r: (Table, MutexId))
    requires key in t.locks ==> t.locks[key] < |t.mutexes|
  {
    if key in t.locks then
      var m := t.locks[key];
      (SetWaiters(t, m, t.mutexes[m].waiters + 1), m)
    else
      (Table(t.locks[key := |t.mutexes|], t.mutexes + [Mutex(false, 1)]), |t.mutexes|)
  }

  /** The table with a new keyMutex for the key, not counted yet. */
  function WithNew(t: Table, key: Key): Table {
    Table(t.locks[key := |t.mutexes|], t.mutexes + [Mutex(false, 0)])
  }

  lemma CountNew(t: Table, key: Key)
    requires key in t.locks ==> t.locks[key] < |t.mutexes|
    ensures key !in t.locks ==> SetWaiters(WithNew(t, key), |t.mutexes|, 1) == GetOrCreate(t, key).0
  {
    assert (t.mutexes + [Mutex(false, 0)])[|t.mutexes| := Mutex(false, 1)] == t.mutexes + [Mutex(false, 1)];
  }

  /** The section that gives a reference back: it decrements the count of the
      keyMutex at hand, and on zero deletes whatever entry the *key* has. */
  function Leave(t: Table, key: Key, m: MutexId): Table
    requires m < |t.mutexes|
  {
    var t' := SetWaiters(t, m, t.mutexes[m].waiters - 1);
    if t'.mutexes[m].waiters == 0 then t'.(locks := t'.locks - {key}) else t'
  }

  /** The il.mu section of Unlock. It finds the keyMutex through the map; the
      caller goes on to unlock the one returned, if there is one. */
  function UnlockSection(t: Table, key: Key): (r: (Table, Option<MutexId>))
    requires key in t.locks ==> t.locks[key] < |t.mutexes|
  {
    if key in t.locks then (Leave(t, key, t.locks[key]), Some(t.locks[key])) else (t, None)
  }
}
