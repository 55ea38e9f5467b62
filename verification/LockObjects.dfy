/** The objects of cluster/lock.go, whose il.mu sections update them in place as
    the functions of LockTable say. */
module LockObjects {
  import LockTable
  import opened Options

  type Key = LockTable.Key

  /** A keyMutex object. */
  class KeyMutex {
    var locked: bool
    var waiters: int
    ghost const id: LockTable.MutexId  // its place among the objects made
    ghost const key: Key               // the key it was made for

    constructor (ghost id: LockTable.MutexId, ghost key: Key)
      ensures !locked && waiters == 0 && this.id == id && this.key == key
    {
      this.id, this.key := id, key;
      locked, waiters := false, 0;
    }

    ghost function View(): LockTable.Mutex
      reads this
    {
      LockTable.Mutex(locked, waiters)
    }

    /** sync.Mutex.TryLock; a blocking Lock is a TryLock that succeeds. */
    method TryLock() returns (acquired: bool)
      modifies this`locked
      ensures acquired == !old(locked) && locked
    {
      acquired := !locked;
      locked := true;
    }

    /** sync.Mutex.Unlock: calling it on a free mutex is a fatal error in Go. */
    method Unlock()
      requires locked
      modifies this`locked
      ensures !locked
    {
      locked := false;
    }
  }

  ghost function Views(made: seq<KeyMutex>): (r: seq<LockTable.Mutex>)
    reads made
    ensures |r| == |made|
    ensures forall i :: 0 <= i < |made| ==> r[i] == made[i].View()
  {
    seq(|made|, i requires 0 <= i < |made| reads made => made[i].View())
  }

  ghost function Ids(locks: map<Key, KeyMutex>): map<Key, LockTable.MutexId> {
    map k | k in locks :: locks[k].id
  }

  lemma IdsUpdate(locks: map<Key, KeyMutex>, key: Key, km: KeyMutex)
    ensures Ids(locks[key := km]) == Ids(locks)[key := km.id]
  {
  }

  /** The shared object. `made` lists every KeyMutex created so far. */
  class InMemoryLock {
    var locks: map<Key, KeyMutex>
    ghost var made: seq<KeyMutex>

    ghost predicate IsMade(km: KeyMutex)
      reads this
    {
      km.id < |made| && made[km.id] == km
    }

    ghost predicate Valid()
      reads this, made
    {
      && (forall i :: 0 <= i < |made| ==> made[i].id == i)
      && (forall k :: k in locks ==> IsMade(locks[k]) && locks[k].key == k)
    }

    /** The table this object stands for. */
    ghost function View(): (t: LockTable.Table)
      requires Valid()
      reads this, made
      ensures LockTable.WellFormed(t)
    {
      LockTable.Table(Ids(locks), Views(made))
    }

    constructor ()
      ensures Valid() && made == [] && View() == LockTable.Table(map[], [])
    {
      locks, made := map[], [];
    }

    /** Runs under il.mu, as in Lock and TryLock. */
    method GetOrCreate(key: Key) returns (km: KeyMutex)
      requires Valid()
      modifies this, made
      ensures Valid() && IsMade(km) && old(made) <= made
      ensures made == old(made) || (fresh(km) && made == old(made) + [km])
      ensures (View(), km.id) == LockTable.GetOrCreate(old(View()), key)
    {
      if key in locks {
        km := locks[key];
      } else {
        km := Create(key);
      }
      LockTable.CountNew(old(View()), key);
      AddWaiters(km, 1);
    }

    /** `km.waiters++` and `km.waiters--`. */
    method AddWaiters(km: KeyMutex, n: int)
      requires Valid() && IsMade(km)
      modifies km`waiters
      ensures Valid() && km.waiters == old(km.waiters) + n
      ensures View() == LockTable.SetWaiters(old(View()), km.id, old(km.waiters) + n)
    {
      km.waiters := km.waiters + n;
      assert View().mutexes == LockTable.SetWaiters(old(View()), km.id, old(km.waiters) + n).mutexes;
    }

    /** A new object in the map, not counted yet. */
    method Create(key: Key) returns (km: KeyMutex)
      requires Valid()
      modifies this
      ensures Valid() && IsMade(km) && fresh(km) && made == old(made) + [km]
      ensures km.waiters == 0 && km.id == |old(View()).mutexes|
      ensures View() == LockTable.WithNew(old(View()), key)
    {
      km := Make(key);
      Name(key, km);
    }

    /** `&keyMutex{}`: a new object, not in the map yet. */
    method Make(key: Key) returns (km: KeyMutex)
      requires Valid()
      modifies this`made
      ensures Valid() && IsMade(km) && fresh(km) && km.key == key && made == old(made) + [km]
      ensures View() == old(View()).(mutexes := old(View()).mutexes + [LockTable.Mutex(false, 0)])
      ensures km.id == |old(View()).mutexes|
    {
      ghost var before := View();
      km := new KeyMutex(|made|, key);
      made := made + [km];
      assert View().mutexes == before.mutexes + [LockTable.Mutex(false, 0)];
    }

    /** `il.locks[key] = km`. */
    method Name(key: Key, km: KeyMutex)
      requires Valid() && IsMade(km) && km.key == key
      modifies this`locks
      ensures Valid() && View() == old(View()).(locks := old(View()).locks[key := km.id])
    {
      ghost var before := locks;
      locks := locks[key := km];
      IdsUpdate(before, key, km);
    }

    /** `delete(il.locks, key)`. */
    method Delete(key: Key)
      requires Valid()
      modifies this`locks
      ensures Valid() && View() == old(View()).(locks := old(View()).locks - {key})
    {
      ghost var before := View();
      locks := locks - {key};
      assert View().locks == before.locks - {key};
    }

    /** Runs under il.mu, in a cancelled Lock and in a TryLock that lost. */
    method Leave(key: Key, km: KeyMutex)
      requires Valid() && IsMade(km)
      modifies this`locks, km`waiters
      ensures Valid() && IsMade(km) && View() == LockTable.Leave(old(View()), key, km.id)
    {
      AddWaiters(km, -1);
      if km.waiters == 0 {
        Delete(key);
      }
    }

    /** The il.mu section of Unlock; on null the call returns at once. */
    method UnlockSection(key: Key) returns (km: KeyMutex?)
      requires Valid()
      modifies this`locks, made`waiters
      ensures Valid()
      ensures km == null <==> key !in old(View()).locks
      ensures km == null ==> View() == old(View())
      ensures km != null ==> (View(), Some(km.id)) == LockTable.UnlockSection(old(View()), key)
    {
      if key !in locks {
        return null;
      }
      km := locks[key];
      Leave(key, km);
    }

    /** The il.mu section of IsLocked. */
    method Find(key: Key) returns (km: KeyMutex?)
      requires Valid()
      ensures km == null <==> key !in View().locks
      ensures km != null ==> IsMade(km) && km.id == View().locks[key]
    {
      km := if key in locks then locks[key] else null;
    }
  }
}
