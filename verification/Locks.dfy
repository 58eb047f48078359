/** src/jibit/auth/locks.py: the dictionary of per-key locks. Waiting and holding are modelled in TokenProtocol. */
module Locks {

  class Lock {
    constructor () {}
  }

  class ThreadLockProvider {
    var locks: map<string, Lock>

    constructor ()
      ensures locks == map[]
    {
      locks := map[];
    }

    /** Different keys never share a lock. */
    ghost predicate Valid()
      reads this
    {
      forall a, b :: a in locks && b in locks && a != b ==> locks[a] != locks[b]
    }

    /** The part of `lock` under the guard: `setdefault` with a new lock, used only if the key has none. */
    method LockFor(key: string) returns (l: Lock)
      requires Valid()
      modifies this
      ensures Valid() && key in locks && locks[key] == l
      ensures locks == if key in old(locks) then old(locks) else old(locks)[key := l]
      ensures key !in old(locks) ==> fresh(l)
    {
      var candidate := new Lock();
      assert forall k :: k in locks ==> locks[k] != candidate;
      if key !in locks {
        locks := locks[key := candidate];
      }
      l := locks[key];
    }
  }
}
