// The token lock on Redis: SETNX with a fresh token takes it, a script that compares the
// token gives it back, and a key may expire in between.

module RedisLocks {
  import opened Wrappers

  // Keys with the tokens they hold. Tokens are fresh; 0 stands for the empty one.
  class Store {
    const reliable: bool      // whether calls never fail
    var keys: map<string, nat>
    var nextToken: nat

    constructor (reliable: bool)
      ensures keys == map[] && nextToken == 1 && this.reliable == reliable
    {
      this.reliable, keys, nextToken := reliable, map[], 1;
    }

    method SetNX(key: string, token: nat) returns (failed: bool, ok: bool)
      modifies `keys
      ensures reliable ==> !failed
      ensures ok <==> !failed && key !in old(keys)
      ensures keys == if ok then old(keys)[key := token] else old(keys)
    {
      failed := Fault(reliable);
      ok := !failed && key !in keys;
      if ok { keys := keys[key := token]; }
    }

    method Expire(key: string)
      modifies `keys
      ensures keys == old(keys) - {key}
    {
      keys := keys - {key};
    }
  }

  class RedisLock {
    const rdb: Store
    const key: string
    var token: nat

    constructor (rdb: Store, key: string)
      ensures this.rdb == rdb && this.key == key && token == 0
    {
      this.rdb, this.key, token := rdb, key, 0;
    }

    // The store holds this lock's own token.
    predicate Holds()
      reads this, rdb
    {
      token != 0 && key in rdb.keys && rdb.keys[key] == token
    }

    method Lock() returns (ok: bool)
      requires rdb.nextToken > 0
      modifies this, rdb
      ensures rdb.nextToken == old(rdb.nextToken) + 1
      ensures rdb.reliable ==> (ok <==> key !in old(rdb.keys))
      ensures if ok then
          key !in old(rdb.keys) && token == old(rdb.nextToken) && rdb.keys == old(rdb.keys)[key := token]
        else
          token == old(token) && rdb.keys == old(rdb.keys)
    {
      var mine := rdb.nextToken;
      rdb.nextToken := rdb.nextToken + 1;
      var failed;
      failed, ok := rdb.SetNX(key, mine);
      if ok { token := mine; }
    }

    // Removes the key exactly when it holds this lock's own token.
    method Unlock() returns (failed: bool)
      modifies rdb
      ensures rdb.nextToken == old(rdb.nextToken)
      ensures failed ==> rdb.keys == old(rdb.keys) && !rdb.reliable
      ensures !failed ==> rdb.keys == if old(Holds()) then old(rdb.keys) - {key} else old(rdb.keys)
    {
      if token == 0 { return false; }
      failed := Fault(rdb.reliable);
      if !failed && key in rdb.keys && rdb.keys[key] == token {
        rdb.keys := rdb.keys - {key};
      }
    }
  }

  // Callers sharing one store, some of them between a successful Lock and their Unlock.
  class Callers {
    const rdb: Store
    const locks: seq<RedisLock>
    var inside: set<nat>

    ghost predicate Valid()
      reads this, rdb, locks
    {
      && rdb.nextToken > 0
      && (forall i, j :: 0 <= i < j < |locks| ==> locks[i] != locks[j])
      && (forall i :: 0 <= i < |locks| ==> locks[i].rdb == rdb && locks[i].token < rdb.nextToken)
      && (forall key :: key in rdb.keys ==> rdb.keys[key] < rdb.nextToken)
      && (forall i, j :: 0 <= i < j < |locks| && locks[i].token == locks[j].token ==> locks[i].token == 0)
      && (forall i :: i in inside ==> i < |locks| && locks[i].token != 0)
    }

    // Everybody inside still has the key.
    ghost predicate Held()
      reads this, rdb, locks
    {
      forall i :: i in inside && i < |locks| ==> locks[i].rdb == rdb && locks[i].Holds()
    }

    // At most one caller per key is inside.
    ghost predicate MutuallyExclusive()
      reads this, locks
    {
      forall i, j :: i in inside && j in inside && i < |locks| && j < |locks| && locks[i].key == locks[j].key ==> i == j
    }

    lemma HeldExcludes()
      requires Valid() && Held()
      ensures MutuallyExclusive()
    {
      forall i, j | i in inside && j in inside && locks[i].key == locks[j].key ensures i == j {
        assert locks[i].Holds() && locks[j].Holds();
      }
    }

    constructor (rdb: Store, locks: seq<RedisLock>)
      requires forall i, j :: 0 <= i < j < |locks| ==> locks[i] != locks[j]
      requires forall i :: 0 <= i < |locks| ==> locks[i].rdb == rdb && locks[i].token == 0
      requires rdb.keys == map[] && rdb.nextToken > 0
      ensures Valid() && Held() && inside == {}
      ensures this.rdb == rdb && this.locks == locks
    {
      this.rdb, this.locks, inside := rdb, locks, {};
    }

    method Enter(i: nat)
      requires Valid() && i < |locks| && i !in inside
      modifies `inside, rdb, locks[i]
      ensures Valid() && (inside == old(inside) || (inside == old(inside) + {i} && locks[i].Holds()))
      ensures i in inside ==> locks[i].key !in old(rdb.keys)
      ensures rdb.reliable ==> (i in inside <==> locks[i].key !in old(rdb.keys))
      ensures old(Held()) ==> Held()
    {
      var ok := locks[i].Lock();
      if ok { inside := inside + {i}; }
      if old(Held()) {
        forall j | j in inside && j != i ensures locks[j].Holds() {
          assert old(locks[j].Holds());
        }
      }
    }

    // Leaving never takes the key from another caller.
    method Exit(i: nat)
      requires Valid() && i in inside
      modifies `inside, rdb
      ensures Valid() && inside == old(inside) - {i}
      ensures forall j :: 0 <= j < |locks| && j != i && old(locks[j].Holds()) ==> locks[j].Holds()
      ensures old(Held()) ==> Held()
    {
      var failed := locks[i].Unlock();
      inside := inside - {i};
      forall j | 0 <= j < |locks| && j != i && old(locks[j].Holds()) ensures locks[j].Holds() {
        assert locks[j].token != locks[i].token;
      }
      if old(Held()) {
        forall j | j in inside ensures locks[j].Holds() { assert old(locks[j].Holds()); }
      }
    }

    // Any interleaving of callers, and of expiries of keys nobody inside relies on, keeps
    // callers of one key apart.
    method Run(rounds: nat)
      requires Valid() && Held()
      modifies this, rdb, locks
      ensures Valid() && Held() && MutuallyExclusive()
    {
      for r := 0 to rounds
        invariant Valid() && Held()
      {
        var i: nat, expires: bool, key: string := *, *, *;
        if expires {
          if forall j :: j in inside ==> locks[j].key != key { ExpireUnheld(key); }
        } else if i < |locks| {
          if i in inside { Exit(i); } else { Enter(i); }
        }
      }
      HeldExcludes();
    }

    method ExpireUnheld(key: string)
      requires Valid() && Held() && forall j :: j in inside ==> locks[j].key != key
      modifies rdb
      ensures Valid() && Held()
    {
      rdb.Expire(key);
      forall j | j in inside ensures locks[j].Holds() { assert old(locks[j].Holds()); }
    }

    // Expiry under a holder is what breaks it: the next caller of the key gets in as well.
    method ExpireHeld(i: nat, j: nat)
      requires Valid() && i in inside && j < |locks| && j !in inside && locks[j].key == locks[i].key
      modifies this, rdb, locks[j]
      ensures Valid() && i in inside
      ensures j in inside ==> !MutuallyExclusive()
      ensures rdb.reliable ==> j in inside
    {
      rdb.Expire(locks[i].key);
      Enter(j);
    }
  }
}
