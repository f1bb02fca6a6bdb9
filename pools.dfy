/**
 * Pools and the pool registry (src/lagoon/pool.rs).
 *
 * A pool is a mutator applied to memory slots plus the set of slot indices
 * currently in it.  The registry maps a one-character identifier to a pool.
 * `PoolState` is the value of a pool as the executor's specification sees it;
 * `Pools.View()` is the registry as such a map.
 */
module PoolRegistry {
  import opened Wrappers

  datatype PoolState = PoolState(func: int -> int, members: set<int>)

  /** The error a lookup of an unregistered identifier reports. */
  datatype PoolError = UnknownPool(identifier: char)

  /** `s` with the membership of `item`, and only of `item`, flipped. */
  function Toggled(s: set<int>, item: int): (r: set<int>)
    ensures item in r <==> item !in s
    ensures forall x :: x != item ==> (x in r <==> x in s)
  {
    if item in s then s - {item} else s + {item}
  }

  /** Two toggles of the same item restore the set. */
  lemma ToggleTwice(s: set<int>, item: int)
    ensures Toggled(Toggled(s, item), item) == s
  {
  }

  class Pool {
    const func: int -> int
    var members: set<int>

    /** `Pool::new`: no members yet. */
    constructor (func: int -> int)
      ensures this.func == func && members == {}
    {
      this.func := func;
      members := {};
    }

    /** `add`: true when the item was not yet a member; afterwards it is one. */
    method Add(item: int) returns (added: bool)
      modifies this
      ensures added <==> item !in old(members)
      ensures members == old(members) + {item}
    {
      added := item !in members;
      members := members + {item};
    }

    /** `remove`: true when the item was a member; afterwards it is not. */
    method Remove(item: int) returns (removed: bool)
      modifies this
      ensures removed <==> item in old(members)
      ensures members == old(members) - {item}
    {
      removed := item in members;
      members := members - {item};
    }

    /** `has`: membership, changing nothing. */
    method Has(item: int) returns (present: bool)
      ensures present <==> item in members
    {
      present := item in members;
    }

    /** `toggle`: true when the item was absent and is now a member. */
    method Toggle(item: int) returns (added: bool)
      modifies this
      ensures added <==> item !in old(members)
      ensures members == Toggled(old(members), item)
    {
      var present := item in members;
      if present {
        members := members - {item};
      } else {
        members := members + {item};
      }
      added := !present;
    }
  }

  class Pools {
    var count: int
    var entries: map<char, Pool>

    /** Each registered pool is owned by its entry: no pool object is shared by two identifiers. */
    ghost predicate Valid()
      reads this
    {
      forall a, b :: a in entries && b in entries && a != b ==> entries[a] != entries[b]
    }

    /** The registry as identifier to pool value. */
    ghost function View(): map<char, PoolState>
      reads this, entries.Values
    {
      map c | c in entries :: PoolState(entries[c].func, entries[c].members)
    }

    /** `Pools::new`: no pools, `count` 0. */
    constructor ()
      ensures Valid() && count == 0 && entries == map[] && View() == map[]
    {
      count := 0;
      entries := map[];
    }

    /**
     * `add_pool`: the identifier now names a fresh, empty pool with mutator
     * `func`, replacing (and losing the members of) any pool it named before;
     * every other identifier keeps its pool, and `count` is not touched.
     */
    method AddPool(identifier: char, func: int -> int)
      requires Valid()
      modifies this
      ensures Valid() && count == old(count)
      ensures identifier in entries && fresh(entries[identifier])
      ensures forall c :: c in old(entries) && c != identifier ==> c in entries && entries[c] == old(entries[c])
      ensures entries.Keys == old(entries.Keys) + {identifier}
      ensures View() == old(View())[identifier := PoolState(func, {})]
    {
      var pool := new Pool(func);
      entries := entries[identifier := pool];
    }

    /** The lookup the executor performs: the pool of an identifier, or an unknown-pool error. */
    function GetPool(identifier: char): (r: Result<Pool, PoolError>)
      reads this
      ensures r.Ok? <==> identifier in entries
      ensures r.Ok? ==> r.value == entries[identifier]
      ensures r.Err? ==> r.error == UnknownPool(identifier)
    {
      if identifier in entries then Ok(entries[identifier]) else Err(UnknownPool(identifier))
    }
  }
}
