/** One shard of the cache: reference counts, the list of unused entries in order of last use, the list of
    entries in use, and the charge they add up to. */
module LruCaches {
  import opened Keys
  import opened HandleTables

  /** An entry on the heap.  `refs` counts the clients' references and the cache's own. */
  datatype LRUHandle = LRUHandle(key: string, hash: nat, charge: nat, refs: nat, inCache: bool)
  {
    function Name(): (string, nat) { (key, hash) }
    function Clients(): int { refs - if inCache then 1 else 0 }
  }

  type Heap = map<nat, LRUHandle>

  ghost predicate NoDup(ids: seq<nat>) {
    forall i, j :: 0 <= i < j < |ids| ==> ids[i] != ids[j]
  }

  /** Unlinking an entry from a list it may be on. */
  function Without(ids: seq<nat>, id: nat): (r: seq<nat>)
    ensures id !in ids ==> r == ids
  {
    if ids == [] then []
    else if ids[0] == id then ids[1..]
    else [ids[0]] + Without(ids[1..], id)
  }

  lemma {:induction false} WithoutMembers(ids: seq<nat>, id: nat)
    requires NoDup(ids)
    ensures NoDup(Without(ids, id))
    ensures forall x :: x in Without(ids, id) <==> x in ids && x != id
  {
    if ids != [] {
      var rest := ids[1..];
      assert ids == [ids[0]] + rest;
      assert forall i :: 0 <= i < |rest| ==> rest[i] == ids[i + 1];
      assert ids[0] !in rest;
      if ids[0] != id {
        WithoutMembers(rest, id);
      }
    }
  }

  lemma AppendNoDup(ids: seq<nat>, id: nat)
    requires NoDup(ids) && id !in ids
    ensures NoDup(ids + [id])
  {
  }

  function Charge(heap: Heap, id: nat): nat {
    if id in heap then heap[id].charge else 0
  }

  /** The charges of the entries on a list. */
  ghost function Sum(ids: seq<nat>, heap: Heap): nat {
    if ids == [] then 0 else Charge(heap, ids[0]) + Sum(ids[1..], heap)
  }

  lemma {:induction false} SumAppend(ids: seq<nat>, heap: Heap, id: nat)
    ensures Sum(ids + [id], heap) == Sum(ids, heap) + Charge(heap, id)
  {
    if ids == [] {
      assert ids + [id] == [id];
    } else {
      assert (ids + [id])[1..] == ids[1..] + [id];
      SumAppend(ids[1..], heap, id);
    }
  }

  lemma {:induction false} SumWithout(ids: seq<nat>, heap: Heap, id: nat)
    ensures Sum(ids, heap) == Sum(Without(ids, id), heap) + (if id in ids then Charge(heap, id) else 0)
  {
    if ids != [] && ids[0] != id {
      SumWithout(ids[1..], heap, id);
      assert ([ids[0]] + Without(ids[1..], id))[1..] == Without(ids[1..], id);
    }
  }

  lemma {:induction false} SumSame(ids: seq<nat>, heap: Heap, heap2: Heap)
    requires forall id :: id in ids ==> Charge(heap, id) == Charge(heap2, id)
    ensures Sum(ids, heap) == Sum(ids, heap2)
  {
    if ids != [] {
      assert ids[0] in ids;
      SumSame(ids[1..], heap, heap2);
    }
  }

  // ---------------------------------------------------------------- the invariant, on values

  /** Every cached entry is on exactly one list: the in-use list if clients hold it, else the LRU
      list. */
  ghost predicate ListsOk(heap: Heap, lru: seq<nat>, inUse: seq<nat>) {
    && NoDup(lru) && NoDup(inUse)
    && (forall id :: id in lru <==> id in heap && heap[id].inCache && heap[id].refs == 1)
    && (forall id :: id in inUse <==> id in heap && heap[id].inCache && heap[id].refs >= 2)
    && (forall id :: id in heap ==> heap[id].refs >= 1)
  }

  /** The table maps names to cached entries, and has all of them except possibly `but`. */
  ghost predicate TableOk(heap: Heap, contents: map<(string, nat), nat>, but: Option<nat>) {
    && (forall n :: n in contents ==> contents[n] in heap && heap[contents[n]].inCache && heap[contents[n]].Name() == n
                                      && Some(contents[n]) != but)
    && (forall id :: id in heap && heap[id].inCache && Some(id) != but ==>
          heap[id].Name() in contents && contents[heap[id].Name()] == id)
  }

  /** Every entry ever made is on the heap or has been passed to its deleter, once. */
  ghost predicate FreedOk(heap: Heap, freed: seq<nat>, next: nat) {
    && NoDup(freed)
    && (forall id :: id in freed ==> id !in heap)
    && (forall id: nat :: id < next <==> id in heap || id in freed)
  }

  ghost predicate CacheOk(heap: Heap, lru: seq<nat>, inUse: seq<nat>, usage: nat, freed: seq<nat>, next: nat) {
    && ListsOk(heap, lru, inUse)
    && usage == Sum(lru, heap) + Sum(inUse, heap)
    && FreedOk(heap, freed, next)
  }

  // ---------------------------------------------------------------- leaving the cache

  /** The entries once `id` has left the cache: gone if only the cache held it. */
  ghost function HeapWithout(heap: Heap, id: Option<nat>): Heap {
    if id.None? || id.value !in heap then heap
    else
      var e := heap[id.value];
      if e.refs <= 1 then heap - {id.value} else heap[id.value := e.(refs := e.refs - 1, inCache := false)]
  }

  /** The deleters that have run once `id` has left the cache. */
  ghost function FreedWith(heap: Heap, freed: seq<nat>, id: Option<nat>): seq<nat> {
    if id.Some? && id.value in heap && heap[id.value].refs <= 1 then freed + [id.value] else freed
  }

  ghost function ListWithout(ids: seq<nat>, id: Option<nat>): seq<nat> {
    if id.None? then ids else Without(ids, id.value)
  }

  /** The entry under a name. */
  ghost function Named(contents: map<(string, nat), nat>, name: (string, nat)): Option<nat> {
    if name in contents then Some(contents[name]) else None
  }

  class LRUCache {
    var capacity: nat
    var usage: nat
    var heap: Heap
    /** Oldest first. */
    var lru: seq<nat>
    var inUse: seq<nat>
    const table: HandleTable
    /** The entries whose deleter has run, and the next address to hand out. */
    ghost var freed: seq<nat>
    var next: nat

    ghost predicate Base()
      reads this
    {
      CacheOk(heap, lru, inUse, usage, freed, next)
    }

    ghost predicate Valid()
      reads this, table
    {
      Base() && table.Valid() && TableOk(heap, table.contents, None)
    }

    constructor (capacity: nat)
      ensures Valid() && fresh(table) && table.contents == map[] && heap == map[] && this.capacity == capacity
    {
      this.capacity, usage, heap, lru, inUse, freed, next := capacity, 0, map[], [], [], [], 0;
      table := new HandleTable();
      new;
      EmptyCache();
      hide CacheOk, TableOk, HandleTable.Valid;
    }

    /** Takes a reference; an entry that only the cache held moves to the in-use list. */
    method Ref(id: nat)
      requires Base() && id in heap
      modifies this`heap, this`lru, this`inUse
      ensures Base() && heap == old(heap)[id := old(heap)[id].(refs := old(heap)[id].refs + 1)]
      ensures lru == Without(old(lru), id)
    {
      var e := heap[id];
      ghost var h, l, u := heap, lru, inUse;
      if e.refs == 1 && e.inCache {
        lru := Without(lru, id);
        inUse := inUse + [id];
      }
      heap := heap[id := e.(refs := e.refs + 1)];
      RefKeeps(h, l, u, usage, freed, next, id);
    }

    /** Drops a reference: the last one runs the deleter, the last client's one returns the entry to the
        LRU list as its newest. */
    method Unref(id: nat)
      requires Base() && id in heap && heap[id].Clients() > 0
      modifies this`heap, this`lru, this`inUse, this`freed
      ensures Base()
      ensures var e := old(heap)[id];
              if e.refs == 1 then heap == old(heap) - {id} && freed == old(freed) + [id] && lru == old(lru)
              else heap == old(heap)[id := e.(refs := e.refs - 1)] && freed == old(freed)
                   && lru == if e.inCache && e.refs == 2 then old(lru) + [id] else old(lru)
    {
      var e := heap[id];
      ghost var h, l, u, f := heap, lru, inUse, freed;
      if e.refs == 1 {
        heap := heap - {id};
        freed := freed + [id];
        FreeKeeps(h, l, u, usage, f, next, id);
      } else {
        heap := heap[id := e.(refs := e.refs - 1)];
        if e.inCache && e.refs == 2 {
          inUse := Without(inUse, id);
          lru := lru + [id];
        }
        UnrefKeeps(h, l, u, usage, f, next, id);
      }
    }

    /** Takes an entry that has left the table out of the cache. */
    method FinishErase(id: Option<nat>)
      requires Base() && table.Valid() && TableOk(heap, table.contents, id)
      requires id.Some? ==> id.value in heap && heap[id.value].inCache
      modifies this`heap, this`lru, this`inUse, this`freed, this`usage
      ensures Valid()
      ensures heap == HeapWithout(old(heap), id) && lru == ListWithout(old(lru), id)
              && freed == FreedWith(old(heap), old(freed), id)
      ensures usage == old(usage) - (if id.Some? then old(heap)[id.value].charge else 0)
    {
      hide CacheOk, TableOk, HandleTable.Valid;
      if id.Some? {
        var e := heap[id.value];
        PositiveRefs(heap, lru, inUse, usage, freed, next, id.value);
        EraseKeeps(heap, lru, inUse, usage, freed, next, id.value);
        lru := Without(lru, id.value);
        inUse := Without(inUse, id.value);
        usage := usage - e.charge;
        if e.refs == 1 {
          TableErased(heap, table.contents, id.value, e.(inCache := false));
          heap := heap - {id.value};
          freed := freed + [id.value];
        } else {
          TableErased(heap, table.contents, id.value, e.(refs := e.refs - 1, inCache := false));
          heap := heap[id.value := e.(refs := e.refs - 1, inCache := false)];
        }
      }
    }

    /** Returns the entry under the name, with a reference for the caller. */
    method Lookup(key: string, hash: nat) returns (id: Option<nat>)
      requires Valid()
      modifies this`heap, this`lru, this`inUse
      ensures Valid()
      ensures id == if (key, hash) in table.contents then Some(table.contents[(key, hash)]) else None
      ensures id.None? ==> heap == old(heap)
      ensures id.Some? ==>
                && id.value in old(heap)
                && heap == old(heap)[id.value := old(heap)[id.value].(refs := old(heap)[id.value].refs + 1)]
    {
      hide CacheOk, TableOk, HandleTable.Valid;
      id := table.Lookup(key, hash);
      ghost var h := heap;
      if id.Some? {
        InTable(heap, table.contents, (key, hash));
        Ref(id.value);
        TableSame(h, heap, table.contents, None);
      }
    }

    method Release(id: nat)
      requires Valid() && id in heap && heap[id].Clients() > 0
      modifies this`heap, this`lru, this`inUse, this`freed
      ensures Valid()
      ensures var e := old(heap)[id];
              if e.refs == 1 then heap == old(heap) - {id} && freed == old(freed) + [id]
              else heap == old(heap)[id := e.(refs := e.refs - 1)] && freed == old(freed)
    {
      ghost var h := heap;
      hide CacheOk, HandleTable.Valid;
      Unref(id);
      if h[id].refs == 1 {
        TableFreed(h, table.contents, id);
      } else {
        TableSame(h, heap, table.contents, None);
      }
    }

    /** Takes the entry under the name out of the cache; clients keep their references to it. */
    method Erase(key: string, hash: nat)
      requires Valid()
      modifies this`heap, this`lru, this`inUse, this`freed, this`usage, table
      ensures Valid() && table.contents == old(table.contents) - {(key, hash)}
      ensures var id := Named(old(table.contents), (key, hash));
              && heap == HeapWithout(old(heap), id) && lru == ListWithout(old(lru), id)
              && freed == FreedWith(old(heap), old(freed), id)
    {
      hide CacheOk, TableOk, HandleTable.Valid;
      ghost var before := table.contents;
      var id := table.Remove(key, hash);
      RemovedFromTable(heap, before, (key, hash), id);
      FinishErase(id);
    }

    /** Evicts the oldest unused entry. */
    method EvictOldest()
      requires Valid() && lru != []
      modifies this`heap, this`lru, this`inUse, this`freed, this`usage, table
      ensures Valid() && lru == old(lru)[1..] && old(lru)[0] in old(heap)
      ensures heap == old(heap) - {old(lru)[0]} && freed == old(freed) + [old(lru)[0]]
      ensures usage == old(usage) - old(heap)[old(lru)[0]].charge
      ensures table.contents == old(table.contents) - {old(heap)[old(lru)[0]].Name()}
    {
      hide CacheOk, TableOk, HandleTable.Valid;
      var id := lru[0];
      OldestUnused(heap, lru, inUse, usage, freed, next);
      var e := heap[id];
      CachedInTable(heap, table.contents, id);
      ghost var before := table.contents;
      var removed := table.Remove(e.key, e.hash);
      RemovedFromTable(heap, before, e.Name(), removed);
      FinishErase(removed);
    }

    /** Enters a value under the name, in place of the entry that had it.  Then entries are evicted, oldest
        first and as many as it takes, until the cache is within its capacity or holds nothing that could
        be evicted. */
    method Insert(key: string, hash: nat, charge: nat) returns (id: nat, ghost evicted: nat)
      requires Valid()
      modifies this`heap, this`lru, this`inUse, this`freed, this`usage, this`next, table
      ensures Valid() && id == old(next) && id in heap
      ensures heap[id] == LRUHandle(key, hash, charge, if capacity > 0 then 2 else 1, capacity > 0)
      ensures capacity > 0 ==> Named(table.contents, (key, hash)) == Some(id)
      ensures usage <= capacity || lru == []
      ensures var replaced := if capacity > 0 then Named(old(table.contents), (key, hash)) else None;
              var kept := ListWithout(old(lru), replaced);
              && evicted <= |kept| && lru == kept[evicted..]
              && freed == FreedWith(old(heap), old(freed), replaced) + kept[..evicted]
              && (evicted > 0 ==>
                    && kept[evicted - 1] in old(heap)
                    && usage + old(heap)[kept[evicted - 1]].charge > capacity)
              && (forall x :: x in heap <==>
                   x == id || (x in HeapWithout(old(heap), replaced) && x !in kept[..evicted]))
              && (forall x :: x in heap && x != id ==> heap[x] == HeapWithout(old(heap), replaced)[x])
    {
      hide CacheOk, TableOk, HandleTable.Valid, HeapWithout, FreedWith, ListWithout;
      ghost var replaced := if capacity > 0 then Named(table.contents, (key, hash)) else None;
      ghost var h, l, f := HeapWithout(heap, replaced), ListWithout(lru, replaced), FreedWith(heap, freed, replaced);
      ghost var h0 := heap;
      NextUnused(heap, lru, inUse, usage, freed, next, replaced);
      id := Enter(key, hash, charge);
      evicted := 0;
      while usage > capacity && lru != []
        invariant Valid() && id in heap && id !in lru
                  && heap[id] == LRUHandle(key, hash, charge, if capacity > 0 then 2 else 1, capacity > 0)
        invariant evicted <= |l| && lru == l[evicted..] && freed == f + l[..evicted]
        invariant evicted > 0 ==> l[evicted - 1] in h && usage + h[l[evicted - 1]].charge > capacity
        invariant forall x :: x in heap <==> x == id || (x in h && x !in l[..evicted])
        invariant forall x :: x in heap && x != id ==> heap[x] == h[x]
        decreases |lru|
      {
        assert l[..evicted + 1] == l[..evicted] + [l[evicted]] && lru[0] == l[evicted];
        EvictOldest();
        evicted := evicted + 1;
      }
      SameCharge(h0, replaced, if evicted > 0 then l[evicted - 1] else 0);
      if capacity > 0 {
        CachedInTable(heap, table.contents, id);
      }
    }

    method Enter(key: string, hash: nat, charge: nat) returns (id: nat)
      requires Valid()
      modifies this`heap, this`lru, this`inUse, this`freed, this`usage, this`next, table
      ensures Valid() && id == old(next) && id in heap && id !in lru
      ensures var replaced := if capacity > 0 then Named(old(table.contents), (key, hash)) else None;
              var e := LRUHandle(key, hash, charge, if capacity > 0 then 2 else 1, capacity > 0);
              && heap == HeapWithout(old(heap), replaced)[id := e] && lru == ListWithout(old(lru), replaced)
              && freed == FreedWith(old(heap), old(freed), replaced)
      ensures table.contents == if capacity > 0 then old(table.contents)[(key, hash) := id] else old(table.contents)
    {
      hide CacheOk, TableOk, HandleTable.Valid;
      id := next;
      if capacity > 0 {
        EnterCached(LRUHandle(key, hash, charge, 2, true));
      } else {
        var e := LRUHandle(key, hash, charge, 1, false);
        EnterKeeps(heap, lru, inUse, usage, freed, id, e);
        TableAdds(heap, table.contents, id, e);
        next := next + 1;
        heap := heap[id := e];
      }
      NotUnused(heap, lru, inUse, usage, freed, next, id);
    }

    method EnterCached(e: LRUHandle)
      requires Valid() && e.refs == 2 && e.inCache
      modifies this`heap, this`lru, this`inUse, this`freed, this`usage, this`next, table
      ensures Valid() && next == old(next) + 1
      ensures var replaced := Named(old(table.contents), e.Name());
              && heap == HeapWithout(old(heap), replaced)[old(next) := e] && lru == ListWithout(old(lru), replaced)
              && freed == FreedWith(old(heap), old(freed), replaced)
      ensures table.contents == old(table.contents)[e.Name() := old(next)]
    {
      hide CacheOk, TableOk, HandleTable.Valid;
      var id := next;
      EnterKeeps(heap, lru, inUse, usage, freed, id, e);
      ghost var h, before := heap, table.contents;
      var previous := table.Insert(Handle(id, e.key, e.hash));
      EnteredTable(h, before, id, e, previous);
      next := next + 1;
      heap := heap[id := e];
      inUse := inUse + [id];
      usage := usage + e.charge;
      FinishErase(previous);
      Swapped(h, id, e, previous);
    }

    /** Drops everything no client holds. */
    method Prune()
      requires Valid()
      modifies this`heap, this`lru, this`inUse, this`freed, this`usage, table
      ensures Valid() && lru == [] && freed == old(freed) + old(lru)
      ensures forall x :: x in heap <==> x in old(heap) && x !in old(lru)
      ensures forall x :: x in heap ==> heap[x] == old(heap)[x]
    {
      hide CacheOk, TableOk, HandleTable.Valid;
      ghost var h, l, f := heap, lru, freed;
      ghost var n := 0;
      while lru != []
        invariant Valid() && n <= |l| && lru == l[n..] && freed == f + l[..n]
        invariant forall x :: x in heap <==> x in h && x !in l[..n]
        invariant forall x :: x in heap ==> heap[x] == h[x]
        decreases |lru|
      {
        assert l[..n + 1] == l[..n] + [l[n]] && lru[0] == l[n];
        EvictOldest();
        n := n + 1;
      }
    }
  }

  // ---------------------------------------------------------------- steps

  lemma ListParts(heap: Heap, lru: seq<nat>, inUse: seq<nat>, id: nat)
    requires ListsOk(heap, lru, inUse)
    ensures NoDup(lru) && NoDup(inUse)
    ensures id in lru <==> id in heap && heap[id].inCache && heap[id].refs == 1
    ensures id in inUse <==> id in heap && heap[id].inCache && heap[id].refs >= 2
    ensures id in heap ==> heap[id].refs >= 1
  {
    hide NoDup;
  }

  /** Replacing an entry moves it to the list it now belongs to. */
  lemma ListsMove(heap: Heap, lru: seq<nat>, inUse: seq<nat>, id: nat, e: LRUHandle, lru2: seq<nat>, inUse2: seq<nat>)
    requires ListsOk(heap, lru, inUse) && e.refs >= 1 && NoDup(lru2) && NoDup(inUse2)
    requires forall x :: x in lru2 <==> (x in lru && x != id) || (x == id && e.inCache && e.refs == 1)
    requires forall x :: x in inUse2 <==> (x in inUse && x != id) || (x == id && e.inCache && e.refs >= 2)
    ensures ListsOk(heap[id := e], lru2, inUse2)
  {
    hide NoDup;
  }

  lemma ListsDrop(heap: Heap, lru: seq<nat>, inUse: seq<nat>, id: nat, lru2: seq<nat>, inUse2: seq<nat>)
    requires ListsOk(heap, lru, inUse) && NoDup(lru2) && NoDup(inUse2)
    requires forall x :: x in lru2 <==> x in lru && x != id
    requires forall x :: x in inUse2 <==> x in inUse && x != id
    ensures ListsOk(heap - {id}, lru2, inUse2)
  {
    hide NoDup;
  }

  lemma FreedSame(heap: Heap, heap2: Heap, freed: seq<nat>, next: nat)
    requires FreedOk(heap, freed, next) && heap2.Keys == heap.Keys
    ensures FreedOk(heap2, freed, next)
  {
    hide NoDup;
    assert forall x :: x in heap2 <==> x in heap2.Keys;
  }

  lemma FreedMore(heap: Heap, freed: seq<nat>, next: nat, id: nat)
    requires FreedOk(heap, freed, next) && id in heap
    ensures FreedOk(heap - {id}, freed + [id], next)
  {
    AppendNoDup(freed, id);
    hide NoDup;
  }

  lemma SameCharges(heap: Heap, heap2: Heap, a: seq<nat>, b: seq<nat>)
    requires forall x :: x in a + b ==> Charge(heap, x) == Charge(heap2, x)
    ensures Sum(a, heap2) == Sum(a, heap) && Sum(b, heap2) == Sum(b, heap)
  {
    assert forall x :: x in a || x in b ==> x in a + b;
    hide Charge;
    SumSame(a, heap, heap2);
    SumSame(b, heap, heap2);
  }

  lemma PositiveRefs(heap: Heap, lru: seq<nat>, inUse: seq<nat>, usage: nat, freed: seq<nat>, next: nat, id: nat)
    requires CacheOk(heap, lru, inUse, usage, freed, next) && id in heap
    ensures heap[id].refs >= 1
  {
  }

  /** The next address is not in use. */
  lemma NextUnused(heap: Heap, lru: seq<nat>, inUse: seq<nat>, usage: nat, freed: seq<nat>, next: nat, id: Option<nat>)
    requires CacheOk(heap, lru, inUse, usage, freed, next)
    ensures next !in HeapWithout(heap, id)
  {
    hide Sum, NoDup, ListsOk;
  }

  lemma NotUnused(heap: Heap, lru: seq<nat>, inUse: seq<nat>, usage: nat, freed: seq<nat>, next: nat, id: nat)
    requires CacheOk(heap, lru, inUse, usage, freed, next) && id in heap && (heap[id].inCache ==> heap[id].refs != 1)
    ensures id !in lru
  {
    hide Sum, NoDup, FreedOk;
  }

  lemma SameCharge(heap: Heap, id: Option<nat>, x: nat)
    ensures x in HeapWithout(heap, id) ==> x in heap && heap[x].charge == HeapWithout(heap, id)[x].charge
  {
  }

  /** Entering one entry and dropping another can be done in either order. */
  lemma Swapped(heap: Heap, id: nat, e: LRUHandle, previous: Option<nat>)
    requires previous.Some? ==> previous.value != id
    ensures HeapWithout(heap[id := e], previous) == HeapWithout(heap, previous)[id := e]
  {
  }

  lemma EmptyCache()
    ensures CacheOk(map[], [], [], 0, [], 0) && TableOk(map[], map[], None)
  {
  }

  lemma RefKeeps(heap: Heap, lru: seq<nat>, inUse: seq<nat>, usage: nat, freed: seq<nat>, next: nat, id: nat)
    requires CacheOk(heap, lru, inUse, usage, freed, next) && id in heap
    ensures var e := heap[id];
            var heap2 := heap[id := e.(refs := e.refs + 1)];
            if e.refs == 1 && e.inCache then CacheOk(heap2, Without(lru, id), inUse + [id], usage, freed, next)
            else CacheOk(heap2, lru, inUse, usage, freed, next) && Without(lru, id) == lru
  {
    hide Sum, Without, NoDup, ListsOk, FreedOk;
    var e := heap[id];
    var heap2 := heap[id := e.(refs := e.refs + 1)];
    ListParts(heap, lru, inUse, id);
    FreedSame(heap, heap2, freed, next);
    WithoutMembers(lru, id);
    if e.refs == 1 && e.inCache {
      AppendNoDup(inUse, id);
      ListsMove(heap, lru, inUse, id, heap2[id], Without(lru, id), inUse + [id]);
      SumWithout(lru, heap, id);
      SumAppend(inUse, heap, id);
      SameCharges(heap, heap2, Without(lru, id), inUse + [id]);
    } else {
      ListsMove(heap, lru, inUse, id, heap2[id], lru, inUse);
      SameCharges(heap, heap2, lru, inUse);
    }
  }

  lemma UnrefKeeps(heap: Heap, lru: seq<nat>, inUse: seq<nat>, usage: nat, freed: seq<nat>, next: nat, id: nat)
    requires CacheOk(heap, lru, inUse, usage, freed, next) && id in heap && heap[id].refs >= 2
    ensures var e := heap[id];
            var heap2 := heap[id := e.(refs := e.refs - 1)];
            if e.inCache && e.refs == 2 then CacheOk(heap2, lru + [id], Without(inUse, id), usage, freed, next)
            else CacheOk(heap2, lru, inUse, usage, freed, next)
  {
    hide Sum, Without, NoDup, ListsOk, FreedOk;
    var e := heap[id];
    var heap2 := heap[id := e.(refs := e.refs - 1)];
    ListParts(heap, lru, inUse, id);
    FreedSame(heap, heap2, freed, next);
    if e.inCache && e.refs == 2 {
      WithoutMembers(inUse, id);
      AppendNoDup(lru, id);
      ListsMove(heap, lru, inUse, id, heap2[id], lru + [id], Without(inUse, id));
      SumWithout(inUse, heap, id);
      SumAppend(lru, heap, id);
      SameCharges(heap, heap2, lru + [id], Without(inUse, id));
    } else {
      ListsMove(heap, lru, inUse, id, heap2[id], lru, inUse);
      SameCharges(heap, heap2, lru, inUse);
    }
  }

  lemma FreeKeeps(heap: Heap, lru: seq<nat>, inUse: seq<nat>, usage: nat, freed: seq<nat>, next: nat, id: nat)
    requires CacheOk(heap, lru, inUse, usage, freed, next) && id in heap && !heap[id].inCache
    ensures CacheOk(heap - {id}, lru, inUse, usage, freed + [id], next)
  {
    hide Sum, NoDup, ListsOk, FreedOk;
    ListParts(heap, lru, inUse, id);
    ListsDrop(heap, lru, inUse, id, lru, inUse);
    SameCharges(heap, heap - {id}, lru, inUse);
    FreedMore(heap, freed, next, id);
  }

  lemma EraseKeeps(heap: Heap, lru: seq<nat>, inUse: seq<nat>, usage: nat, freed: seq<nat>, next: nat, id: nat)
    requires CacheOk(heap, lru, inUse, usage, freed, next) && id in heap && heap[id].inCache
    ensures heap[id].charge <= usage
    ensures var e := heap[id];
            var usage2 := usage - e.charge;
            if e.refs == 1 then CacheOk(heap - {id}, Without(lru, id), Without(inUse, id), usage2, freed + [id], next)
            else CacheOk(heap[id := e.(refs := e.refs - 1, inCache := false)],
                Without(lru, id), Without(inUse, id), usage2, freed, next)
  {
    hide Sum, Without, NoDup, ListsOk, FreedOk;
    var e := heap[id];
    ListParts(heap, lru, inUse, id);
    WithoutMembers(lru, id);
    WithoutMembers(inUse, id);
    SumWithout(lru, heap, id);
    SumWithout(inUse, heap, id);
    if e.refs == 1 {
      ListsDrop(heap, lru, inUse, id, Without(lru, id), Without(inUse, id));
      SameCharges(heap, heap - {id}, Without(lru, id), Without(inUse, id));
      FreedMore(heap, freed, next, id);
    } else {
      var heap2 := heap[id := e.(refs := e.refs - 1, inCache := false)];
      ListsMove(heap, lru, inUse, id, heap2[id], Without(lru, id), Without(inUse, id));
      SameCharges(heap, heap2, Without(lru, id), Without(inUse, id));
      FreedSame(heap, heap2, freed, next);
    }
  }

  lemma EnterKeeps(heap: Heap, lru: seq<nat>, inUse: seq<nat>, usage: nat, freed: seq<nat>, id: nat, e: LRUHandle)
    requires CacheOk(heap, lru, inUse, usage, freed, id)
    requires e.refs == if e.inCache then 2 else 1
    ensures id !in heap
    ensures if e.inCache then CacheOk(heap[id := e], lru, inUse + [id], usage + e.charge, freed, id + 1)
            else CacheOk(heap[id := e], lru, inUse, usage, freed, id + 1)
  {
    var heap2 := heap[id := e];
    assert id !in heap && FreedOk(heap2, freed, id + 1) by {
      hide ListsOk, NoDup, Sum;
    }
    hide Sum, NoDup, ListsOk, FreedOk;
    ListParts(heap, lru, inUse, id);
    SameCharges(heap, heap2, lru, inUse);
    if e.inCache {
      AppendNoDup(inUse, id);
      ListsMove(heap, lru, inUse, id, e, lru, inUse + [id]);
      SumAppend(inUse, heap2, id);
    } else {
      ListsMove(heap, lru, inUse, id, e, lru, inUse);
    }
  }

  /** References do not matter to the table. */
  lemma TableSame(heap: Heap, heap2: Heap, contents: map<(string, nat), nat>, but: Option<nat>)
    requires TableOk(heap, contents, but) && heap2.Keys == heap.Keys
    requires forall id :: id in heap ==> heap2[id].Name() == heap[id].Name() && heap2[id].inCache == heap[id].inCache
    ensures TableOk(heap2, contents, but)
  {
    assert forall x :: x in heap2 <==> x in heap2.Keys;
  }

  /** The entry the table no longer has leaves the cache. */
  lemma TableErased(heap: Heap, contents: map<(string, nat), nat>, id: nat, e: LRUHandle)
    requires TableOk(heap, contents, Some(id)) && !e.inCache
    ensures TableOk(heap - {id}, contents, None) && TableOk(heap[id := e], contents, None)
  {
  }

  lemma InTable(heap: Heap, contents: map<(string, nat), nat>, name: (string, nat))
    requires TableOk(heap, contents, None) && name in contents
    ensures contents[name] in heap
  {
  }

  lemma CachedInTable(heap: Heap, contents: map<(string, nat), nat>, id: nat)
    requires TableOk(heap, contents, None) && id in heap && heap[id].inCache
    ensures heap[id].Name() in contents && contents[heap[id].Name()] == id
  {
  }

  lemma OldestUnused(heap: Heap, lru: seq<nat>, inUse: seq<nat>, usage: nat, freed: seq<nat>, next: nat)
    requires CacheOk(heap, lru, inUse, usage, freed, next) && lru != []
    ensures lru[0] in heap && heap[lru[0]].inCache && heap[lru[0]].refs == 1
  {
    assert lru[0] in lru;
    hide Sum, NoDup;
  }

  lemma TableFreed(heap: Heap, contents: map<(string, nat), nat>, id: nat)
    requires TableOk(heap, contents, None) && (id in heap ==> !heap[id].inCache)
    ensures TableOk(heap - {id}, contents, None)
  {
  }

  lemma TableAdds(heap: Heap, contents: map<(string, nat), nat>, id: nat, e: LRUHandle)
    requires TableOk(heap, contents, None) && id !in heap && !e.inCache
    ensures TableOk(heap[id := e], contents, None)
  {
  }

  lemma RemovedFromTable(heap: Heap, contents: map<(string, nat), nat>, name: (string, nat), id: Option<nat>)
    requires TableOk(heap, contents, None)
    requires id == if name in contents then Some(contents[name]) else None
    ensures TableOk(heap, contents - {name}, id)
    ensures id.Some? ==> id.value in heap && heap[id.value].inCache
  {
  }

  lemma EnteredTable(heap: Heap, contents: map<(string, nat), nat>, id: nat, e: LRUHandle, previous: Option<nat>)
    requires TableOk(heap, contents, None) && id !in heap && e.inCache
    requires previous == if e.Name() in contents then Some(contents[e.Name()]) else None
    ensures TableOk(heap[id := e], contents[e.Name() := id], previous)
    ensures previous.Some? ==> previous.value in heap && heap[previous.value].inCache && previous.value != id
  {
  }
}
