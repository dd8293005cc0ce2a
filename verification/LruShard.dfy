/**
 The LRU cache shard in memory: the list, the hash table, the flags and counts kept in the entries, and the counters. Every
 method is proved to do to the represented value what LruModel says.
 */
module LruShards {
  import opened LruHandles
  import LruLaws
  import opened LruLists
  import opened LruModel
  import opened Sequences
  import opened Sums
  import HandleTables

  /** The flags and the count of every entry are those recorded for it. */
  ghost predicate Tagged(all: set<Handle>, refs: map<Handle, nat>, cached: map<Id, Handle>, hits: set<Handle>)
    reads all`refs, all`inCache, all`hasHit
  {
    forall h {:trigger TagOf(h, refs, cached, hits)} :: h in all ==> TagOf(h, refs, cached, hits)
  }

  ghost predicate TagOf(h: Handle, refs: map<Handle, nat>, cached: map<Id, Handle>, hits: set<Handle>)
    reads h`refs, h`inCache, h`hasHit
  {
    h.refs == (if h in refs then refs[h] else 0) && (h.inCache <==> InCache(cached, h)) && (h.hasHit <==> h in hits)
  }

  ghost predicate HeldSeen(refs: map<Handle, nat>, all: set<Handle>, lru: Handle)
  {
    lru !in refs && forall h {:trigger Seen(h, all)} :: h in refs ==> Seen(h, all)
  }

  ghost predicate AllIn(members: set<Handle>, all: set<Handle>)
  {
    forall h {:trigger Seen(h, all)} :: h in members ==> Seen(h, all)
  }

  class LruShard {
    var capacity: nat
    var strict: bool
    var ratio: real
    var poolCapacity: real
    const list: LruList
    const table: HandleTables.HandleTable
    var usage: int
    /** The entries whose deleters have been called, in order. */
    var freed: seq<Handle>
    /** What the memory represents. */
    ghost var s: Shard

    ghost predicate Rep(t: Shard)
      reads this`usage, this`capacity, this`strict, this`ratio, this`poolCapacity, this`freed
      reads list, list.all, table, table.list, table.members
    {
      && list.Valid() && list.ring == t.ring && list.low == t.low
      && list.lruUsage == t.lruUsage && list.poolUsage == t.poolUsage
      && table.Valid() && table.contents == t.cached && AllIn(table.members, list.all)
      && Tagged(list.all, t.refs, t.cached, t.hits) && HeldSeen(t.refs, list.all, list.lru)
      && usage == t.usage && capacity == t.capacity && strict == t.strict && ratio == t.ratio && poolCapacity == t.poolCapacity
      && freed == t.freed
    }

    ghost predicate Valid()
      reads this, list, list.all, table, table.list, table.members
    {
      Kept(s) && Rep(s)
    }

    constructor (capacity: nat, strict: bool, ratio: real, maxUpperHashBits: nat)
      ensures Valid() && s == Init(capacity, strict, ratio)
      ensures s.capacity == capacity && s.strict == strict && s.ratio == ratio && s.poolCapacity == capacity as real * ratio
      ensures s.ring == s.pinned == s.freed == [] && s.cached == map[] && s.usage == 0
      ensures fresh(list) && fresh(list.all) && fresh(table) && fresh(table.list) && fresh(table.members)
    {
      this.capacity := capacity;
      this.strict := strict;
      this.ratio := ratio;
      poolCapacity := PoolCapacity(capacity, ratio);
      list := new LruList();
      table := new HandleTables.HandleTable(maxUpperHashBits);
      usage := 0;
      freed := [];
      s := Init(capacity, strict, ratio);
      new;
      InitSound(capacity, strict, ratio);
      assert TagOf(list.lru, s.refs, s.cached, s.hits);
    }

    /** The represented value has changed to t. */
    ghost method Represent(t: Shard)
      requires Rep(t) && Kept(t)
      modifies this`s
      ensures Valid() && s == t
    {
      s := t;
    }

    // ---------------------------------------------------------------- single changes

    /** LRU_Remove */
    method TakeOffList(e: Handle, ghost t: Shard, ghost k: nat)
      requires Rep(t) && k < |t.ring| && t.ring[k] == e && Removable(t, k)
      modifies list`lowPri, list`lruUsage, list`poolUsage, list`ring, list`low, list.all`next, list.all`prev
      ensures Rep(Removed(t, k))
    {
      list.Remove(e, k);
    }

    /** LRU_Insert */
    method PutOnList(e: Handle, ghost t: Shard)
      requires Rep(t) && e in list.all && e !in t.ring && e != list.lru
      requires Balanced(t) && PoolOk(t.ratio, t.poolCapacity)
      modifies list`lowPri, list`lruUsage, list`poolUsage, list`ring, list`low
      modifies list.all`next, list.all`prev, list.all`inHighPriPool
      ensures Rep(Entered(t, e))
    {
      assert TagOf(e, t.refs, t.cached, t.hits);
      EnteredFrame(t, e);
      EnteredPlan(t, e);
      list.Enter(e, ratio > 0.0 && (e.highPri || e.hasHit), poolCapacity, t, Entered(t, e));
    }

    /** Takes an entry out of the table, all of whose entries are known to the list. */
    method TakeFromTable(id: Id) returns (e: Handle?)
      requires table.Valid() && AllIn(table.members, list.all)
      modifies table`elems, table`chains, table`members, table`contents, table.list, list.all`nextHash
      ensures table.Valid() && table.contents == old(table.contents) - {id} && AllIn(table.members, list.all)
      ensures e == HandleTables.Mapped(old(table.contents), id) && (e != null ==> e in list.all && e.id == id)
    {
      MembersSeen(table.members, list.all);
      e := table.Remove(id);
    }

    method MapOut(id: Id, ghost t: Shard) returns (e: Handle?)
      requires Rep(t)
      modifies table`elems, table`chains, table`members, table`contents, table.list, list.all`nextHash
      ensures list.Valid() && table.Valid() && table.contents == t.cached - {id} && AllIn(table.members, list.all)
      ensures Tagged(list.all, t.refs, t.cached, t.hits)
      ensures if id in t.cached then e == t.cached[id] && e in list.all && e.id == id else e == null
    {
      e := TakeFromTable(id);
    }

    /** Takes an entry out of the table and clears its flag. */
    method Unmap(id: Id, ghost t: Shard) returns (e: Handle?)
      requires Rep(t)
      modifies table`elems, table`chains, table`members, table`contents, table.list, list.all`nextHash, list.all`inCache
      ensures Rep(t.(cached := t.cached - {id}))
      ensures if id in t.cached then e == t.cached[id] && e in list.all && e.id == id else e == null
    {
      e := MapOut(id, t);
      if e != null {
        Unflag(e, t);
      } else {
        assert t.cached - {id} == t.cached;
      }
    }

    method Unflag(e: Handle, ghost t: Shard)
      requires list.Valid() && table.Valid() && Tagged(list.all, t.refs, t.cached, t.hits)
      requires e in list.all && InCache(t.cached, e)
      modifies e`inCache
      ensures list.Valid() && table.Valid() && Tagged(list.all, t.refs, t.cached - {e.id}, t.hits)
    {
      e.inCache := false;
      ghost var cached' := t.cached - {e.id};
      forall h | h in list.all ensures TagOf(h, t.refs, cached', t.hits) {
        assert old(TagOf(h, t.refs, t.cached, t.hits));
      }
    }

    /** An entry as Insert makes it, before it goes anywhere. */
    ghost predicate Blank(e: Handle, t: Shard)
      reads e, list`all
    {
      && e !in list.all && e !in t.refs && e !in t.hits && e.next == null && e.prev == null
      && e.refs == 0 && e.inCache && !e.hasHit
    }

    method TableIn(e: Handle, ghost t: Shard) returns (prior: Handle?)
      requires Rep(t) && Blank(e, t)
      modifies table`lengthBits, table`list, table`elems, table`chains, table`members, table`contents
      modifies table.list, list.all`nextHash, e`nextHash
      ensures list.Valid() && table.Valid() && table.contents == t.cached[e.id := e] && AllIn(table.members, list.all + {e})
      ensures Tagged(list.all, t.refs, t.cached, t.hits)
      ensures if e.id in t.cached then prior == t.cached[e.id] && prior in list.all && prior.id == e.id else prior == null
      ensures table.list == old(table.list) || fresh(table.list)
    {
      MembersSeen(table.members, list.all);
      PriorSeen(e.id);
      prior := table.Insert(e);
      assert list.Valid();
      assert Tagged(list.all, t.refs, t.cached, t.hits);
      SwappedSeen(old(table.members), prior, e, list.all);
    }

    lemma PriorSeen(id: Id)
      requires table.Valid() && table.members <= list.all
      ensures id in table.contents ==> table.contents[id] in list.all && table.contents[id].id == id
    {
      if id in table.contents {
        table.Holds(id);
      }
    }

    /** Puts a new entry in the table, clearing the flag of the one it displaces. */
    method MapIn(e: Handle, ghost t: Shard) returns (prior: Handle?)
      requires Rep(t) && Blank(e, t)
      modifies table`lengthBits, table`list, table`elems, table`chains, table`members, table`contents
      modifies table.list, list`all, list.all`nextHash, e`nextHash, list.all`inCache
      ensures Rep(t.(cached := t.cached[e.id := e])) && list.all == old(list.all) + {e} && e != list.lru
      ensures if e.id in t.cached then prior == t.cached[e.id] && prior in list.all && prior.id == e.id else prior == null
      ensures table.list == old(table.list) || fresh(table.list)
    {
      prior := TableIn(e, t);
      Admit(e, t);
      if prior != null {
        prior.inCache := false;
      }
      ghost var cached' := t.cached[e.id := e];
      forall h | h in list.all ensures TagOf(h, t.refs, cached', t.hits) {
        assert h != e ==> old(TagOf(h, t.refs, t.cached, t.hits));
      }
    }

    ghost method Admit(e: Handle, t: Shard)
      requires list.Valid() && table.Valid() && AllIn(table.members, list.all + {e}) && HeldSeen(t.refs, list.all, list.lru)
      requires e !in list.all && e.next == null && e.prev == null
      modifies list`all
      ensures list.Valid() && table.Valid() && AllIn(table.members, list.all) && HeldSeen(t.refs, list.all, list.lru)
      ensures list.all == old(list.all) + {e} && e != list.lru
    {
      ghost var all := list.all;
      list.Admit(e);
      forall h | h in t.refs ensures Seen(h, list.all) {
        assert Seen(h, all);
      }
    }

    method AddCharge(e: Handle, ghost t: Shard)
      requires Rep(t)
      modifies this`usage
      ensures Rep(t.(usage := t.usage + e.charge))
    {
      usage := usage + e.charge;
    }

    method Discharge(e: Handle, ghost t: Shard)
      requires Rep(t) && t.usage >= e.charge
      modifies this`usage
      ensures Rep(t.(usage := t.usage - e.charge))
    {
      assert usage >= e.charge;
      usage := usage - e.charge;
    }

    method SetLimits(capacity: nat, ghost t: Shard)
      requires Rep(t)
      modifies this`capacity, this`poolCapacity
      ensures Rep(t.(capacity := capacity, poolCapacity := PoolCapacity(capacity, t.ratio)))
    {
      this.capacity := capacity;
      poolCapacity := PoolCapacity(capacity, ratio);
    }

    method CountUp(e: Handle, ghost t: Shard)
      requires Rep(t) && e in list.all && e != list.lru
      modifies e`refs
      ensures Rep(t.(refs := t.refs[e := RefsOf(t.refs, e) + 1]))
    {
      assert TagOf(e, t.refs, t.cached, t.hits);
      e.refs := e.refs + 1;
      ghost var refs' := t.refs[e := RefsOf(t.refs, e) + 1];
      forall h | h in list.all ensures TagOf(h, refs', t.cached, t.hits) {
        assert old(TagOf(h, t.refs, t.cached, t.hits));
      }
    }

    /** Unref: takes one reference away, and says whether it was the last. */
    method CountDown(e: Handle, ghost t: Shard) returns (last: bool)
      requires Rep(t) && e in list.all && e in t.refs && t.refs[e] > 0
      modifies e`refs
      ensures last <==> t.refs[e] == 1
      ensures Rep(t.(refs := if last then t.refs - {e} else t.refs[e := t.refs[e] - 1]))
    {
      assert TagOf(e, t.refs, t.cached, t.hits);
      assert e.refs > 0;
      e.refs := e.refs - 1;
      last := e.refs == 0;
      ghost var refs' := if last then t.refs - {e} else t.refs[e := t.refs[e] - 1];
      forall h | h in list.all ensures TagOf(h, refs', t.cached, t.hits) {
        assert old(TagOf(h, t.refs, t.cached, t.hits));
      }
    }

    method MarkHit(e: Handle, ghost t: Shard)
      requires Rep(t) && e in list.all
      modifies e`hasHit
      ensures Rep(t.(hits := t.hits + {e}))
    {
      e.hasHit := true;
      ghost var hits' := t.hits + {e};
      forall h | h in list.all ensures TagOf(h, t.refs, t.cached, hits') {
        assert old(TagOf(h, t.refs, t.cached, t.hits));
      }
    }

    method SetStrict(strict: bool, ghost t: Shard)
      requires Rep(t)
      modifies this`strict
      ensures Rep(t.(strict := strict))
    {
      this.strict := strict;
    }

    method SetShare(ratio: real, ghost t: Shard)
      requires Rep(t)
      modifies this`ratio, this`poolCapacity
      ensures Rep(t.(ratio := ratio, poolCapacity := PoolCapacity(t.capacity, ratio)))
    {
      this.ratio := ratio;
      poolCapacity := PoolCapacity(capacity, ratio);
    }

    /** MaintainPoolSize */
    method Settle(ghost t: Shard)
      requires Rep(t) && Balanced(t) && t.poolCapacity >= 0.0
      modifies list`lowPri, list`poolUsage, list`low, list.all`inHighPriPool
      ensures Rep(Settled(t))
    {
      list.Settle(poolCapacity, t);
    }

    /** A cached entry has been seen. */
    lemma CachedSeen(e: Handle, t: Shard)
      requires Rep(t) && Kept(t) && InCache(t.cached, e)
      ensures e in list.all && e != list.lru
    {
      table.Holds(e.id);
      MembersSeen(table.members, list.all);
      CachedState(t, e);
      if e in t.ring {
        list.RingSeen(e);
      }
    }

    lemma HeldIn(e: Handle, t: Shard)
      requires Rep(t) && e in t.refs
      ensures e in list.all && e != list.lru
    {
      assert Seen(e, list.all);
    }

    // ---------------------------------------------------------------- eviction

    /** The oldest entry, as the eviction loops find it. */
    method FindOldest(ghost t: Shard) returns (oldest: Handle)
      requires Rep(t) && t.ring != [] && Evictable(t)
      ensures oldest == t.ring[0] && oldest in list.all && oldest.inCache && oldest.refs == 0
    {
      oldest := list.Oldest();
      list.RingSeen(oldest);
      assert TagOf(oldest, t.refs, t.cached, t.hits);
    }

    /** One round of the eviction loops. */
    method EvictOldest(ghost t: Shard) returns (oldest: Handle)
      requires Rep(t) && t.ring != [] && Evictable(t)
      modifies this`usage, list`lowPri, list`lruUsage, list`poolUsage, list`ring, list`low, list.all`next, list.all`prev
      modifies table`elems, table`chains, table`members, table`contents, table.list
      modifies list.all`nextHash, list.all`inCache
      ensures oldest == t.ring[0] && Rep(EvictOne(t))
    {
      oldest := FindOldest(t);
      assert oldest.inCache && oldest.refs == 0;
      TakeOffList(oldest, t, 0);
      var gone := Unmap(oldest.id, Removed(t, 0));
      Discharge(oldest, Removed(t, 0).(cached := t.cached - {oldest.id}));
    }

    method EvictRound(ghost t: Shard, ghost j: nat, charge: nat) returns (gone: Handle, first: Handle)
      requires Holds(t) && j < |t.ring| && Rep(Shed(t, j)) && MoreToEvict(t, j, charge) && usage + charge > capacity
      modifies this`usage, list`lowPri, list`lruUsage, list`poolUsage, list`ring, list`low, list.all`next, list.all`prev
      modifies table`elems, table`chains, table`members, table`contents, table.list
      modifies list.all`nextHash, list.all`inCache
      ensures gone == t.ring[j] && Rep(Shed(t, j + 1)) && MoreToEvict(t, j + 1, charge)
      ensures if j + 1 == |t.ring| then first == list.lru else first == t.ring[j + 1] != list.lru
    {
      EvictCountStep(t, j, charge);
      gone, first := ShedOldest(t, j);
    }

    method StartEvicting(charge: nat, ghost t: Shard) returns (first: Handle)
      requires Rep(t) && Holds(t)
      ensures Rep(Shed(t, 0)) && MoreToEvict(t, 0, charge) && AllSeen(t.ring, list.all)
      ensures if t.ring == [] then first == list.lru else first == t.ring[0] != list.lru
    {
      list.RingAllSeen();
      ShedNothing(t, charge);
      first := list.Oldest();
    }

    /** The loop of EvictFromLRU. */
    method EvictLoop(charge: nat, start: Handle, ghost t: Shard) returns (deleted: seq<Handle>, ghost j: nat)
      requires Holds(t) && Rep(Shed(t, 0)) && MoreToEvict(t, 0, charge)
      requires if t.ring == [] then start == list.lru else start == t.ring[0] != list.lru
      modifies this`usage, list`lowPri, list`lruUsage, list`poolUsage, list`ring, list`low, list.all`next, list.all`prev
      modifies table`elems, table`chains, table`members, table`contents, table.list
      modifies list.all`nextHash, list.all`inCache
      ensures j <= |t.ring| && deleted == t.ring[..j] && Rep(Shed(t, j)) && MoreToEvict(t, j, charge)
      ensures usage + charge <= capacity || j == |t.ring|
    {
      deleted, j := [], 0;
      var first := start;
      while usage + charge > capacity && first != list.lru
        invariant j <= |t.ring| && deleted == t.ring[..j] && Rep(Shed(t, j)) && MoreToEvict(t, j, charge)
        invariant if j == |t.ring| then first == list.lru else first == t.ring[j] != list.lru
        decreases |t.ring| - j
      {
        var gone;
        gone, first := EvictRound(t, j, charge);
        assert t.ring[..j + 1] == t.ring[..j] + [gone];
        deleted := deleted + [gone];
        j := j + 1;
      }
    }

    method EvictFromLRU(charge: nat, ghost t: Shard) returns (deleted: seq<Handle>)
      requires Rep(t) && Holds(t)
      modifies this`usage, list`lowPri, list`lruUsage, list`poolUsage, list`ring, list`low, list.all`next, list.all`prev
      modifies table`elems, table`chains, table`members, table`contents, table.list
      modifies list.all`nextHash, list.all`inCache
      ensures Rep(Evicted(t, charge)) && deleted == t.ring[..Evictions(t, charge)] && Loose(deleted, list.all, t.refs)
    {
      var first := StartEvicting(charge, t);
      ghost var j;
      deleted, j := EvictLoop(charge, first, t);
      EvictCountStep(t, j, charge);
      LoosePrefix(t, j, list.all);
    }

    /** Free: calls the deleter of an entry that nobody holds. */
    method Free(e: Handle, ghost t: Shard)
      requires Rep(t) && e.refs == 0
      modifies this`freed
      ensures Rep(t.(freed := t.freed + [e]))
    {
      freed := freed + [e];
    }

    /** The entry is neither cached nor held: its charge is given back and its deleter called. */
    method Dispose(e: Handle, ghost t: Shard)
      requires Rep(t) && t.usage >= e.charge && e.refs == 0
      modifies this`usage, this`freed
      ensures Rep(t.(usage := t.usage - e.charge, freed := t.freed + [e]))
    {
      Discharge(e, t);
      Free(e, t.(usage := t.usage - e.charge));
    }

    method FreeAll(entries: seq<Handle>, ghost t: Shard)
      requires Rep(t) && Loose(entries, list.all, t.refs)
      modifies this`freed
      ensures Rep(t.(freed := t.freed + entries))
    {
      for i := 0 to |entries|
        invariant Rep(t.(freed := t.freed + entries[..i]))
      {
        ghost var u := t.(freed := t.freed + entries[..i]);
        assert Seen(entries[i], list.all) && TagOf(entries[i], u.refs, u.cached, u.hits);
        Free(entries[i], u);
        assert t.freed + entries[..i] + [entries[i]] == t.freed + entries[..i + 1];
      }
      assert entries[..|entries|] == entries;
    }

    // ---------------------------------------------------------------- operations

    method SetCapacity(capacity: nat)
      requires Valid()
      modifies this, list, list.all, table, table.list
      ensures Valid() && s == LruModel.SetCapacity(old(s), capacity)
      ensures list.all == old(list.all)
    {
      SetCapacityKept(s, capacity);
      ghost var t := s.(capacity := capacity, poolCapacity := PoolCapacity(capacity, s.ratio));
      SetLimits(capacity, s);
      var deleted := EvictFromLRU(0, t);
      FreeAll(deleted, Evicted(t, 0));
      Represent(LruModel.SetCapacity(s, capacity));
    }

    method SetStrictCapacityLimit(strict: bool)
      requires Valid()
      modifies this
      ensures Valid() && s == old(s).(strict := strict)
    {
      SetStrict(strict, s);
      StrictKept(s, strict);
      Represent(s.(strict := strict));
    }

    method SetHighPriorityPoolRatio(ratio: real)
      requires Valid() && PoolCapacity(s.capacity, ratio) >= 0.0
      modifies this, list, list.all
      ensures Valid() && s == LruModel.SetRatio(old(s), ratio) && list.all == old(list.all)
    {
      KeptFacts(s);
      ghost var t := s.(ratio := ratio, poolCapacity := PoolCapacity(s.capacity, ratio));
      SetShare(ratio, s);
      Settle(t);
      SetRatioKept(s, ratio);
      Represent(LruModel.SetRatio(s, ratio));
    }

    method Lookup(id: Id) returns (e: Handle?)
      requires Valid()
      modifies this, list, list.all
      ensures Valid() && s == LookedUp(old(s), id) && list.all == old(list.all)
      ensures e == if id in old(s).cached then old(s).cached[id] else null
    {
      e := table.Lookup(id);
      if e != null {
        table.Holds(id);
        Pin(e, s);
        LookupKept(s, id);
        Represent(LookedUp(s, id));
      }
    }

    /** Takes a reference to a cached entry, which leaves the list if it had none. */
    method Pin(e: Handle, ghost t: Shard)
      requires Rep(t) && Kept(t) && InCache(t.cached, e)
      modifies list`lowPri, list`lruUsage, list`poolUsage, list`ring, list`low, list.all`next, list.all`prev
      modifies list.all`refs, list.all`hasHit
      ensures Rep(Found(t, e))
    {
      CachedSeen(e, t);
      ghost var u := Unlist(e, t);
      CountUp(e, u);
      MarkHit(e, u.(refs := u.refs[e := RefsOf(u.refs, e) + 1]));
    }

    method Unlist(e: Handle, ghost t: Shard) returns (ghost u: Shard)
      requires Rep(t) && Kept(t) && InCache(t.cached, e) && e in list.all
      modifies list`lowPri, list`lruUsage, list`poolUsage, list`ring, list`low, list.all`next, list.all`prev
      ensures u == (if e in t.ring then Removed(t, IndexOf(t.ring, e)) else t) && Rep(u)
      ensures e in t.ring <==> e !in t.refs
    {
      assert TagOf(e, t.refs, t.cached, t.hits);
      CachedState(t, e);
      u := t;
      assert e.inCache;
      if e.refs == 0 {
        ghost var k := IndexOf(t.ring, e);
        TakeOffList(e, t, k);
        u := Removed(t, k);
      }
    }

    method Ref(e: Handle)
      requires Valid() && e in s.pinned
      modifies this, e
      ensures Valid() && e in old(s).refs && s == Referenced(old(s), e)
    {
      HeldState(s, e);
      HeldIn(e, s);
      CountUp(e, s);
      RefKept(s, e);
      Represent(Referenced(s, e));
    }

    method Release(handle: Handle?, force: bool) returns (last: bool)
      requires Valid() && (handle != null ==> handle in s.pinned)
      modifies this, list, list.all, table, table.list
      ensures Valid() && list.all == old(list.all)
      ensures handle == null ==> !last && s == old(s)
      ensures handle != null ==> handle in old(s).refs && old(s).refs[handle] > 0
      ensures handle != null ==> s == Released(old(s), handle, force) && (last <==> ReleaseFrees(old(s), handle, force))
      ensures handle != null ==> (last <==> handle in s.freed)
    {
      if handle == null {
        return false;
      }
      ReleaseFreed(s, handle, force);
      last := GiveBack(handle, force);
    }

    method GiveBack(e: Handle, force: bool) returns (last: bool)
      requires Valid() && e in s.pinned
      modifies this, list, list.all, table, table.list
      ensures e in old(s).refs && old(s).refs[e] > 0 && Valid() && list.all == old(list.all)
      ensures s == Released(old(s), e, force) && (last <==> ReleaseFrees(old(s), e, force))
    {
      HeldState(s, e);
      HeldIn(e, s);
      last := CountDown(e, s);
      if last {
        last := DropOrPutBack(e, s.(refs := s.refs - {e}), s, force);
      }
      ReleaseKept(s, e, force);
      Represent(Released(s, e, force));
    }

    /** What Release does to an entry that lost its last reference. */
    method DropOrPutBack(e: Handle, ghost t: Shard, ghost was: Shard, force: bool) returns (last: bool)
      requires Kept(was) && e in was.pinned && e in was.refs && was.refs[e] == 1 && t == was.(refs := was.refs - {e})
      requires Rep(t) && e in list.all && e != list.lru && e !in t.ring && t.usage >= e.charge
      modifies this`usage, this`freed, list`lowPri, list`lruUsage, list`poolUsage, list`ring, list`low
      modifies table`elems, table`chains, table`members, table`contents, table.list, list.all
      ensures Rep(Released(was, e, force)) && (last <==> ReleaseFrees(was, e, force))
    {
      assert TagOf(e, t.refs, t.cached, t.hits);
      last := true;
      if e.inCache {
        if usage > capacity || force {
          // a shard over its capacity keeps nothing on the list
          FullIsEmpty(was);
          var first := list.Oldest();
          assert first == list.lru || force;
          var gone := Unmap(e.id, t);
          Dispose(e, t.(cached := t.cached - {e.id}));
        } else {
          KeptFacts(was);
          PutBack(e, t, was);
          last := false;
        }
      } else {
        Dispose(e, t);
      }
    }

    method PutBack(e: Handle, ghost t: Shard, ghost was: Shard)
      requires Balanced(was) && t == was.(refs := was.refs - {e}) && PoolOk(was.ratio, was.poolCapacity) && e in was.pinned
      requires Rep(t) && e in list.all && e != list.lru && e !in t.ring
      modifies list`lowPri, list`lruUsage, list`poolUsage, list`ring, list`low
      modifies list.all`next, list.all`prev, list.all`inHighPriPool
      ensures Rep(Entered(was.(refs := was.refs - {e}, pinned := Without(was.pinned, IndexOf(was.pinned, e))), e))
    {
      ghost var u := was.(refs := was.refs - {e}, pinned := Without(was.pinned, IndexOf(was.pinned, e)));
      PutOnList(e, u);
    }

    method Erase(id: Id)
      requires Valid()
      modifies this, list, list.all, table, table.list
      ensures Valid() && s == Erased(old(s), id) && list.all == old(list.all)
    {
      var e := Unmap(id, s);
      if e != null {
        DropIfLoose(e, s, id);
      }
      EraseKept(s, id);
      Represent(Erased(s, id));
    }

    /** What Erase does to the entry it took out of the table. */
    method DropIfLoose(e: Handle, ghost was: Shard, ghost id: Id)
      requires Kept(was) && id in was.cached && e == was.cached[id] && e.id == id && e in list.all
      requires Rep(was.(cached := was.cached - {id}))
      modifies this`usage, this`freed, list`lowPri, list`lruUsage, list`poolUsage, list`ring, list`low, list.all`next, list.all`prev
      ensures Rep(Erased(was, id))
    {
      ghost var t := was.(cached := was.cached - {id});
      assert TagOf(e, t.refs, t.cached, t.hits);
      CachedState(was, e);
      if e.refs == 0 {
        ghost var k := IndexOf(was.ring, e);
        TakeOffList(e, t, k);
        Dispose(e, Removed(t, k));
      }
    }

    method EraseUnRefEntries()
      requires Valid()
      modifies this, list, list.all, table, table.list
      ensures Valid() && s == EraseUnRef(old(s)) && list.all == old(list.all)
    {
      KeptFacts(s);
      var deleted := EvictAll(s);
      FreeAll(deleted, Shed(s, |s.ring|));
      EraseUnRefKept(s);
      Represent(EraseUnRef(s));
    }

    method EvictAll(ghost t: Shard) returns (deleted: seq<Handle>)
      requires Rep(t) && Holds(t)
      modifies this`usage, list`lowPri, list`lruUsage, list`poolUsage, list`ring, list`low, list.all`next, list.all`prev
      modifies table`elems, table`chains, table`members, table`contents, table.list
      modifies list.all`nextHash, list.all`inCache
      ensures Rep(Shed(t, |t.ring|)) && deleted == t.ring && Loose(deleted, list.all, t.refs)
    {
      deleted := [];
      ghost var j := 0;
      list.RingAllSeen();
      ShedNothing(t, 0);
      var first := list.Oldest();
      while first != list.lru
        invariant j <= |t.ring| && deleted == t.ring[..j] && Rep(Shed(t, j))
        invariant if j == |t.ring| then first == list.lru else first == t.ring[j] != list.lru
        decreases |t.ring| - j
      {
        var gone;
        gone, first := ShedOldest(t, j);
        deleted := deleted + [gone];
        j := j + 1;
      }
      LoosePrefix(t, j, list.all);
      assert t.ring[..j] == t.ring;
    }

    method ShedOldest(ghost t: Shard, ghost j: nat) returns (gone: Handle, first: Handle)
      requires Holds(t) && j < |t.ring| && Rep(Shed(t, j))
      modifies this`usage, list`lowPri, list`lruUsage, list`poolUsage, list`ring, list`low, list.all`next, list.all`prev
      modifies table`elems, table`chains, table`members, table`contents, table.list
      modifies list.all`nextHash, list.all`inCache
      ensures gone == t.ring[j] && Rep(Shed(t, j + 1))
      ensures if j + 1 == |t.ring| then first == list.lru else first == t.ring[j + 1] != list.lru
    {
      ShedStep(t, j);
      gone := EvictOldest(Shed(t, j));
      first := list.Oldest();
    }

    /** What InsertItem does to the entry that a new one displaced from the table. */
    method Displace(prior: Handle, ghost v: Shard, e: Handle)
      requires Kept(v) && Unseen(v, e) && InCache(v.cached, prior) && prior.id == e.id && prior in list.all
      requires Rep(v.(cached := v.cached[e.id := e], usage := v.usage + e.charge))
      modifies this`usage, this`freed, list`lowPri, list`lruUsage, list`poolUsage, list`ring, list`low, list.all`next, list.all`prev
      ensures Rep(Stored(v, e))
    {
      ghost var t := v.(cached := v.cached[e.id := e], usage := v.usage + e.charge);
      assert TagOf(prior, t.refs, t.cached, t.hits);
      CachedState(v, prior);
      if prior.refs == 0 {
        ghost var k := IndexOf(v.ring, prior);
        TakeOffList(prior, t, k);
        Dispose(prior, Removed(t, k));
      }
    }

    /** The entry goes in the table and is charged; the one it displaces goes unless it is referenced. */
    method StoreEntry(e: Handle, ghost v: Shard) returns (status: Status)
      requires Kept(v) && Rep(v) && Blank(e, v) && Unseen(v, e)
      modifies this`usage, this`freed, list`lowPri, list`lruUsage, list`poolUsage, list`ring, list`low, list`all
      modifies table`lengthBits, table`list, table`elems, table`chains, table`members, table`contents, table.list
      modifies list.all`next, list.all`prev, list.all`nextHash, list.all`inCache, e
      ensures Rep(Stored(v, e)) && status == (if e.id in v.cached then OkOverwritten else Ok)
      ensures list.all == old(list.all) + {e} && e != list.lru && (table.list == old(table.list) || fresh(table.list))
    {
      var prior := MapIn(e, v);
      AddCharge(e, v.(cached := v.cached[e.id := e]));
      if prior == null {
        status := Ok;
      } else {
        status := OkOverwritten;
        Displace(prior, v, e);
      }
    }

    /** The entry goes on the list, or to the caller with a reference. */
    method Place(e: Handle, ghost u: Shard, wanted: bool) returns (handle: Handle?)
      requires Rep(u) && Balanced(u) && e in list.all && e !in u.ring && e != list.lru && e !in u.refs
      requires PoolOk(u.ratio, u.poolCapacity)
      modifies list`lowPri, list`lruUsage, list`poolUsage, list`ring, list`low
      modifies list.all`next, list.all`prev, list.all`inHighPriPool, e`refs
      ensures Rep(if wanted then u.(pinned := u.pinned + [e], refs := u.refs[e := 1]) else Entered(u, e))
      ensures handle == if wanted then e else null
    {
      if !wanted {
        PutOnList(e, u);
        handle := null;
      } else {
        CountUp(e, u);
        handle := e;
      }
    }

    method InsertItem(e: Handle, wanted: bool) returns (status: Status, handle: Handle?)
      requires Valid() && Blank(e, s) && Unseen(s, e)
      modifies this, list, list.all, table, table.list, e
      ensures Valid() && s == Inserted(old(s), e, wanted) && status == InsertStatus(old(s), e, wanted)
      ensures handle == if wanted && status != Incomplete then e else null
      ensures handle != null ==> Held(s, handle)
      ensures list.all <= old(list.all) + {e} && (table.list == old(table.list) || fresh(table.list))
    {
      KeptFacts(s);
      ghost var v := EvictedFreed(s, e.charge);
      var deleted := EvictFromLRU(e.charge, s);
      FreeAll(deleted, Evicted(s, e.charge));
      if usage + e.charge > capacity && (strict || !wanted) {
        Clear(e, v);
        if !wanted {
          Free(e, v);
        }
        handle := null;
        status := if wanted then Incomplete else Ok;
      } else {
        status, handle := StoreAndPlace(e, s, wanted);
      }
      InsertKept(s, e, wanted);
      InsertHeld(s, e, wanted);
      Represent(Inserted(s, e, wanted));
    }

    /** The branch of InsertItem that puts the entry in the cache. */
    method StoreAndPlace(e: Handle, ghost was: Shard, wanted: bool) returns (status: Status, handle: Handle?)
      requires Kept(was) && Unseen(was, e) && Rep(EvictedFreed(was, e.charge)) && Blank(e, was) && !Refused(was, e, wanted)
      modifies this`usage, this`freed, list`lowPri, list`lruUsage, list`poolUsage, list`ring, list`low, list`all
      modifies table`lengthBits, table`list, table`elems, table`chains, table`members, table`contents, table.list
      modifies list.all, e
      ensures Rep(Inserted(was, e, wanted)) && status == InsertStatus(was, e, wanted)
      ensures handle == if wanted then e else null
      ensures list.all == old(list.all) + {e} && (table.list == old(table.list) || fresh(table.list))
    {
      StorePlan(was, e);
      ghost var v := EvictedFreed(was, e.charge);
      status := StoreEntry(e, v);
      handle := Place(e, Stored(v, e), wanted);
    }

    /** SetInCache(false) on an entry that does not get in. */
    method Clear(e: Handle, ghost t: Shard)
      requires Rep(t) && e !in list.all
      modifies e`inCache
      ensures Rep(t)
    {
      e.inCache := false;
      forall h | h in list.all ensures TagOf(h, t.refs, t.cached, t.hits) {
        assert old(TagOf(h, t.refs, t.cached, t.hits));
      }
    }

    /** The charge of the entries that are referenced. */
    method GetPinnedUsage() returns (n: int)
      requires Valid()
      ensures n == Sum(s.pinned, Charge) >= 0
    {
      PinnedCharge(s);
      assert usage >= list.lruUsage;
      n := usage - list.lruUsage;
    }

    /** Insert. The handle goes to the caller if one is wanted; otherwise the entry is left to the cache. */
    method Insert(id: Id, value: int, charge: nat, highPri: bool, wanted: bool)
      returns (status: Status, handle: Handle?, ghost e: Handle)
      requires Valid()
      modifies this, list, list.all, table, table.list
      ensures fresh(e) && e.id == id && e.value == value && e.charge == charge && e.highPri == highPri
      ensures Valid() && s == Inserted(old(s), e, wanted) && status == InsertStatus(old(s), e, wanted)
      ensures handle == if wanted && status != Incomplete then e else null
      ensures handle != null ==> Held(s, handle)
      ensures list.all <= old(list.all) + {e} && (table.list == old(table.list) || fresh(table.list))
    {
      var entry := new Handle(id, value, charge, highPri, true);
      e := entry;
      status, handle := InsertItem(entry, wanted);
    }
  }

  lemma PinnedCharge(s: Shard)
    requires Kept(s)
    ensures s.usage - s.lruUsage == Sum(s.pinned, Charge) >= 0
  {
    assert Open(true);
    SumNonNegative(s.pinned, Charge);
  }

  lemma StorePlan(s: Shard, e: Handle)
    requires Kept(s) && Unseen(s, e)
    ensures Kept(EvictedFreed(s, e.charge)) && Unseen(EvictedFreed(s, e.charge), e)
    ensures var u := Stored(EvictedFreed(s, e.charge), e);
            Balanced(u) && e !in u.ring && PoolOk(u.ratio, u.poolCapacity) && e !in u.refs && u.refs == s.refs
  {
    assert Open(true);
    EvictedSound(s, e.charge);
    EvictedUnseen(s, e.charge, e);
    StoredAwaiting(EvictedFreed(s, e.charge), e);
  }

  /** The caller of an insertion has the only reference to the entry, which is not on the list. */
  ghost predicate Held(s: Shard, e: Handle)
  {
    e in s.pinned && e in s.refs && s.refs[e] == 1 && e !in s.ring && InCache(s.cached, e)
  }

  lemma InsertHeld(s: Shard, e: Handle, wanted: bool)
    requires Kept(s) && Unseen(s, e)
    ensures wanted && InsertStatus(s, e, wanted) != Incomplete ==> Held(Inserted(s, e, wanted), e)
  {
    assert Open(true);
    if !Refused(s, e, wanted) {
      LruLaws.InsertedIff(s, e, wanted);
    }
  }

  lemma ReleaseFreed(s: Shard, e: Handle, force: bool)
    requires Kept(s) && e in s.pinned
    ensures e in s.refs && s.refs[e] > 0 && (ReleaseFrees(s, e, force) <==> e in Released(s, e, force).freed)
  {
    assert Open(true);
    LruLaws.ReleasedIff(s, e, force);
  }

  lemma InsertKept(s: Shard, e: Handle, wanted: bool)
    requires Kept(s) && Unseen(s, e)
    ensures Kept(Inserted(s, e, wanted))
  {
    assert Open(true);
    InsertedSound(s, e, wanted);
  }

  lemma FullIsEmpty(s: Shard)
    requires Kept(s)
    ensures s.usage > s.capacity ==> s.ring == []
  {
    assert Open(true);
  }

  lemma ReleaseKept(s: Shard, e: Handle, force: bool)
    requires Kept(s) && e in s.pinned
    ensures e in s.refs && s.refs[e] > 0 && Kept(Released(s, e, force))
  {
    assert Open(true);
    ReleasedSound(s, e, force);
  }

  lemma EraseKept(s: Shard, id: Id)
    requires Kept(s)
    ensures Kept(Erased(s, id))
  {
    assert Open(true);
    ErasedSound(s, id);
  }

  lemma EraseUnRefKept(s: Shard)
    requires Kept(s)
    ensures Kept(EraseUnRef(s))
  {
    assert Open(true);
    EraseUnRefSound(s);
  }

  lemma StrictKept(s: Shard, strict: bool)
    requires Kept(s)
    ensures Kept(s.(strict := strict))
  {
    assert Open(true);
  }

  lemma SetRatioKept(s: Shard, ratio: real)
    requires Kept(s) && PoolCapacity(s.capacity, ratio) >= 0.0
    ensures Kept(LruModel.SetRatio(s, ratio))
  {
    assert Open(true);
    SetRatioSound(s, ratio);
  }

  lemma LookupKept(s: Shard, id: Id)
    requires Kept(s)
    ensures Kept(LookedUp(s, id))
  {
    assert Open(true);
    LookedUpSound(s, id);
  }

  lemma RefKept(s: Shard, e: Handle)
    requires Kept(s) && e in s.refs
    ensures Kept(Referenced(s, e))
  {
    assert Open(true);
    ReferencedSound(s, e);
  }

  /** A cached entry is on the ring exactly if it has no references. */
  lemma CachedState(t: Shard, e: Handle)
    requires Kept(t) && InCache(t.cached, e)
    ensures e in t.ring <==> e !in t.refs
    ensures e in t.refs ==> t.refs[e] > 0
    ensures e in t.ring ==> Removable(t, IndexOf(t.ring, e)) && t.usage >= e.charge
  {
    assert Open(true);
    if e in t.ring {
      NoUnderflow(t, IndexOf(t.ring, e));
      SumNonNegative(t.pinned, Charge);
    }
  }

  lemma HeldState(t: Shard, e: Handle)
    requires Kept(t) && e in t.pinned
    ensures e in t.refs && t.refs[e] > 0 && e !in t.ring && t.usage >= e.charge
  {
    assert Open(true);
    SumAtLeast(t.pinned, IndexOf(t.pinned, e), Charge);
    SumNonNegative(t.ring, Charge);
  }

  /** Entries the shard has seen and nobody holds. */
  ghost predicate Loose(entries: seq<Handle>, all: set<Handle>, refs: map<Handle, nat>)
  {
    forall h {:trigger Seen(h, all)} :: h in entries ==> Seen(h, all) && h !in refs
  }

  lemma LoosePrefix(t: Shard, k: nat, all: set<Handle>)
    requires Holds(t) && AllSeen(t.ring, all) && k <= |t.ring|
    ensures Loose(t.ring[..k], all, t.refs)
  {
    assert Open(true);
  }

  /** Sound, folded. */
  ghost predicate Kept(t: Shard)
  {
    t.low <= |t.ring| && PoolOk(t.ratio, t.poolCapacity) && forall b {:trigger Open(b)} :: Open(b) ==> Sound(t)
  }

  lemma KeptFacts(t: Shard)
    requires Kept(t)
    ensures Holds(t) && Balanced(t)
  {
    assert Open(true);
  }

  lemma SetCapacityKept(s: Shard, capacity: nat)
    requires Kept(s)
    ensures Kept(LruModel.SetCapacity(s, capacity))
    ensures Holds(s.(capacity := capacity, poolCapacity := PoolCapacity(capacity, s.ratio)))
  {
    assert Open(true);
    SetCapacitySound(s, capacity);
  }

  /** The evictions still to come after the first j. */
  ghost predicate MoreToEvict(t: Shard, j: nat, charge: nat)
    requires j <= |t.ring|
  {
    forall b {:trigger Open(b)} :: Open(b) ==>
      j + EvictCount(t.ring[j..], Shed(t, j).usage, charge, t.capacity) == Evictions(t, charge)
  }

  lemma SwappedSeen(members: set<Handle>, prior: Handle?, e: Handle, all: set<Handle>)
    requires members <= all
    ensures AllIn(HandleTables.Swapped(members, prior, e), all + {e})
  {
  }

  lemma MembersSeen(members: set<Handle>, all: set<Handle>)
    requires AllIn(members, all)
    ensures members <= all
  {
    forall h | h in members ensures h in all {
      assert Seen(h, all);
    }
  }

  function RefsOf(refs: map<Handle, nat>, h: Handle): nat
  {
    if h in refs then refs[h] else 0
  }

  /** What the eviction loops assert about the oldest entry. */
  predicate Evictable(t: Shard)
    requires t.ring != []
  {
    Removable(t, 0) && t.usage >= t.ring[0].charge && InCache(t.cached, t.ring[0]) && t.ring[0] !in t.refs
  }

  /** Steady, folded. */
  ghost predicate Holds(t: Shard)
  {
    t.low <= |t.ring| && forall b {:trigger Open(b)} :: Open(b) ==> Steady(t)
  }

  lemma ShedNothing(t: Shard, charge: nat)
    requires t.low <= |t.ring|
    ensures Shed(t, 0) == t && MoreToEvict(t, 0, charge)
  {
    assert t.ring[0..] == t.ring;
    assert t.cached - {} == t.cached;
  }

  /** Each round of the eviction loop sheds one more entry of the ring, and its assertions hold. */
  lemma ShedStep(t: Shard, j: nat)
    requires Holds(t) && j < |t.ring|
    ensures var u := Shed(t, j); u.ring != [] && u.ring[0] == t.ring[j] && Evictable(u) && EvictOne(u) == Shed(t, j + 1)
  {
    assert Open(true);
    ShedEvictable(t, j);
    ShedOneMore(t, j);
  }

  lemma ShedEvictable(t: Shard, j: nat)
    requires Steady(t) && j < |t.ring|
    ensures Evictable(Shed(t, j))
  {
    var u := Shed(t, j);
    ShedRing(t, j);
    NoUnderflow(u, 0);
    ShedIndexed(t.ring, t.pinned, t.cached, j);
    SumNonNegative(t.pinned, Charge);
    assert t.ring[j] in t.ring;
    assert u.ring[0] in u.ring;
  }

  lemma ShedOneMore(t: Shard, j: nat)
    requires t.low <= |t.ring| && j < |t.ring|
    ensures EvictOne(Shed(t, j)) == Shed(t, j + 1)
  {
    ShedSums(t.ring, t.low, j);
    ShedIds(t.cached, t.ring, j);
    assert Without(t.ring[j..], 0) == t.ring[j + 1..];
  }

  lemma ShedSums(ring: seq<Handle>, low: nat, j: nat)
    requires low <= |ring| && j < |ring|
    ensures Sum(ring[..j + 1], Charge) == Sum(ring[..j], Charge) + ring[j].charge
    ensures low <= j ==> Sum(ring[low..j + 1], Charge) == Sum(ring[low..j], Charge) + ring[j].charge
    ensures low == j + 1 ==> Sum(ring[low..j + 1], Charge) == 0
  {
    assert ring[..j + 1] == ring[..j] + [ring[j]];
    SumPush(ring[..j], ring[j], Charge);
    if low <= j {
      assert ring[low..j + 1] == ring[low..j] + [ring[j]];
      SumPush(ring[low..j], ring[j], Charge);
    }
  }

  lemma ShedIds(cached: map<Id, Handle>, ring: seq<Handle>, j: nat)
    requires j < |ring|
    ensures cached - Ids(ring[..j]) - {ring[j].id} == cached - Ids(ring[..j + 1])
  {
    assert ring[..j + 1] == ring[..j] + [ring[j]];
    IdsPush(ring[..j], ring[j]);
    MinusTwice(cached, Ids(ring[..j]), ring[j].id);
  }

  lemma IdsPush(s: seq<Handle>, h: Handle)
    ensures Ids(s + [h]) == Ids(s) + {h.id}
  {
  }

  lemma MinusTwice(m: map<Id, Handle>, ids: set<Id>, id: Id)
    ensures m - ids - {id} == m - (ids + {id})
  {
  }

  lemma EvictCountStep(t: Shard, j: nat, charge: nat)
    requires j <= |t.ring| && MoreToEvict(t, j, charge)
    ensures Shed(t, j).usage + charge > t.capacity && j < |t.ring| ==>
              j < Evictions(t, charge) && MoreToEvict(t, j + 1, charge)
    ensures !(Shed(t, j).usage + charge > t.capacity && j < |t.ring|) ==> j == Evictions(t, charge)
  {
    assert Open(true);
    if j < |t.ring| {
      assert t.ring[j..][1..] == t.ring[j + 1..];
      assert t.ring[..j + 1] == t.ring[..j] + [t.ring[j]];
      SumPush(t.ring[..j], t.ring[j], Charge);
    }
  }

  /** The subtractions of LRU_Remove do not run below zero. */
  predicate Removable(s: Shard, k: nat)
    requires k < |s.ring|
  {
    s.lruUsage >= s.ring[k].charge && (k >= s.low ==> s.poolUsage >= s.ring[k].charge)
  }

  lemma NoUnderflow(s: Shard, k: nat)
    requires RingCharged(s.ring, s.low, s.lruUsage, s.poolUsage) && k < |s.ring|
    ensures Removable(s, k)
  {
    SumAtLeast(s.ring, k, Charge);
    if k >= s.low {
      SumAtLeast(s.ring[s.low..], k - s.low, Charge);
    }
  }

  /** One round of the eviction loop: the oldest entry leaves the ring and the table. */
  function EvictOne(s: Shard): Shard
    requires s.ring != []
  {
    Removed(s, 0).(cached := s.cached - {s.ring[0].id}, usage := s.usage - s.ring[0].charge)
  }
}
