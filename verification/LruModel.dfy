/**
 The LRU cache shard over values: what each operation does to the ring of evictable entries, the pinned entries, the map of
 cached entries and the three usage counters. No secondary cache. The pointer form of the same operations is LruShard.
 */
module LruModel {
  import opened LruHandles
  import opened Sequences
  import opened Sums

  /**
   ring: entries in the cache with no references, oldest first; the first `low` are the low-priority pool
   pinned: entries with references, and refs their counts
   freed: entries whose deleter has run, in order
   */
  datatype Shard = Shard(
    ring: seq<Handle>, low: nat, pinned: seq<Handle>, refs: map<Handle, nat>, cached: map<Id, Handle>, hits: set<Handle>,
    usage: int, lruUsage: int, poolUsage: int,
    capacity: nat, strict: bool, ratio: real, poolCapacity: real, freed: seq<Handle>)

  function Charge(h: Handle): int
  {
    h.charge
  }

  // ---------------------------------------------------------------- operations

  function PoolCapacity(capacity: nat, ratio: real): (p: real)
    ensures ratio >= 0.0 ==> p >= 0.0
  {
    capacity as real * ratio
  }

  function Init(capacity: nat, strict: bool, ratio: real): Shard
  {
    Shard([], 0, [], map[], map[], {}, 0, 0, 0, capacity, strict, ratio, PoolCapacity(capacity, ratio), [])
  }

  function IndexOf(s: seq<Handle>, h: Handle): (k: nat)
    requires h in s
    ensures k < |s| && s[k] == h
  {
    if s[0] == h then 0 else 1 + IndexOf(s[1..], h)
  }

  /** LRU_Remove of ring entry k */
  function Removed(s: Shard, k: nat): (t: Shard)
    requires k < |s.ring|
    ensures s.low <= |s.ring| ==> t.low <= |t.ring|
  {
    s.(ring := Without(s.ring, k),
       low := if k < s.low then s.low - 1 else s.low,
       lruUsage := s.lruUsage - s.ring[k].charge,
       poolUsage := if k < s.low then s.poolUsage else s.poolUsage - s.ring[k].charge)
  }

  /** LRU_Insert uses the pool only if its share is positive; then it has a size. */
  predicate PoolOk(ratio: real, poolCapacity: real)
  {
    ratio > 0.0 ==> poolCapacity >= 0.0
  }

  predicate Over(pool: int, poolCapacity: real)
  {
    pool as real > poolCapacity
  }

  lemma OverFloor(pool: int, poolCapacity: real)
    ensures Over(pool, poolCapacity) <==> pool > poolCapacity.Floor
    ensures poolCapacity >= 0.0 ==> poolCapacity.Floor >= 0
  {
  }

  /** How many entries MaintainPoolSize overflows, from the old end of the high-priority pool. */
  function Overflow(ring: seq<Handle>, low: nat, pool: int, limit: int): (n: nat)
    requires low <= |ring|
    ensures low + n <= |ring|
    decreases |ring| - low
  {
    if pool > limit && low < |ring|
    then 1 + Overflow(ring, low + 1, pool - ring[low].charge, limit)
    else 0
  }

  /** MaintainPoolSize */
  ghost function Settled(s: Shard): Shard
    requires s.low <= |s.ring|
  {
    var n := Overflow(s.ring, s.low, s.poolUsage, s.poolCapacity.Floor);
    s.(low := s.low + n, poolUsage := s.poolUsage - Sum(s.ring[s.low..s.low + n], Charge))
  }

  /** Where LRU_Insert puts an entry. */
  predicate ToHighPool(s: Shard, e: Handle)
  {
    s.ratio > 0.0 && (e.highPri || e in s.hits)
  }

  /** What LRU_Insert into the high-priority pool settles. */
  function Pushed(s: Shard, e: Handle): Shard
  {
    s.(ring := s.ring + [e], poolUsage := s.poolUsage + e.charge)
  }

  /** LRU_Insert */
  ghost function Entered(s: Shard, e: Handle): Shard
    requires s.low <= |s.ring|
  {
    if ToHighPool(s, e) then
      var t := Settled(Pushed(s, e));
      t.(lruUsage := t.lruUsage + e.charge)
    else
      s.(ring := With(s.ring, s.low, e), low := s.low + 1, lruUsage := s.lruUsage + e.charge)
  }

  /** How many entries EvictFromLRU takes from the old end of the ring. */
  function EvictCount(ring: seq<Handle>, usage: int, charge: nat, capacity: nat): (k: nat)
    ensures k <= |ring|
  {
    if usage + charge > capacity && ring != []
    then 1 + EvictCount(ring[1..], usage - ring[0].charge, charge, capacity)
    else 0
  }

  function Ids(s: seq<Handle>): set<Id>
  {
    set h | h in s :: h.id
  }

  /** The k oldest entries leave the ring and the table. */
  ghost function Shed(s: Shard, k: nat): (t: Shard)
    requires k <= |s.ring|
    ensures s.low <= |s.ring| ==> t.low <= |t.ring|
  {
    s.(ring := s.ring[k..],
       low := if k < s.low then s.low - k else 0,
       cached := s.cached - Ids(s.ring[..k]),
       usage := s.usage - Sum(s.ring[..k], Charge),
       lruUsage := s.lruUsage - Sum(s.ring[..k], Charge),
       poolUsage := if k < s.low then s.poolUsage else s.poolUsage - Sum(s.ring[s.low..k], Charge))
  }

  function Evictions(s: Shard, charge: nat): nat
  {
    EvictCount(s.ring, s.usage, charge, s.capacity)
  }

  /** EvictFromLRU */
  ghost function Evicted(s: Shard, charge: nat): Shard
  {
    Shed(s, Evictions(s, charge))
  }

  /** EvictFromLRU followed by freeing what it evicted. */
  ghost function EvictedFreed(s: Shard, charge: nat): Shard
  {
    Evicted(s, charge).(freed := s.freed + s.ring[..Evictions(s, charge)])
  }

  ghost function SetCapacity(s: Shard, capacity: nat): Shard
  {
    EvictedFreed(s.(capacity := capacity, poolCapacity := PoolCapacity(capacity, s.ratio)), 0)
  }

  ghost function SetRatio(s: Shard, ratio: real): Shard
    requires s.low <= |s.ring| && PoolCapacity(s.capacity, ratio) >= 0.0
  {
    Settled(s.(ratio := ratio, poolCapacity := PoolCapacity(s.capacity, ratio)))
  }

  datatype Status = Ok | OkOverwritten | Incomplete

  /** The space check of InsertItem, after eviction. */
  ghost predicate Refused(s: Shard, e: Handle, wanted: bool)
  {
    Evicted(s, e.charge).usage + e.charge > s.capacity && (s.strict || !wanted)
  }

  /** The entry is put in the table over an older one, which goes unless it is referenced. */
  function Stored(s: Shard, e: Handle): Shard
  {
    var t := s.(cached := s.cached[e.id := e], usage := s.usage + e.charge);
    if e.id in s.cached && s.cached[e.id] in s.ring then
      var prior := s.cached[e.id];
      var u := Removed(t, IndexOf(s.ring, prior));
      u.(usage := u.usage - prior.charge, freed := u.freed + [prior])
    else t
  }

  /** InsertItem. The caller wants a handle, or leaves the entry to the cache. */
  ghost function Inserted(s: Shard, e: Handle, wanted: bool): Shard
    requires s.low <= |s.ring|
  {
    var t := EvictedFreed(s, e.charge);
    if Refused(s, e, wanted) then
      if wanted then t else t.(freed := t.freed + [e])
    else
      var u := Stored(t, e);
      if wanted then u.(pinned := u.pinned + [e], refs := u.refs[e := 1]) else Entered(u, e)
  }

  ghost function InsertStatus(s: Shard, e: Handle, wanted: bool): Status
  {
    if Refused(s, e, wanted) then if wanted then Incomplete else Ok
    else if e.id in Evicted(s, e.charge).cached then OkOverwritten
    else Ok
  }

  /** Lookup of an entry that is cached */
  function Found(s: Shard, e: Handle): Shard
  {
    var t := if e in s.ring then
               var u := Removed(s, IndexOf(s.ring, e));
               u.(pinned := u.pinned + [e], refs := u.refs[e := 1])
             else if e in s.refs then s.(refs := s.refs[e := s.refs[e] + 1])
             else s;
    t.(hits := t.hits + {e})
  }

  function LookedUp(s: Shard, id: Id): Shard
  {
    if id in s.cached then Found(s, s.cached[id]) else s
  }

  function Referenced(s: Shard, e: Handle): Shard
    requires e in s.refs
  {
    s.(refs := s.refs[e := s.refs[e] + 1])
  }

  predicate InCache(cached: map<Id, Handle>, e: Handle)
  {
    e.id in cached && cached[e.id] == e
  }

  /** Whether Release drops the entry rather than putting it back on the ring. */
  predicate ReleaseFrees(s: Shard, e: Handle, force: bool)
    requires e in s.refs
  {
    s.refs[e] == 1 && (!InCache(s.cached, e) || s.usage > s.capacity || force)
  }

  ghost function Released(s: Shard, e: Handle, force: bool): Shard
    requires e in s.refs && s.refs[e] > 0 && e in s.pinned && s.low <= |s.ring|
  {
    if s.refs[e] > 1 then
      s.(refs := s.refs[e := s.refs[e] - 1])
    else
      var t := s.(refs := s.refs - {e}, pinned := Without(s.pinned, IndexOf(s.pinned, e)));
      if ReleaseFrees(s, e, force) then
        t.(cached := if InCache(s.cached, e) then s.cached - {e.id} else s.cached, usage := t.usage - e.charge,
           freed := t.freed + [e])
      else Entered(t, e)
  }

  function Erased(s: Shard, id: Id): Shard
  {
    if id !in s.cached then s
    else
      var e, t := s.cached[id], s.(cached := s.cached - {id});
      if e in s.ring then
        var u := Removed(t, IndexOf(s.ring, e));
        u.(usage := u.usage - e.charge, freed := u.freed + [e])
      else t
  }

  ghost function EraseUnRef(s: Shard): Shard
  {
    Shed(s, |s.ring|).(freed := s.freed + s.ring)
  }

  // ---------------------------------------------------------------- the invariant

  /** No entry twice on the ring or among the pinned, nor on both. */
  ghost predicate Apart(ring: seq<Handle>, pinned: seq<Handle>)
  {
    Distinct(ring) && Distinct(pinned) && forall h :: h in ring ==> h !in pinned
  }

  /** Exactly the pinned entries are counted, with at least one reference. */
  ghost predicate Counted(pinned: seq<Handle>, refs: map<Handle, nat>)
  {
    && (forall h :: h in pinned ==> h in refs && refs[h] > 0)
    && (forall h :: h in refs ==> h in pinned)
  }

  /** The map holds entries under their own ids; those on the ring are all in it, and no entry elsewhere is. */
  ghost predicate Indexed(ring: seq<Handle>, pinned: seq<Handle>, cached: map<Id, Handle>)
  {
    && (forall id :: id in cached ==> cached[id].id == id && (cached[id] in ring || cached[id] in pinned))
    && (forall h :: h in ring ==> InCache(cached, h))
  }

  /** The split lies on the ring, and the ring's two counters are its charge and that of its high-priority part. */
  ghost predicate RingCharged(ring: seq<Handle>, low: nat, lruUsage: int, poolUsage: int)
  {
    low <= |ring| && lruUsage == Sum(ring, Charge) && poolUsage == Sum(ring[low..], Charge)
  }

  ghost predicate Charged(ring: seq<Handle>, pinned: seq<Handle>, usage: int)
  {
    usage == Sum(ring, Charge) + Sum(pinned, Charge)
  }

  /** No deleter has run twice, nor for an entry still cached or referenced. */
  ghost predicate FreedOnce(freed: seq<Handle>, ring: seq<Handle>, pinned: seq<Handle>)
  {
    Distinct(freed) && forall h :: h in freed ==> h !in ring && h !in pinned
  }

  ghost predicate PoolSized(capacity: nat, ratio: real, poolCapacity: real)
  {
    poolCapacity == PoolCapacity(capacity, ratio)
  }

  /** All but the last conjunct of Sound. */
  ghost predicate Steady(s: Shard)
  {
    && Apart(s.ring, s.pinned) && Counted(s.pinned, s.refs) && Indexed(s.ring, s.pinned, s.cached)
    && RingCharged(s.ring, s.low, s.lruUsage, s.poolUsage) && Charged(s.ring, s.pinned, s.usage)
    && FreedOnce(s.freed, s.ring, s.pinned) && PoolSized(s.capacity, s.ratio, s.poolCapacity)
  }

  /** The invariant of the shard. Entries stay evictable only while it is within its capacity. */
  ghost predicate Sound(s: Shard)
  {
    Steady(s) && (s.usage > s.capacity ==> s.ring == [])
  }

  // ---------------------------------------------------------------- the ring primitives

  lemma WithoutSum(s: seq<Handle>, k: nat)
    requires k < |s|
    ensures Sum(Without(s, k), Charge) == Sum(s, Charge) - s[k].charge
  {
    SumSplit(s, k, Charge);
    SumConcat(s[..k], s[k + 1..], Charge);
  }

  lemma RemovedRing(s: Shard, k: nat)
    requires RingCharged(s.ring, s.low, s.lruUsage, s.poolUsage) && k < |s.ring|
    ensures var t := Removed(s, k); RingCharged(t.ring, t.low, t.lruUsage, t.poolUsage)
    ensures Sum(Without(s.ring, k), Charge) == Sum(s.ring, Charge) - s.ring[k].charge
  {
    WithoutSum(s.ring, k);
    var t := Removed(s, k);
    if k < s.low {
      assert t.ring[t.low..] == s.ring[s.low..];
    } else {
      assert t.ring[t.low..] == Without(s.ring[s.low..], k - s.low);
      WithoutSum(s.ring[s.low..], k - s.low);
    }
  }

  /**
   MaintainPoolSize moves the split to the least point from where the rest of the ring fits the pool; in particular it
   never runs past the newest entry.
   */
  lemma {:induction false} LeastOverflow(ring: seq<Handle>, low: nat, pool: int, limit: int)
    requires low <= |ring| && pool == Sum(ring[low..], Charge) && limit >= 0
    ensures Sum(ring[low + Overflow(ring, low, pool, limit)..], Charge) <= limit
    ensures forall m {:trigger TooMuch(ring, m, limit)} ::
              low <= m < low + Overflow(ring, low, pool, limit) ==> TooMuch(ring, m, limit)
    decreases |ring| - low
  {
    SuffixStep(ring, low);
    if pool > limit {
      var rest := pool - ring[low].charge;
      LeastOverflow(ring, low + 1, rest, limit);
      assert Overflow(ring, low, pool, limit) == 1 + Overflow(ring, low + 1, rest, limit);
      assert TooMuch(ring, low, limit);
    }
  }

  /** From here on the ring charges more than the limit. */
  ghost predicate TooMuch(ring: seq<Handle>, m: int, limit: int)
  {
    0 <= m <= |ring| && Sum(ring[m..], Charge) > limit
  }

  /** A pool of negative size is over it wherever the split is: the loop would run past the newest entry. */
  lemma NegativePoolNeverFits(ring: seq<Handle>, low: nat, poolCapacity: real)
    requires low <= |ring| && poolCapacity < 0.0
    ensures Over(Sum(ring[low..], Charge), poolCapacity)
  {
    SumNonNegative(ring[low..], Charge);
  }

  lemma SuffixStep(ring: seq<Handle>, low: nat)
    requires low <= |ring|
    ensures Sum(ring[low..], Charge) == if low == |ring| then 0 else ring[low].charge + Sum(ring[low + 1..], Charge)
  {
    if low < |ring| {
      assert ring[low..][1..] == ring[low + 1..];
    }
  }

  lemma TailSum(ring: seq<Handle>, i: nat, j: nat)
    requires i <= j <= |ring|
    ensures Sum(ring[i..], Charge) == Sum(ring[i..j], Charge) + Sum(ring[j..], Charge)
  {
    assert ring[i..] == ring[i..j] + ring[j..];
    SumConcat(ring[i..j], ring[j..], Charge);
  }

  lemma SettledRing(s: Shard)
    requires RingCharged(s.ring, s.low, s.lruUsage, s.poolUsage)
    ensures var t := Settled(s); RingCharged(s.ring, t.low, s.lruUsage, t.poolUsage)
  {
    TailSum(s.ring, s.low, Settled(s).low);
  }

  lemma PushedRing(ring: seq<Handle>, low: nat, e: Handle)
    requires low <= |ring|
    ensures Sum(ring + [e], Charge) == Sum(ring, Charge) + e.charge
    ensures Sum((ring + [e])[low..], Charge) == Sum(ring[low..], Charge) + e.charge
  {
    SumPush(ring, e, Charge);
    assert (ring + [e])[low..] == ring[low..] + [e];
    SumPush(ring[low..], e, Charge);
  }

  lemma WithSum(s: seq<Handle>, p: nat, e: Handle)
    requires p <= |s|
    ensures Sum(With(s, p, e), Charge) == Sum(s, Charge) + e.charge
    ensures With(s, p, e)[p + 1..] == s[p..]
  {
    assert Without(With(s, p, e), p) == s;
    WithoutSum(With(s, p, e), p);
  }

  lemma PushedSettles(s: Shard, e: Handle)
    requires RingCharged(s.ring, s.low, s.lruUsage, s.poolUsage)
    ensures var t := Settled(Pushed(s, e)); RingCharged(s.ring + [e], t.low, s.lruUsage + e.charge, t.poolUsage)
  {
    PushedRing(s.ring, s.low, e);
    TailSum(s.ring + [e], s.low, Settled(Pushed(s, e)).low);
  }

  lemma EnteredHigh(s: Shard, e: Handle)
    requires RingCharged(s.ring, s.low, s.lruUsage, s.poolUsage) && ToHighPool(s, e)
    ensures var t := Entered(s, e); RingCharged(t.ring, t.low, t.lruUsage, t.poolUsage) && t.ring == s.ring + [e]
  {
    PushedSettles(s, e);
    assert Entered(s, e) == Settled(Pushed(s, e)).(lruUsage := s.lruUsage + e.charge);
  }

  lemma EnteredLow(s: Shard, e: Handle)
    requires RingCharged(s.ring, s.low, s.lruUsage, s.poolUsage) && !ToHighPool(s, e)
    ensures var t := Entered(s, e); RingCharged(t.ring, t.low, t.lruUsage, t.poolUsage) && t.ring == With(s.ring, s.low, e)
  {
    WithSum(s.ring, s.low, e);
  }

  lemma EnteredRing(s: Shard, e: Handle)
    requires RingCharged(s.ring, s.low, s.lruUsage, s.poolUsage)
    ensures var t := Entered(s, e); RingCharged(t.ring, t.low, t.lruUsage, t.poolUsage)
    ensures Sum(Entered(s, e).ring, Charge) == Sum(s.ring, Charge) + e.charge
  {
    if ToHighPool(s, e) {
      PushedRing(s.ring, s.low, e);
      EnteredHigh(s, e);
    } else {
      WithSum(s.ring, s.low, e);
      EnteredLow(s, e);
    }
  }

  lemma EnteredElements(s: Shard, e: Handle)
    requires s.low <= |s.ring| && Distinct(s.ring) && e !in s.ring
    ensures Distinct(Entered(s, e).ring)
    ensures forall h :: h in Entered(s, e).ring <==> h in s.ring || h == e
  {
    if !ToHighPool(s, e) {
      WithElements(s.ring, s.low, e);
    }
  }

  // ---------------------------------------------------------------- eviction

  /** EvictFromLRU takes the shortest prefix of the ring, from the old end, that makes room, or all of it. */
  lemma {:induction false} ShortestPrefix(ring: seq<Handle>, usage: int, charge: nat, capacity: nat)
    ensures var k := EvictCount(ring, usage, charge, capacity);
            k == |ring| || usage - Sum(ring[..k], Charge) + charge <= capacity
    ensures forall m :: 0 <= m < EvictCount(ring, usage, charge, capacity)
                        ==> usage - Sum(ring[..m], Charge) + charge > capacity
  {
    var k := EvictCount(ring, usage, charge, capacity);
    if k > 0 {
      ShortestPrefix(ring[1..], usage - ring[0].charge, charge, capacity);
      forall m | 0 < m <= k ensures Sum(ring[..m], Charge) == ring[0].charge + Sum(ring[1..][..m - 1], Charge) {
        assert ring[..m][1..] == ring[1..][..m - 1];
      }
    }
  }

  lemma ShedPool(ring: seq<Handle>, low: nat, k: nat)
    requires low <= |ring| && k <= |ring|
    ensures Sum(ring[k..][if k < low then low - k else 0..], Charge)
            == Sum(ring[low..], Charge) - (if k < low then 0 else Sum(ring[low..k], Charge))
  {
    if k < low {
      assert ring[k..][low - k..] == ring[low..];
    } else {
      assert ring[k..][0..] == ring[k..];
      TailSum(ring, low, k);
    }
  }

  lemma ShedRing(s: Shard, k: nat)
    requires RingCharged(s.ring, s.low, s.lruUsage, s.poolUsage) && k <= |s.ring|
    ensures var t := Shed(s, k); RingCharged(t.ring, t.low, t.lruUsage, t.poolUsage)
    ensures Sum(s.ring[k..], Charge) == Sum(s.ring, Charge) - Sum(s.ring[..k], Charge)
  {
    ShedPool(s.ring, s.low, k);
    assert s.ring == s.ring[..k] + s.ring[k..];
    SumConcat(s.ring[..k], s.ring[k..], Charge);
  }

  lemma ShedIndexed(ring: seq<Handle>, pinned: seq<Handle>, cached: map<Id, Handle>, k: nat)
    requires Apart(ring, pinned) && Indexed(ring, pinned, cached) && k <= |ring|
    ensures Apart(ring[k..], pinned) && Indexed(ring[k..], pinned, cached - Ids(ring[..k]))
  {
    CutElements(ring, k);
    var prefix := ring[..k];
    assert forall g :: g in prefix ==> g.id in Ids(prefix) && InCache(cached, g);
    forall h | h in ring[k..] ensures InCache(cached - Ids(prefix), h) {
      assert InCache(cached, h);
    }
  }

  lemma ShedFreed(freed: seq<Handle>, ring: seq<Handle>, pinned: seq<Handle>, k: nat)
    requires Apart(ring, pinned) && FreedOnce(freed, ring, pinned) && k <= |ring|
    ensures FreedOnce(freed + ring[..k], ring[k..], pinned)
  {
    CutElements(ring, k);
    JoinElements(freed, ring[..k]);
  }

  // ---------------------------------------------------------------- every operation keeps the invariant

  lemma InitSound(capacity: nat, strict: bool, ratio: real)
    ensures Sound(Init(capacity, strict, ratio))
  {
  }

  lemma ShedSteady(s: Shard, k: nat)
    requires Steady(s) && k <= |s.ring|
    ensures Steady(Shed(s, k).(freed := s.freed + s.ring[..k]))
  {
    ShedIndexed(s.ring, s.pinned, s.cached, k);
    ShedFreed(s.freed, s.ring, s.pinned, k);
    ShedRing(s, k);
  }

  /** Eviction keeps the invariant and leaves room, or nothing to evict. */
  lemma EvictedSound(s: Shard, charge: nat)
    requires Steady(s)
    ensures Sound(EvictedFreed(s, charge))
    ensures var t := EvictedFreed(s, charge); t.usage + charge <= t.capacity || t.ring == []
  {
    ShedSteady(s, Evictions(s, charge));
    ShortestPrefix(s.ring, s.usage, charge, s.capacity);
  }

  lemma SetCapacitySound(s: Shard, capacity: nat)
    requires Sound(s)
    ensures Sound(SetCapacity(s, capacity))
  {
    EvictedSound(s.(capacity := capacity, poolCapacity := PoolCapacity(capacity, s.ratio)), 0);
  }

  lemma SetRatioSound(s: Shard, ratio: real)
    requires Sound(s) && PoolCapacity(s.capacity, ratio) >= 0.0
    ensures Sound(SetRatio(s, ratio))
  {
    SettledRing(s.(ratio := ratio, poolCapacity := PoolCapacity(s.capacity, ratio)));
  }

  lemma EraseUnRefSound(s: Shard)
    requires Sound(s)
    ensures Sound(EraseUnRef(s))
  {
    ShedSteady(s, |s.ring|);
    assert s.ring[..|s.ring|] == s.ring;
  }

  lemma ReferencedSound(s: Shard, e: Handle)
    requires Sound(s) && e in s.refs
    ensures Sound(Referenced(s, e))
  {
  }

  /** An entry of the ring becomes pinned. */
  lemma Pinning(s: Shard, k: nat)
    requires Steady(s) && k < |s.ring|
    ensures var ring', pinned' := Without(s.ring, k), s.pinned + [s.ring[k]];
            && Apart(ring', pinned') && Counted(pinned', s.refs[s.ring[k] := 1]) && Indexed(ring', pinned', s.cached)
            && FreedOnce(s.freed, ring', pinned')
  {
    WithoutElements(s.ring, k);
    JoinElements(s.pinned, [s.ring[k]]);
  }

  lemma LookedUpSound(s: Shard, id: Id)
    requires Sound(s)
    ensures Sound(LookedUp(s, id))
  {
    if id in s.cached && s.cached[id] in s.ring {
      var e := s.cached[id];
      var k := IndexOf(s.ring, e);
      Pinning(s, k);
      RemovedRing(s, k);
      SumPush(s.pinned, e, Charge);
    }
  }

  /** An entry of the ring goes for good. */
  lemma Dropping(ring: seq<Handle>, pinned: seq<Handle>, freed: seq<Handle>, k: nat)
    requires Apart(ring, pinned) && FreedOnce(freed, ring, pinned) && k < |ring|
    ensures Apart(Without(ring, k), pinned) && FreedOnce(freed + [ring[k]], Without(ring, k), pinned)
  {
    WithoutElements(ring, k);
    JoinElements(freed, [ring[k]]);
  }

  lemma DroppingMap(ring: seq<Handle>, pinned: seq<Handle>, cached: map<Id, Handle>, k: nat)
    requires Apart(ring, pinned) && Indexed(ring, pinned, cached) && k < |ring|
    ensures Indexed(Without(ring, k), pinned, cached - {ring[k].id})
  {
    WithoutElements(ring, k);
    assert forall h :: h in ring ==> InCache(cached, h);
    assert InCache(cached, ring[k]);
  }

  lemma ErasedSound(s: Shard, id: Id)
    requires Sound(s)
    ensures Sound(Erased(s, id))
  {
    if id in s.cached && s.cached[id] in s.ring {
      var k := IndexOf(s.ring, s.cached[id]);
      Dropping(s.ring, s.pinned, s.freed, k);
      DroppingMap(s.ring, s.pinned, s.cached, k);
      RemovedRing(s.(cached := s.cached - {id}), k);
    }
  }

  /** An entry loses its last reference. */
  lemma Unpinning(s: Shard, e: Handle)
    requires Steady(s) && e in s.pinned
    ensures var pinned' := Without(s.pinned, IndexOf(s.pinned, e));
            && Apart(s.ring, pinned') && Counted(pinned', s.refs - {e}) && FreedOnce(s.freed, s.ring, pinned')
            && (forall h :: h in pinned' <==> h in s.pinned && h != e)
            && Sum(pinned', Charge) == Sum(s.pinned, Charge) - e.charge
  {
    var k := IndexOf(s.pinned, e);
    WithoutElements(s.pinned, k);
    WithoutSum(s.pinned, k);
  }

  lemma ReleasedFreesSound(s: Shard, e: Handle, force: bool)
    requires Sound(s) && e in s.pinned && s.refs[e] == 1 && ReleaseFrees(s, e, force)
    ensures Sound(Released(s, e, force))
  {
    Unpinning(s, e);
    JoinElements(s.freed, [e]);
    assert e !in s.ring;
  }

  /** An entry of the cache, with no references left, goes on the ring. */
  lemma Entering(s: Shard, pinned: seq<Handle>, ring': seq<Handle>, cached: map<Id, Handle>, e: Handle)
    requires Apart(s.ring, pinned) && FreedOnce(s.freed, s.ring, pinned) && Distinct(ring')
    requires forall h :: h in ring' <==> h in s.ring || h == e
    requires e !in pinned && e !in s.freed && InCache(cached, e) && forall h :: h in s.ring ==> InCache(cached, h)
    requires forall id :: id in cached ==> cached[id].id == id && (cached[id] == e || cached[id] in s.ring || cached[id] in pinned)
    ensures Apart(ring', pinned) && FreedOnce(s.freed, ring', pinned) && Indexed(ring', pinned, cached)
  {
  }

  /** LRU_Insert touches the ring, the split and the ring's counters only. */
  lemma EnteredFrame(s: Shard, e: Handle)
    requires s.low <= |s.ring|
    ensures var t := Entered(s, e);
            && t.pinned == s.pinned && t.refs == s.refs && t.cached == s.cached && t.hits == s.hits && t.usage == s.usage
            && t.capacity == s.capacity && t.strict == s.strict && t.ratio == s.ratio && t.poolCapacity == s.poolCapacity
            && t.freed == s.freed
  {
  }

  lemma ReleasedKeepsSound(s: Shard, e: Handle, force: bool)
    requires Sound(s) && e in s.pinned && s.refs[e] == 1 && !ReleaseFrees(s, e, force)
    ensures Sound(Released(s, e, force))
  {
    Unpinning(s, e);
    var t := s.(refs := s.refs - {e}, pinned := Without(s.pinned, IndexOf(s.pinned, e)));
    EnteredRing(t, e);
    EnteredElements(t, e);
    EnteredFrame(t, e);
    Entering(s, t.pinned, Entered(t, e).ring, s.cached, e);
  }

  lemma ReleasedSound(s: Shard, e: Handle, force: bool)
    requires Sound(s) && e in s.pinned
    ensures Sound(Released(s, e, force))
  {
    if s.refs[e] == 1 {
      if ReleaseFrees(s, e, force) {
        ReleasedFreesSound(s, e, force);
      } else {
        ReleasedKeepsSound(s, e, force);
      }
    }
  }

  /** An entry the shard has not seen. */
  ghost predicate Unseen(s: Shard, e: Handle)
  {
    e !in s.ring && e !in s.pinned && e !in s.freed && e !in s.hits
  }

  /** The entry is in the map and charged, but neither on the ring nor pinned yet. */
  ghost predicate Awaiting(s: Shard, e: Handle)
  {
    && Apart(s.ring, s.pinned) && Counted(s.pinned, s.refs) && RingCharged(s.ring, s.low, s.lruUsage, s.poolUsage)
    && FreedOnce(s.freed, s.ring, s.pinned) && PoolSized(s.capacity, s.ratio, s.poolCapacity)
    && e !in s.ring && e !in s.pinned && e !in s.freed
    && s.usage == Sum(s.ring, Charge) + Sum(s.pinned, Charge) + e.charge
    && AwaitingMap(s.ring, s.pinned, s.cached, e)
  }

  ghost predicate AwaitingMap(ring: seq<Handle>, pinned: seq<Handle>, cached: map<Id, Handle>, e: Handle)
  {
    && InCache(cached, e)
    && (forall h :: h in ring ==> InCache(cached, h))
    && (forall id :: id in cached ==> cached[id].id == id && (cached[id] == e || cached[id] in ring || cached[id] in pinned))
  }

  lemma StoredOverAwaiting(s: Shard, e: Handle)
    requires Steady(s) && Unseen(s, e) && e.id in s.cached && s.cached[e.id] in s.ring
    ensures Awaiting(Stored(s, e), e) && Stored(s, e).usage <= s.usage + e.charge
  {
    var k := IndexOf(s.ring, s.cached[e.id]);
    Dropping(s.ring, s.pinned, s.freed, k);
    RemovedRing(s.(cached := s.cached[e.id := e], usage := s.usage + e.charge), k);
    StoredOver(s.ring, s.pinned, s.cached, e, k);
    assert e !in Without(s.ring, k);
  }

  lemma StoredAwaiting(s: Shard, e: Handle)
    requires Steady(s) && Unseen(s, e)
    ensures Awaiting(Stored(s, e), e) && Stored(s, e).usage <= s.usage + e.charge
    ensures s.ring == [] ==> Stored(s, e).ring == []
    ensures var t := Stored(s, e); t.capacity == s.capacity && t.strict == s.strict
  {
    if e.id in s.cached && s.cached[e.id] in s.ring {
      StoredOverAwaiting(s, e);
    } else {
      StoredBeside(s.ring, s.pinned, s.cached, e);
    }
  }

  lemma StoredOver(ring: seq<Handle>, pinned: seq<Handle>, cached: map<Id, Handle>, e: Handle, k: nat)
    requires Apart(ring, pinned) && Indexed(ring, pinned, cached) && e !in ring
    requires k < |ring| && ring[k].id == e.id
    ensures AwaitingMap(Without(ring, k), pinned, cached[e.id := e], e)
  {
    WithoutElements(ring, k);
    assert InCache(cached, ring[k]);
    forall h | h in Without(ring, k) ensures InCache(cached[e.id := e], h) {
      assert InCache(cached, h);
    }
  }

  lemma StoredBeside(ring: seq<Handle>, pinned: seq<Handle>, cached: map<Id, Handle>, e: Handle)
    requires Indexed(ring, pinned, cached) && !(e.id in cached && cached[e.id] in ring)
    ensures AwaitingMap(ring, pinned, cached[e.id := e], e)
  {
    forall h | h in ring ensures InCache(cached[e.id := e], h) {
      assert InCache(cached, h);
    }
  }

  lemma AwaitingPinned(s: Shard, e: Handle)
    requires Awaiting(s, e)
    ensures Steady(s.(pinned := s.pinned + [e], refs := s.refs[e := 1]))
  {
    JoinElements(s.pinned, [e]);
    SumPush(s.pinned, e, Charge);
  }

  lemma AwaitingEntered(s: Shard, e: Handle)
    requires Awaiting(s, e)
    ensures Steady(Entered(s, e)) && Entered(s, e).usage == s.usage && Entered(s, e).capacity == s.capacity
  {
    EnteredRing(s, e);
    EnteredElements(s, e);
    EnteredFrame(s, e);
    Entering(s, s.pinned, Entered(s, e).ring, s.cached, e);
  }

  lemma RefusedSound(s: Shard, e: Handle, wanted: bool)
    requires Sound(s) && Unseen(s, e) && Refused(s, e, wanted)
    ensures Sound(Inserted(s, e, wanted))
  {
    EvictedSound(s, e.charge);
    EvictedUnseen(s, e.charge, e);
    JoinElements(EvictedFreed(s, e.charge).freed, [e]);
  }

  lemma EvictedUnseen(s: Shard, charge: nat, e: Handle)
    requires Unseen(s, e)
    ensures Unseen(EvictedFreed(s, charge), e)
  {
  }

  lemma InsertedSound(s: Shard, e: Handle, wanted: bool)
    requires Sound(s) && Unseen(s, e)
    ensures Sound(Inserted(s, e, wanted))
  {
    if Refused(s, e, wanted) {
      RefusedSound(s, e, wanted);
    } else {
      EvictedSound(s, e.charge);
      EvictedUnseen(s, e.charge, e);
      var t := EvictedFreed(s, e.charge);
      StoredAwaiting(t, e);
      if wanted {
        AwaitingPinned(Stored(t, e), e);
      } else {
        AwaitingEntered(Stored(t, e), e);
      }
    }
  }
}
