/** What holds over every run of an LRU cache shard without a secondary cache. */
module LruTheorems {
  import opened LruHandles
  import opened LruModel
  import opened Sequences
  import opened Sums

  datatype Event =
    | Insert(e: Handle, wanted: bool)
    | Lookup(id: Id)
    | Ref(h: Handle)
    | Release(h: Handle, force: bool)
    | Erase(id: Id)
    | EraseUnRefEntries
    | ChangeCapacity(capacity: nat)
    | ChangeStrict(strict: bool)
    | ChangeRatio(ratio: real)

  /** What the shard asks of its callers: entries are new, and only a holder refers again or releases. */
  ghost predicate Allowed(s: Shard, v: Event)
  {
    match v
    case Insert(e, _) => Unseen(s, e)
    case Ref(h) => h in s.pinned
    case Release(h, _) => h in s.pinned
    case ChangeRatio(ratio) => PoolCapacity(s.capacity, ratio) >= 0.0
    case _ => true
  }

  ghost function Step(s: Shard, v: Event): Shard
    requires Sound(s) && Allowed(s, v)
  {
    match v
    case Insert(e, wanted) => Inserted(s, e, wanted)
    case Lookup(id) => LookedUp(s, id)
    case Ref(h) => Referenced(s, h)
    case Release(h, force) => Released(s, h, force)
    case Erase(id) => Erased(s, id)
    case EraseUnRefEntries => EraseUnRef(s)
    case ChangeCapacity(capacity) => SetCapacity(s, capacity)
    case ChangeStrict(strict) => s.(strict := strict)
    case ChangeRatio(ratio) => SetRatio(s, ratio)
  }

  lemma StepSound(s: Shard, v: Event)
    requires Sound(s) && Allowed(s, v)
    ensures Sound(Step(s, v))
  {
    match v
    case Insert(e, wanted) => InsertedSound(s, e, wanted);
    case Lookup(id) => LookedUpSound(s, id);
    case Ref(h) => ReferencedSound(s, h);
    case Release(h, force) => ReleasedSound(s, h, force);
    case Erase(id) => ErasedSound(s, id);
    case EraseUnRefEntries => EraseUnRefSound(s);
    case ChangeCapacity(capacity) => SetCapacitySound(s, capacity);
    case ChangeStrict(strict) =>
    case ChangeRatio(ratio) => SetRatioSound(s, ratio);
  }

  /** A history of a shard: its states, one per event and one more. */
  ghost predicate Run(states: seq<Shard>, events: seq<Event>)
  {
    && |states| == |events| + 1
    && (exists capacity, strict, ratio :: states[0] == Init(capacity, strict, ratio))
    && forall i :: 0 <= i < |events| ==> Leads(states[i], events[i], states[i + 1])
  }

  /** Step is defined on states that keep the invariant; EveryStateSound shows that all do. */
  ghost predicate Leads(s: Shard, v: Event, t: Shard)
  {
    Sound(s) ==> Allowed(s, v) && t == Step(s, v)
  }

  /** Every reachable state keeps the invariant. */
  lemma {:induction false} EveryStateSound(states: seq<Shard>, events: seq<Event>, i: nat)
    requires Run(states, events) && i < |states|
    ensures Sound(states[i])
  {
    if i == 0 {
      var capacity, strict, ratio :| states[0] == Init(capacity, strict, ratio);
      InitSound(capacity, strict, ratio);
    } else {
      EveryStateSound(states, events, i - 1);
      assert Leads(states[i - 1], events[i - 1], states[i]);
      StepSound(states[i - 1], events[i - 1]);
    }
  }

  // ---------------------------------------------------------------- usage

  /** The three counters are what they are named after, and none is ever negative. */
  lemma UsageIsExact(states: seq<Shard>, events: seq<Event>, i: nat)
    requires Run(states, events) && i < |states|
    ensures var s := states[i];
            && s.usage == Sum(s.ring, Charge) + Sum(s.pinned, Charge)
            && s.lruUsage == Sum(s.ring, Charge) && s.usage - s.lruUsage == Sum(s.pinned, Charge)
            && s.low <= |s.ring| && s.poolUsage == Sum(s.ring[s.low..], Charge)
            && 0 <= s.poolUsage <= s.lruUsage <= s.usage
  {
    EveryStateSound(states, events, i);
    var s := states[i];
    SumNonNegative(s.ring[s.low..], Charge);
    SumNonNegative(s.ring[..s.low], Charge);
    SumNonNegative(s.pinned, Charge);
    assert s.ring == s.ring[..s.low] + s.ring[s.low..];
    SumConcat(s.ring[..s.low], s.ring[s.low..], Charge);
  }

  /** Whether an insertion is refused depends on the pinned entries alone: the rest can be evicted. */
  lemma RefusedIff(s: Shard, e: Handle, wanted: bool)
    requires Sound(s)
    ensures Refused(s, e, wanted) <==> (s.strict || !wanted) && Sum(s.pinned, Charge) + e.charge > s.capacity
  {
    var k := Evictions(s, e.charge);
    ShedRing(s, k);
    ShortestPrefix(s.ring, s.usage, e.charge, s.capacity);
    SumNonNegative(s.ring[k..], Charge);
    if k == |s.ring| {
      assert s.ring[k..] == [];
    }
  }

  /** Neither the limit is relaxed nor the capacity lowered. */
  ghost predicate Tight(s: Shard, v: Event)
  {
    match v
    case ChangeStrict(strict) => strict
    case ChangeCapacity(capacity) => capacity >= s.capacity
    case _ => true
  }

  /** With the strict limit on from the start and the capacity never lowered, usage never exceeds it. */
  lemma {:induction false} StrictLimit(states: seq<Shard>, events: seq<Event>, i: nat)
    requires Run(states, events) && i < |states|
    requires states[0].strict && forall j :: 0 <= j < i ==> Tight(states[j], events[j])
    ensures states[i].strict && states[i].usage <= states[i].capacity
  {
    if i > 0 {
      StrictLimit(states, events, i - 1);
      EveryStateSound(states, events, i - 1);
      assert Leads(states[i - 1], events[i - 1], states[i]) && Tight(states[i - 1], events[i - 1]);
      TightStep(states[i - 1], events[i - 1]);
    }
  }

  lemma TightStep(s: Shard, v: Event)
    requires Sound(s) && Allowed(s, v) && Tight(s, v) && s.strict && s.usage <= s.capacity
    ensures Step(s, v).strict && Step(s, v).usage <= Step(s, v).capacity
  {
    match v
    case Insert(e, wanted) => TightInsert(s, e, wanted);
    case Release(h, force) => TightRelease(s, h, force);
    case EraseUnRefEntries => SumNonNegative(s.ring[..|s.ring|], Charge);
    case ChangeCapacity(capacity) =>
      SumNonNegative(s.ring[..Evictions(s.(capacity := capacity), 0)], Charge);
    case _ =>
  }

  lemma TightInsert(s: Shard, e: Handle, wanted: bool)
    requires Sound(s) && Unseen(s, e) && s.strict && s.usage <= s.capacity
    ensures var t := Inserted(s, e, wanted); t.strict && t.usage <= t.capacity
  {
    var t := EvictedFreed(s, e.charge);
    EvictedSound(s, e.charge);
    EvictedUnseen(s, e.charge, e);
    SumNonNegative(s.ring[..Evictions(s, e.charge)], Charge);
    if !Refused(s, e, wanted) {
      StoredAwaiting(t, e);
      EnteredFrame(Stored(t, e), e);
    }
  }

  lemma TightRelease(s: Shard, h: Handle, force: bool)
    requires Sound(s) && h in s.pinned && s.strict && s.usage <= s.capacity
    ensures var t := Released(s, h, force); t.strict && t.usage <= t.capacity
  {
    if s.refs[h] == 1 && !ReleaseFrees(s, h, force) {
      EnteredFrame(s.(refs := s.refs - {h}, pinned := Without(s.pinned, IndexOf(s.pinned, h))), h);
    }
  }

  /** A shard's history and a position in it. */
  datatype History = History(states: seq<Shard>, events: seq<Event>, at: nat)

  /** A shard that is strict from the start and not relaxed up to here, where it has the given capacity. */
  ghost predicate StrictShard(h: History, capacity: nat)
  {
    && Run(h.states, h.events) && h.at < |h.states|
    && h.states[0].strict && (forall j :: 0 <= j < h.at ==> Tight(h.states[j], h.events[j]))
    && h.states[h.at].capacity == capacity
  }

  function UsageNow(h: History): int
  {
    if h.at < |h.states| then h.states[h.at].usage else 0
  }

  /**
   The shards of a strict cache of the given capacity, each with its share rounded up: whatever each of them has been through,
   their usage together exceeds the capacity by less than their number.
   */
  lemma StrictTotal(shards: seq<History>, capacity: nat)
    requires |shards| > 0
    requires AllStrict(shards, Share(capacity, |shards|))
    ensures Sum(shards, UsageNow) < capacity + |shards|
  {
    UsageAtMost(shards, Share(capacity, |shards|));
  }

  /** The part of the capacity each of n shards gets, rounded up. */
  function Share(capacity: nat, n: nat): (share: nat)
    requires n > 0
    ensures capacity <= n * share < capacity + n
  {
    (capacity + (n - 1)) / n
  }

  ghost predicate AllStrict(shards: seq<History>, capacity: nat)
  {
    forall i :: 0 <= i < |shards| ==> StrictShard(shards[i], capacity)
  }

  lemma ShardUsage(h: History, capacity: nat)
    requires StrictShard(h, capacity)
    ensures UsageNow(h) <= capacity
  {
    StrictLimit(h.states, h.events, h.at);
  }

  lemma UsageAtMost(shards: seq<History>, each: nat)
    requires AllStrict(shards, each)
    ensures Sum(shards, UsageNow) <= |shards| * each
  {
    forall i | 0 <= i < |shards| ensures UsageNow(shards[i]) <= each {
      ShardUsage(shards[i], each);
    }
    SumAtMost(shards, UsageNow, each);
  }

  // ---------------------------------------------------------------- lives of entries

  /** Whether an insertion hands the entry to the shard; the other case is Incomplete. */
  ghost predicate Accepts(s: Shard, v: Event)
  {
    v.Insert? && InsertStatus(s, v.e, v.wanted) != Incomplete
  }

  /** The entries accepted by the first i events. */
  ghost function AcceptedBy(states: seq<Shard>, events: seq<Event>, i: nat): set<Handle>
    requires |states| == |events| + 1 && i <= |events|
  {
    if i == 0 then {}
    else AcceptedBy(states, events, i - 1) + if Accepts(states[i - 1], events[i - 1]) then {events[i - 1].e} else {}
  }

  /** Everything the shard answers for. */
  ghost function Known(s: Shard): set<Handle>
  {
    Elements(s.ring) + Elements(s.pinned) + Elements(s.freed)
  }

  lemma EvictedKnown(s: Shard, charge: nat)
    requires Steady(s)
    ensures Known(EvictedFreed(s, charge)) == Known(s)
  {
    CutElements(s.ring, Evictions(s, charge));
  }

  lemma StoredKnown(s: Shard, e: Handle)
    requires Steady(s)
    ensures Known(Stored(s, e)) == Known(s)
  {
    if e.id in s.cached && s.cached[e.id] in s.ring {
      WithoutSet(s.ring, IndexOf(s.ring, s.cached[e.id]));
    }
  }

  lemma EnteredKnown(s: Shard, e: Handle)
    requires s.low <= |s.ring| && Distinct(s.ring) && e !in s.ring
    ensures Known(Entered(s, e)) == Known(s) + {e}
  {
    EnteredElements(s, e);
    EnteredFrame(s, e);
    assert Elements(Entered(s, e).ring) == Elements(s.ring) + {e};
  }

  lemma PinnedKnown(s: Shard, e: Handle)
    ensures Known(s.(pinned := s.pinned + [e], refs := s.refs[e := 1])) == Known(s) + {e}
  {
    assert Elements(s.pinned + [e]) == Elements(s.pinned) + {e};
  }

  lemma FreedKnown(s: Shard, e: Handle)
    ensures Known(s.(freed := s.freed + [e])) == Known(s) + {e}
  {
    assert Elements(s.freed + [e]) == Elements(s.freed) + {e};
  }

  lemma InsertedKnown(s: Shard, e: Handle, wanted: bool)
    requires Sound(s) && Unseen(s, e)
    ensures Known(Inserted(s, e, wanted))
            == Known(s) + if InsertStatus(s, e, wanted) == Incomplete then {} else {e}
  {
    var t := EvictedFreed(s, e.charge);
    EvictedKnown(s, e.charge);
    if Refused(s, e, wanted) {
      FreedKnown(t, e);
    } else {
      EvictedSound(s, e.charge);
      EvictedUnseen(s, e.charge, e);
      StoredKnown(t, e);
      StoredAwaiting(t, e);
      if wanted {
        PinnedKnown(Stored(t, e), e);
      } else {
        EnteredKnown(Stored(t, e), e);
      }
    }
  }

  lemma UnpinnedKnown(s: Shard, h: Handle)
    requires Distinct(s.pinned) && h in s.pinned
    ensures Known(s.(refs := s.refs - {h}, pinned := Without(s.pinned, IndexOf(s.pinned, h)))) + {h} == Known(s)
  {
    WithoutSet(s.pinned, IndexOf(s.pinned, h));
  }

  lemma ReleasedKnown(s: Shard, h: Handle, force: bool)
    requires Sound(s) && h in s.pinned
    ensures Known(Released(s, h, force)) == Known(s)
  {
    if s.refs[h] == 1 {
      UnpinnedKnown(s, h);
      var t := s.(refs := s.refs - {h}, pinned := Without(s.pinned, IndexOf(s.pinned, h)));
      if ReleaseFrees(s, h, force) {
        FreedKnown(t, h);
        assert Known(Released(s, h, force)) == Known(t.(freed := t.freed + [h]));
      } else {
        EnteredKnown(t, h);
      }
    }
  }

  /** Moving an entry from the ring to the pinned ones. */
  lemma MovedKnown(ring: seq<Handle>, pinned: seq<Handle>, k: nat)
    requires Distinct(ring) && k < |ring|
    ensures Elements(Without(ring, k)) + Elements(pinned + [ring[k]]) == Elements(ring) + Elements(pinned)
  {
    WithoutSet(ring, k);
    assert Elements(pinned + [ring[k]]) == Elements(pinned) + {ring[k]};
  }

  lemma LookedUpKnown(s: Shard, id: Id)
    requires Sound(s)
    ensures Known(LookedUp(s, id)) == Known(s)
  {
    if id in s.cached && s.cached[id] in s.ring {
      MovedKnown(s.ring, s.pinned, IndexOf(s.ring, s.cached[id]));
    }
  }

  lemma ErasedKnown(s: Shard, id: Id)
    requires Sound(s)
    ensures Known(Erased(s, id)) == Known(s)
  {
    if id in s.cached && s.cached[id] in s.ring {
      WithoutSet(s.ring, IndexOf(s.ring, s.cached[id]));
    }
  }

  /** No operation but an accepting insertion adds to what the shard answers for, and none loses any of it. */
  lemma StepKnown(s: Shard, v: Event)
    requires Sound(s) && Allowed(s, v)
    ensures Known(Step(s, v)) == Known(s) + if Accepts(s, v) then {v.e} else {}
  {
    match v
    case Insert(e, wanted) => InsertedKnown(s, e, wanted);
    case Lookup(id) => LookedUpKnown(s, id);
    case Release(h, force) => ReleasedKnown(s, h, force);
    case Erase(id) => ErasedKnown(s, id);
    case EraseUnRefEntries =>
    case ChangeCapacity(capacity) =>
      EvictedKnown(s.(capacity := capacity, poolCapacity := PoolCapacity(capacity, s.ratio)), 0);
    case _ =>
  }

  lemma {:induction false} KnownIsAccepted(states: seq<Shard>, events: seq<Event>, i: nat)
    requires Run(states, events) && i <= |events|
    ensures Known(states[i]) == AcceptedBy(states, events, i)
  {
    if i > 0 {
      KnownIsAccepted(states, events, i - 1);
      EveryStateSound(states, events, i - 1);
      assert Leads(states[i - 1], events[i - 1], states[i]);
      StepKnown(states[i - 1], events[i - 1]);
    }
  }

  /**
   The life of an entry. At every state of every run, an accepted entry is in exactly one of the three documented states or
   has been deleted; its deleter has run at most once, and has run exactly when it is neither in the table nor referenced.
   */
  lemma LifeOfAnEntry(states: seq<Shard>, events: seq<Event>, i: nat, e: Handle)
    requires Run(states, events) && i <= |events| && e in AcceptedBy(states, events, i)
    ensures var s := states[i];
            && (e in s.ring <==> InCache(s.cached, e) && e !in s.refs)
            && (e in s.pinned <==> e in s.refs)
            && (e in s.freed <==> !InCache(s.cached, e) && e !in s.refs)
            && Distinct(s.freed)
  {
    KnownIsAccepted(states, events, i);
    EveryStateSound(states, events, i);
  }

  /** An entry whose insertion was Incomplete, or that was never inserted, is not the shard's to delete. */
  lemma IncompleteNeverDeleted(states: seq<Shard>, events: seq<Event>, i: nat, e: Handle)
    requires Run(states, events) && i <= |events| && e !in AcceptedBy(states, events, i)
    ensures var s := states[i]; e !in s.freed && e !in s.ring && e !in s.refs && !InCache(s.cached, e)
  {
    KnownIsAccepted(states, events, i);
    EveryStateSound(states, events, i);
  }

  // ---------------------------------------------------------------- what a lookup finds

  /** The latest entry of each id that an insertion actually stored. */
  ghost function LatestStored(states: seq<Shard>, events: seq<Event>, i: nat): map<Id, Handle>
    requires |states| == |events| + 1 && i <= |events|
  {
    if i == 0 then map[]
    else
      var before, v := LatestStored(states, events, i - 1), events[i - 1];
      if v.Insert? && !Refused(states[i - 1], v.e, v.wanted) then before[v.e.id := v.e] else before
  }

  lemma InsertedCached(s: Shard, e: Handle, wanted: bool)
    requires Sound(s)
    ensures Inserted(s, e, wanted).cached
            == if Refused(s, e, wanted) then Evicted(s, e.charge).cached else Evicted(s, e.charge).cached[e.id := e]
  {
    if !Refused(s, e, wanted) && !wanted {
      EnteredFrame(Stored(EvictedFreed(s, e.charge), e), e);
    }
  }

  lemma ReleasedCached(s: Shard, h: Handle, force: bool)
    requires Sound(s) && h in s.pinned
    ensures forall id :: id in Released(s, h, force).cached ==> id in s.cached && Released(s, h, force).cached[id] == s.cached[id]
  {
    if s.refs[h] == 1 && !ReleaseFrees(s, h, force) {
      EnteredFrame(s.(refs := s.refs - {h}, pinned := Without(s.pinned, IndexOf(s.pinned, h))), h);
    }
  }

  /** Apart from storing insertions, an operation changes the map only by taking entries out. */
  lemma StepCached(s: Shard, v: Event, id: Id)
    requires Sound(s) && Allowed(s, v) && id in Step(s, v).cached
    ensures if v.Insert? && !Refused(s, v.e, v.wanted) && v.e.id == id then Step(s, v).cached[id] == v.e
            else id in s.cached && s.cached[id] == Step(s, v).cached[id]
  {
    match v
    case Insert(e, wanted) => InsertedCached(s, e, wanted);
    case Release(h, force) => ReleasedCached(s, h, force);
    case _ =>
  }

  /** A lookup finds nothing, or the entry of the latest insertion of that id that was stored. */
  lemma {:induction false} LookupFindsLatest(states: seq<Shard>, events: seq<Event>, i: nat, id: Id)
    requires Run(states, events) && i <= |events| && id in states[i].cached
    ensures id in LatestStored(states, events, i) && states[i].cached[id] == LatestStored(states, events, i)[id]
  {
    if i > 0 {
      EveryStateSound(states, events, i - 1);
      assert Leads(states[i - 1], events[i - 1], states[i]);
      StepCached(states[i - 1], events[i - 1], id);
      if id in states[i - 1].cached {
        LookupFindsLatest(states, events, i - 1, id);
      }
    }
  }

  /** A found entry is pinned by the lookup, and counted as hit. */
  lemma LookupPins(s: Shard, id: Id)
    requires Sound(s) && id in s.cached
    ensures var e, t := s.cached[id], LookedUp(s, id);
            && e.id == id && e in t.refs && e in t.hits && t.cached == s.cached && t.usage == s.usage
            && t.refs[e] == (if e in s.refs then s.refs[e] else 0) + 1
            && forall h :: h in s.refs && h != e ==> h in t.refs && t.refs[h] == s.refs[h]
  {
  }

  /** An insertion dropped for space leaves an older pinned entry of the same id visible. */
  lemma DroppedLeavesOlder(s: Shard, e: Handle, wanted: bool)
    requires Sound(s) && Unseen(s, e) && Refused(s, e, wanted) && e.id in s.cached && s.cached[e.id] in s.pinned
    ensures InCache(Inserted(s, e, wanted).cached, s.cached[e.id])
  {
    var k := Evictions(s, e.charge);
    forall h | h in s.ring[..k] ensures h.id != e.id {
      assert h in s.ring && InCache(s.cached, h);
    }
  }

  // ---------------------------------------------------------------- the high-priority pool

  /** LRU_Insert into the high-priority pool leaves it within its size, with the entry as its newest. */
  lemma PoolWithin(s: Shard, e: Handle)
    requires Sound(s) && ToHighPool(s, e)
    ensures var t := Entered(s, e); !Over(t.poolUsage, s.poolCapacity) && s.low <= t.low && t.ring == s.ring + [e]
  {
    PoolSettles(s, e);
  }

  lemma PoolSettles(s: Shard, e: Handle)
    requires RingCharged(s.ring, s.low, s.lruUsage, s.poolUsage) && ToHighPool(s, e) && PoolOk(s.ratio, s.poolCapacity)
    ensures var t := Entered(s, e); !Over(t.poolUsage, s.poolCapacity) && s.low <= t.low && t.ring == s.ring + [e]
  {
    PushedRing(s.ring, s.low, e);
    OverflowEnough(s.ring + [e], s.low, s.poolUsage + e.charge, s.poolCapacity.Floor);
    OverFloor(Entered(s, e).poolUsage, s.poolCapacity);
  }

  lemma OverflowEnough(ring: seq<Handle>, low: nat, pool: int, limit: int)
    requires low <= |ring| && pool == Sum(ring[low..], Charge) && limit >= 0
    ensures pool - Sum(ring[low..low + Overflow(ring, low, pool, limit)], Charge) <= limit
  {
    LeastOverflow(ring, low, pool, limit);
    TailSum(ring, low, low + Overflow(ring, low, pool, limit));
  }

  /** The pool is within its size. */
  predicate Fits(s: Shard)
  {
    !Over(s.poolUsage, s.poolCapacity)
  }

  /** The shortest prefix of the ring without which the usage is within the capacity, or all of it. */
  ghost predicate Excess(s: Shard, capacity: nat, k: nat)
  {
    && k <= |s.ring| && (k == |s.ring| || s.usage - Sum(s.ring[..k], Charge) <= capacity)
    && forall m :: 0 <= m < k ==> s.usage - Sum(s.ring[..m], Charge) > capacity
  }

  lemma ExcessIsEvicted(s: Shard, capacity: nat, k: nat)
    requires Excess(s, capacity, k)
    ensures k == EvictCount(s.ring, s.usage, 0, capacity)
  {
    ShortestPrefix(s.ring, s.usage, 0, capacity);
  }

  /** What is left of the high-priority pool, at its old end or at the end of what was evicted. */
  function PoolStart(s: Shard, k: nat): nat
  {
    if k < s.low then s.low else k
  }

  lemma PoolAfter(s: Shard, capacity: nat)
    requires RingCharged(s.ring, s.low, s.lruUsage, s.poolUsage)
    ensures var t := SetCapacity(s, capacity);
            && t.poolUsage == Sum(s.ring[PoolStart(s, EvictCount(s.ring, s.usage, 0, capacity))..], Charge)
            && t.poolCapacity == PoolCapacity(capacity, s.ratio)
  {
    var k := EvictCount(s.ring, s.usage, 0, capacity);
    if k >= s.low {
      TailSum(s.ring, s.low, k);
    }
  }

  lemma OverAfter(s: Shard, capacity: nat, k: nat)
    requires RingCharged(s.ring, s.low, s.lruUsage, s.poolUsage) && k == EvictCount(s.ring, s.usage, 0, capacity)
    ensures !Fits(SetCapacity(s, capacity)) <==> Over(Sum(s.ring[PoolStart(s, k)..], Charge), PoolCapacity(capacity, s.ratio))
  {
    PoolAfter(s, capacity);
  }

  /**
   SetCapacity resizes the pool without demoting anything: it ends up over its size exactly if the entries it had that are not
   evicted charge more than the new size.
   */
  lemma CapacityOverfillsIff(s: Shard, capacity: nat, k: nat)
    requires Sound(s) && Excess(s, capacity, k)
    ensures !Fits(SetCapacity(s, capacity)) <==> Over(Sum(s.ring[PoolStart(s, k)..], Charge), PoolCapacity(capacity, s.ratio))
  {
    ExcessIsEvicted(s, capacity, k);
    OverAfter(s, capacity, k);
  }

  /** A high-priority entry of charge 8 fits the pool of a shard of 20, and overfills it when the capacity becomes 10. */
  lemma CapacityOverfills(e: Handle) returns (states: seq<Shard>, events: seq<Event>)
    requires e.charge == 8 && e.highPri
    ensures Run(states, events) && |states| == 3 && events == [Insert(e, false), ChangeCapacity(10)]
    ensures states[0] == Init(20, false, 0.5) && Fits(states[1]) && !Fits(states[2])
    ensures states[2].ring == [e] && states[2].usage <= states[2].capacity
  {
    var s := Init(20, false, 0.5);
    var t := Inserted(s, e, false);
    var u := SetCapacity(t, 10);
    FirstEntry(s, e);
    states, events := [s, t, u], [Insert(e, false), ChangeCapacity(10)];
    assert forall i :: 0 <= i < |events| ==> Leads(states[i], events[i], states[i + 1]);
  }

  lemma FirstEntry(s: Shard, e: Handle)
    requires s == Init(20, false, 0.5) && e.charge == 8 && e.highPri
    ensures var t := Inserted(s, e, false); t.ring == [e] && t.low == 0 && t.poolUsage == 8 && t.usage == 8 && t.ratio == 0.5
    ensures Inserted(s, e, false).poolCapacity == 10.0
  {
    assert Evictions(s, e.charge) == 0;
    assert [] + [e] == [e];
  }

  // ---------------------------------------------------------------- when the pool stays within its size

  lemma ShedFits(s: Shard, k: nat)
    requires k <= |s.ring| && Fits(s)
    ensures Fits(Shed(s, k))
  {
    if s.low <= k {
      SumNonNegative(s.ring[s.low..k], Charge);
    }
  }

  lemma EnteredFits(s: Shard, e: Handle)
    requires RingCharged(s.ring, s.low, s.lruUsage, s.poolUsage) && PoolOk(s.ratio, s.poolCapacity) && Fits(s)
    ensures Fits(Entered(s, e))
  {
    EnteredFrame(s, e);
    if ToHighPool(s, e) {
      PoolSettles(s, e);
    }
  }

  lemma StoredFits(s: Shard, e: Handle)
    requires Fits(s)
    ensures Fits(Stored(s, e))
  {
  }

  lemma InsertedFits(s: Shard, e: Handle, wanted: bool)
    requires Sound(s) && Unseen(s, e) && Fits(s)
    ensures Fits(Inserted(s, e, wanted))
  {
    var t := EvictedFreed(s, e.charge);
    ShedFits(s, Evictions(s, e.charge));
    EvictedSound(s, e.charge);
    EvictedUnseen(s, e.charge, e);
    if !Refused(s, e, wanted) {
      StoredAwaiting(t, e);
      StoredFits(t, e);
      EnteredFits(Stored(t, e), e);
    }
  }

  lemma ReleasedFits(s: Shard, h: Handle, force: bool)
    requires Sound(s) && h in s.pinned && Fits(s)
    ensures Fits(Released(s, h, force))
  {
    if s.refs[h] == 1 && !ReleaseFrees(s, h, force) {
      EnteredFits(s.(refs := s.refs - {h}, pinned := Without(s.pinned, IndexOf(s.pinned, h))), h);
    }
  }

  lemma RatioFits(s: Shard, ratio: real)
    requires Sound(s) && PoolCapacity(s.capacity, ratio) >= 0.0
    ensures Fits(SetRatio(s, ratio))
  {
    var limit := PoolCapacity(s.capacity, ratio);
    OverFloor(SetRatio(s, ratio).poolUsage, limit);
    OverflowEnough(s.ring, s.low, s.poolUsage, limit.Floor);
  }

  lemma LargerPool(capacity: nat, capacity': nat, ratio: real)
    requires capacity <= capacity' && ratio >= 0.0
    ensures PoolCapacity(capacity, ratio) <= PoolCapacity(capacity', ratio)
  {
    assert (capacity' as real - capacity as real) * ratio >= 0.0;
  }

  lemma CapacityFits(s: Shard, capacity: nat)
    requires Sound(s) && Fits(s) && s.capacity <= capacity && s.ratio >= 0.0
    ensures Fits(SetCapacity(s, capacity))
  {
    LargerPool(s.capacity, capacity, s.ratio);
    var t := s.(capacity := capacity, poolCapacity := PoolCapacity(capacity, s.ratio));
    ShedFits(t, Evictions(t, 0));
  }

  /** The capacity is not lowered, and no share is negative. */
  ghost predicate Raises(s: Shard, v: Event)
  {
    s.ratio >= 0.0 && (v.ChangeCapacity? ==> s.capacity <= v.capacity)
  }

  lemma StepFits(s: Shard, v: Event)
    requires Sound(s) && Allowed(s, v) && Fits(s) && Raises(s, v)
    ensures Fits(Step(s, v))
  {
    match v
    case Insert(e, wanted) => InsertedFits(s, e, wanted);
    case Release(h, force) => ReleasedFits(s, h, force);
    case EraseUnRefEntries => ShedFits(s, |s.ring|);
    case ChangeCapacity(capacity) => CapacityFits(s, capacity);
    case ChangeRatio(ratio) => RatioFits(s, ratio);
    case _ =>
  }

  /** The induction, in terms of the pool size the shard has stored; the theorem below is in terms of what it is derived from. */
  lemma {:induction false} EveryStateFits(states: seq<Shard>, events: seq<Event>, i: nat)
    requires Run(states, events) && i < |states|
    requires states[0].ratio >= 0.0 && forall j :: 0 <= j < i ==> Raises(states[j], events[j])
    ensures Fits(states[i])
  {
    if i > 0 {
      EveryStateFits(states, events, i - 1);
      EveryStateSound(states, events, i - 1);
      assert Leads(states[i - 1], events[i - 1], states[i]) && Raises(states[i - 1], events[i - 1]);
      StepFits(states[i - 1], events[i - 1]);
    }
  }

  /** As long as the share is not negative and the capacity never lowered, the pool is within its size at every state. */
  lemma PoolAlwaysFits(states: seq<Shard>, events: seq<Event>, i: nat)
    requires Run(states, events) && i < |states|
    requires states[0].ratio >= 0.0 && forall j :: 0 <= j < i ==> Raises(states[j], events[j])
    ensures states[i].poolUsage as real <= states[i].capacity as real * states[i].ratio
  {
    EveryStateSound(states, events, i);
    EveryStateFits(states, events, i);
  }
}
