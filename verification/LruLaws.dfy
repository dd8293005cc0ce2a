/** What each operation of the LRU shard achieves for its caller, and what a handle is worth over a whole run. */
module LruLaws {
  import opened LruHandles
  import opened LruModel
  import opened LruTheorems
  import opened Sequences
  import opened Sums

  // ---------------------------------------------------------------- insertion

  /** An entry just stored is mapped, and nowhere else yet. */
  lemma StoredUnplaced(s: Shard, e: Handle)
    requires Sound(s) && Unseen(s, e)
    ensures var u := Stored(EvictedFreed(s, e.charge), e);
            && u.low <= |u.ring| && Distinct(u.ring) && e !in u.ring && e !in u.pinned && e !in u.refs && InCache(u.cached, e)
  {
    EvictedSound(s, e.charge);
    EvictedUnseen(s, e.charge, e);
    StoredAwaiting(EvictedFreed(s, e.charge), e);
  }

  /**
   An insertion that is not refused: the caller's handle has one reference and keeps the entry off the list; without a
   handle the entry is on the list. In both cases it is what a lookup of its id finds.
   */
  lemma InsertedIff(s: Shard, e: Handle, wanted: bool)
    requires Sound(s) && Unseen(s, e) && !Refused(s, e, wanted)
    ensures var t := Inserted(s, e, wanted);
            && InCache(t.cached, e)
            && (e in t.pinned <==> wanted) && (e in t.refs <==> wanted) && (wanted ==> t.refs[e] == 1)
            && (e in t.ring <==> !wanted)
  {
    var u := Stored(EvictedFreed(s, e.charge), e);
    StoredUnplaced(s, e);
    if !wanted {
      EnteredElements(u, e);
      EnteredFrame(u, e);
    }
  }

  /** A refused insertion: without a handle the entry is deleted at once, with one it is left to the caller. */
  lemma RefusedLeaves(s: Shard, e: Handle, wanted: bool)
    requires Sound(s) && Unseen(s, e) && Refused(s, e, wanted)
    ensures var t := Inserted(s, e, wanted);
            && (e in t.freed <==> !wanted) && e !in t.ring && e !in t.pinned && !InCache(t.cached, e)
  {
    EvictedSound(s, e.charge);
    EvictedUnseen(s, e.charge, e);
  }

  /**
   The status says what happened to an older entry of the same id, if one is left after making room: it is overwritten, and
   deleted unless somebody holds it.
   */
  lemma OverwrittenIff(s: Shard, e: Handle, wanted: bool)
    requires Sound(s) && Unseen(s, e)
    ensures InsertStatus(s, e, wanted) == Incomplete <==> Refused(s, e, wanted) && wanted
    ensures InsertStatus(s, e, wanted) == OkOverwritten
            <==> !Refused(s, e, wanted) && e.id in s.cached && s.cached[e.id] !in s.ring[..Evictions(s, e.charge)]
    ensures InsertStatus(s, e, wanted) == OkOverwritten ==>
              var prior, t := s.cached[e.id], Inserted(s, e, wanted);
              !InCache(t.cached, prior) && (prior in t.freed <==> prior !in s.pinned) && RefsNow(t, prior) == RefsNow(s, prior)
  {
    LeftAfterRoom(s, e.charge, e.id);
    if InsertStatus(s, e, wanted) == OkOverwritten {
      PriorGone(s, e, wanted);
      InsertRefs(s, e, wanted, s.cached[e.id]);
    }
  }

  /** An id is still mapped after an eviction exactly if its entry is not among the evicted. */
  lemma LeftAfterRoom(s: Shard, charge: nat, id: Id)
    requires Sound(s)
    ensures id in Evicted(s, charge).cached <==> id in s.cached && s.cached[id] !in s.ring[..Evictions(s, charge)]
    ensures id in Evicted(s, charge).cached ==> Evicted(s, charge).cached[id] == s.cached[id]
  {
    var gone := s.ring[..Evictions(s, charge)];
    forall g | g in gone ensures g in s.ring && InCache(s.cached, g) {
      assert g in s.ring;
    }
  }

  lemma PriorGone(s: Shard, e: Handle, wanted: bool)
    requires Sound(s) && Unseen(s, e) && !Refused(s, e, wanted) && e.id in Evicted(s, e.charge).cached
    requires e.id in s.cached && Evicted(s, e.charge).cached[e.id] == s.cached[e.id]
    ensures var prior, t := s.cached[e.id], Inserted(s, e, wanted);
            !InCache(t.cached, prior) && (prior in t.freed <==> prior !in s.pinned)
  {
    var v := EvictedFreed(s, e.charge);
    var u := Stored(v, e);
    EvictedSound(s, e.charge);
    StoredUnplaced(s, e);
    EnteredFrame(u, e);
  }

  // ---------------------------------------------------------------- release

  /**
   Release: a count above one goes down by one and nothing else changes. The last one puts the entry back on the list exactly
   if it is still in the table, the shard is within its capacity and erasing is not forced; otherwise it leaves the table and is
   deleted.
   */
  lemma ReleasedIff(s: Shard, e: Handle, force: bool)
    requires Sound(s) && e in s.pinned
    ensures e in s.refs && s.refs[e] > 0
    ensures s.refs[e] > 1 ==> Released(s, e, force) == s.(refs := s.refs[e := s.refs[e] - 1])
    ensures s.refs[e] == 1 ==>
              var t := Released(s, e, force);
              && e !in t.refs && e !in t.pinned
              && (e in t.ring <==> InCache(s.cached, e) && s.usage <= s.capacity && !force)
              && (InCache(t.cached, e) <==> e in t.ring) && (e in t.freed <==> e !in t.ring)
  {
    if s.refs[e] == 1 {
      LastRelease(s, e, force);
    }
  }

  lemma LastRelease(s: Shard, e: Handle, force: bool)
    requires Sound(s) && e in s.pinned && s.refs[e] == 1
    ensures var t := Released(s, e, force);
            && e !in t.refs && e !in t.pinned
            && (e in t.ring <==> InCache(s.cached, e) && s.usage <= s.capacity && !force)
            && (InCache(t.cached, e) <==> e in t.ring) && (e in t.freed <==> e !in t.ring)
  {
    var t := s.(refs := s.refs - {e}, pinned := Without(s.pinned, IndexOf(s.pinned, e)));
    WithoutElements(s.pinned, IndexOf(s.pinned, e));
    if !ReleaseFrees(s, e, force) {
      EnteredElements(t, e);
      EnteredFrame(t, e);
    }
  }

  /** Only what a release erased is gone from the table. */
  lemma ReleaseKeepsOthers(s: Shard, e: Handle, force: bool, h: Handle)
    requires Sound(s) && e in s.pinned && h != e
    ensures var t := Released(s, e, force);
            && (InCache(t.cached, h) <==> InCache(s.cached, h)) && (h in t.freed <==> h in s.freed)
  {
    if s.refs[e] == 1 && !ReleaseFrees(s, e, force) {
      EnteredFrame(s.(refs := s.refs - {e}, pinned := Without(s.pinned, IndexOf(s.pinned, e))), e);
    }
  }

  // ---------------------------------------------------------------- erasing

  /**
   Erase takes the id, and no other, out of the table. An entry on the list is deleted; one that is referenced lives on
   with the same count.
   */
  lemma ErasedIff(s: Shard, id: Id)
    requires Sound(s)
    ensures var t := Erased(s, id);
            && t.cached == s.cached - {id} && t.refs == s.refs && t.pinned == s.pinned
            && (id in s.cached ==>
                  && s.cached[id] !in t.ring
                  && (s.cached[id] in t.freed <==> s.cached[id] in s.ring)
                  && (s.cached[id] in t.freed <==> s.cached[id] !in t.pinned))
  {
    if id in s.cached && s.cached[id] in s.ring {
      WithoutElements(s.ring, IndexOf(s.ring, s.cached[id]));
    } else if id !in s.cached {
      assert s.cached - {id} == s.cached;
    }
  }

  /** EraseUnRefEntries empties the list: exactly the referenced entries stay in the table. */
  lemma EraseUnRefIff(s: Shard, h: Handle)
    requires Sound(s)
    ensures var t := EraseUnRef(s);
            && t.ring == [] && t.pinned == s.pinned && t.refs == s.refs && t.freed == s.freed + s.ring
            && (InCache(t.cached, h) <==> InCache(s.cached, h) && h in s.pinned)
            && t.lruUsage == 0 && t.usage == Sum(s.pinned, Charge)
  {
    EraseUnRefSound(s);
    assert s.ring[..|s.ring|] == s.ring;
    forall g | g in s.ring ensures InCache(s.cached, g) && (g.id == h.id && InCache(s.cached, h) ==> g == h) {
      assert InCache(s.cached, g);
    }
  }

  lemma ReferencedIff(s: Shard, e: Handle, h: Handle)
    requires Sound(s) && e in s.pinned
    ensures e in s.refs && RefsNow(Referenced(s, e), h) == RefsNow(s, h) + if h == e then 1 else 0
    ensures var t := Referenced(s, e); t.ring == s.ring && t.cached == s.cached && t.freed == s.freed && t.usage == s.usage
  {
  }

  // ---------------------------------------------------------------- the pool an entry goes to

  /**
   LRU_Insert puts an entry at the newest end of the ring exactly if there is a pool and the entry is of high priority or has been
   hit; it is in the high-priority pool then exactly if it fits there alone. Any other entry becomes the newest of the rest.
   */
  lemma EnteredWhere(s: Shard, e: Handle)
    requires RingCharged(s.ring, s.low, s.lruUsage, s.poolUsage) && PoolOk(s.ratio, s.poolCapacity) && e !in s.ring
    ensures var t := Entered(s, e);
            var high := s.ratio > 0.0 && (e.highPri || e in s.hits);
            && t.low <= |t.ring| && (high ==> t.ring == s.ring + [e])
            && (!high ==> t.ring == With(s.ring, s.low, e) && t.low == s.low + 1)
            && (e in t.ring[t.low..] <==> high && e.charge as real <= s.poolCapacity)
  {
    if ToHighPool(s, e) {
      HighWhere(s, e);
    } else {
      var t := Entered(s, e);
      WithSum(s.ring, s.low, e);
      assert t.ring[t.low..] == s.ring[s.low..];
    }
  }

  /** The split never passes the newest entry exactly if that fits the limit alone. */
  lemma SplitBeforeLast(ring: seq<Handle>, low: nat, limit: int)
    requires low < |ring| && limit >= 0
    ensures low + Overflow(ring, low, Sum(ring[low..], Charge), limit) < |ring| <==> ring[|ring| - 1].charge <= limit
  {
    var split := low + Overflow(ring, low, Sum(ring[low..], Charge), limit);
    LeastOverflow(ring, low, Sum(ring[low..], Charge), limit);
    LastAlone(ring[..|ring| - 1], ring[|ring| - 1]);
    assert ring[..|ring| - 1] + [ring[|ring| - 1]] == ring;
    if split < |ring| {
      TailSum(ring, split, |ring| - 1);
      SumNonNegative(ring[split..|ring| - 1], Charge);
    } else {
      assert TooMuch(ring, |ring| - 1, limit);
    }
  }

  lemma LastInTail(ring: seq<Handle>, e: Handle, low: nat)
    requires low <= |ring| + 1 && e !in ring
    ensures e in (ring + [e])[low..] <==> low <= |ring|
  {
    if low <= |ring| {
      assert (ring + [e])[low..][|ring| - low] == e;
    }
  }

  lemma HighWhere(s: Shard, e: Handle)
    requires RingCharged(s.ring, s.low, s.lruUsage, s.poolUsage) && ToHighPool(s, e) && s.poolCapacity >= 0.0 && e !in s.ring
    ensures var t := Entered(s, e);
            && t.low <= |t.ring| && t.ring == s.ring + [e]
            && (e in t.ring[t.low..] <==> e.charge as real <= s.poolCapacity)
  {
    PushedRing(s.ring, s.low, e);
    SplitBeforeLast(s.ring + [e], s.low, s.poolCapacity.Floor);
    OverFloor(e.charge, s.poolCapacity);
    LastInTail(s.ring, e, Entered(s, e).low);
  }

  lemma LastAlone(ring: seq<Handle>, e: Handle)
    ensures Sum((ring + [e])[|ring|..], Charge) == e.charge
  {
    assert (ring + [e])[|ring|..] == [e];
    SuffixStep([e], 0);
    assert [e][0..] == [e] && [e][1..] == [];
  }

  // ---------------------------------------------------------------- what a handle is worth

  function RefsNow(s: Shard, e: Handle): int
  {
    if e in s.refs then s.refs[e] else 0
  }

  /** The references an event gives to clients, or takes back. */
  ghost function Gained(s: Shard, v: Event, e: Handle): int
  {
    match v
    case Insert(x, wanted) => if x == e && wanted && Accepts(s, v) then 1 else 0
    case Lookup(id) => if id in s.cached && s.cached[id] == e then 1 else 0
    case Ref(h) => if h == e then 1 else 0
    case Release(h, _) => if h == e then -1 else 0
    case _ => 0
  }

  /** The references given out by the first i events and not yet given back. */
  ghost function Outstanding(states: seq<Shard>, events: seq<Event>, i: nat, e: Handle): int
    requires |states| == |events| + 1 && i <= |events|
  {
    if i == 0 then 0
    else Outstanding(states, events, i - 1, e) + Gained(states[i - 1], events[i - 1], e)
  }

  lemma InsertRefs(s: Shard, x: Handle, wanted: bool, e: Handle)
    requires Sound(s) && Unseen(s, x)
    ensures RefsNow(Inserted(s, x, wanted), e) == RefsNow(s, e) + Gained(s, Insert(x, wanted), e)
  {
    var u := Stored(EvictedFreed(s, x.charge), x);
    StoredUnplaced(s, x);
    assert u.refs == s.refs;
    if !Refused(s, x, wanted) && !wanted {
      EnteredFrame(u, x);
    }
  }

  lemma LookupRefs(s: Shard, id: Id, e: Handle)
    requires Sound(s)
    ensures RefsNow(LookedUp(s, id), e) == RefsNow(s, e) + Gained(s, Lookup(id), e)
  {
    if id in s.cached {
      LookupPins(s, id);
    }
  }

  lemma ReleaseRefs(s: Shard, h: Handle, force: bool, e: Handle)
    requires Sound(s) && h in s.pinned
    ensures RefsNow(Released(s, h, force), e) == RefsNow(s, e) + Gained(s, Release(h, force), e)
  {
    if s.refs[h] == 1 && !ReleaseFrees(s, h, force) {
      EnteredFrame(s.(refs := s.refs - {h}, pinned := Without(s.pinned, IndexOf(s.pinned, h))), h);
    }
  }

  lemma StepRefs(s: Shard, v: Event, e: Handle)
    requires Sound(s) && Allowed(s, v)
    ensures RefsNow(Step(s, v), e) == RefsNow(s, e) + Gained(s, v, e)
  {
    match v
    case Insert(x, wanted) => InsertRefs(s, x, wanted, e);
    case Lookup(id) => LookupRefs(s, id, e);
    case Release(h, force) => ReleaseRefs(s, h, force, e);
    case _ =>
  }

  lemma {:induction false} RefsAreOutstanding(states: seq<Shard>, events: seq<Event>, i: nat, e: Handle)
    requires Run(states, events) && i <= |events|
    ensures RefsNow(states[i], e) == Outstanding(states, events, i, e)
  {
    if i > 0 {
      RefsAreOutstanding(states, events, i - 1, e);
      EveryStateSound(states, events, i - 1);
      assert Leads(states[i - 1], events[i - 1], states[i]);
      StepRefs(states[i - 1], events[i - 1], e);
    }
  }

  /**
   A handle is worth what it promises: over every run the count of an entry is the number of references handed to clients and
   not given back; while there is one the entry is not deleted, and it is on the list only when there is none.
   */
  lemma HandlesKeepAlive(states: seq<Shard>, events: seq<Event>, i: nat, e: Handle)
    requires Run(states, events) && i <= |events|
    ensures RefsNow(states[i], e) == Outstanding(states, events, i, e) >= 0
    ensures Outstanding(states, events, i, e) > 0 ==> e in states[i].pinned && e !in states[i].freed && e !in states[i].ring
    ensures e in states[i].ring || e in states[i].freed ==> Outstanding(states, events, i, e) == 0
  {
    RefsAreOutstanding(states, events, i, e);
    EveryStateSound(states, events, i);
  }

  // ---------------------------------------------------------------- hits

  /** Some of the first i events was a lookup that found the entry. */
  ghost predicate FoundBefore(states: seq<Shard>, events: seq<Event>, i: nat, e: Handle)
    requires |states| == |events| + 1 && i <= |events|
  {
    exists j :: 0 <= j < i && events[j].Lookup? && Finds(states[j], events[j].id, e)
  }

  predicate Finds(s: Shard, id: Id, e: Handle)
  {
    id in s.cached && s.cached[id] == e
  }

  lemma StepHits(s: Shard, v: Event, e: Handle)
    requires Sound(s) && Allowed(s, v)
    ensures e in Step(s, v).hits <==> e in s.hits || (v.Lookup? && Finds(s, v.id, e))
  {
    match v
    case Insert(x, wanted) =>
      StoredUnplaced(s, x);
      EnteredFrame(Stored(EvictedFreed(s, x.charge), x), x);
    case Release(h, force) =>
      EnteredFrame(s.(refs := s.refs - {h}, pinned := Without(s.pinned, IndexOf(s.pinned, h))), h);
    case _ =>
  }

  /** An entry counts as hit exactly if some lookup has found it. */
  lemma {:induction false} HitIff(states: seq<Shard>, events: seq<Event>, i: nat, e: Handle)
    requires Run(states, events) && i <= |events|
    ensures e in states[i].hits <==> FoundBefore(states, events, i, e)
  {
    if i > 0 {
      HitIff(states, events, i - 1, e);
      EveryStateSound(states, events, i - 1);
      assert Leads(states[i - 1], events[i - 1], states[i]);
      StepHits(states[i - 1], events[i - 1], e);
      if events[i - 1].Lookup? && Finds(states[i - 1], events[i - 1].id, e) {
        assert FoundBefore(states, events, i, e);
      }
    }
  }
}
