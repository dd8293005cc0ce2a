/**
 The list of the LRU cache shard as it stands in memory: circular and doubly linked through a sentinel, with a pointer that
 ends the low-priority pool, and the two counters of the list.
 */
module LruLists {
  import opened LruHandles
  import opened LruModel
  import opened LruRing
  import opened Sequences
  import opened Sums

  ghost predicate AllSeen(entries: seq<Handle>, all: set<Handle>)
  {
    forall h {:trigger Seen(h, all)} :: h in entries ==> Seen(h, all)
  }

  ghost predicate Seen(h: Handle, all: set<Handle>)
  {
    h in all
  }

  /** The pool flag of each entry on the list says on which side of the split it is. */
  ghost predicate Flagged(all: set<Handle>, ring: seq<Handle>, low: nat)
    requires low <= |ring|
    reads all`inHighPriPool
  {
    forall h {:trigger FlagOf(h, ring, low)} :: h in all ==> FlagOf(h, ring, low)
  }

  ghost predicate FlagOf(h: Handle, ring: seq<Handle>, low: nat)
    requires low <= |ring|
    reads h`inHighPriPool
  {
    h in ring ==> (h.inHighPriPool <==> h in ring[low..])
  }

  class LruList {
    const lru: Handle
    var lowPri: Handle
    var lruUsage: int
    var poolUsage: int
    /** The entries on the list, oldest first, and how many of them are in the low-priority pool. */
    ghost var ring: seq<Handle>
    ghost var low: nat
    /** The sentinel and every entry that may be on the list. */
    ghost var all: set<Handle>

    ghost predicate OnList(ring: seq<Handle>)
      reads this`all
    {
      Proper(lru, ring) && lru in all && AllSeen(ring, all)
    }

    ghost predicate Valid()
      reads this`lowPri, this`ring, this`low, this`all, all`next, all`prev, all`inHighPriPool
    {
      && low <= |ring|
      && forall b {:trigger Open(b)} :: Open(b) ==>
           && OnList(ring) && Linked(lru, all, ring)
           && lowPri == Node(lru, ring, low) && Flagged(all, ring, low)
    }

    constructor ()
      ensures Valid() && ring == [] && low == 0 && lruUsage == 0 && poolUsage == 0 && fresh(lru) && all == {lru}
      ensures lru.refs == 0 && !lru.inCache && !lru.hasHit
    {
      var sentinel := new Handle(Id(0, ""), 0, 0, false, false);
      lru := sentinel;
      lowPri := sentinel;
      lruUsage := 0;
      poolUsage := 0;
      ring := [];
      low := 0;
      all := {sentinel};
      new;
      lru.next := lru;
      lru.prev := lru;
    }

    /** A new entry may come onto the list. */
    ghost method Admit(e: Handle)
      requires Valid() && e !in all && e.next == null && e.prev == null
      modifies this`all
      ensures Valid() && all == old(all) + {e} && e !in ring && e != lru
    {
      assert Open(true);
      assert e in ring ==> Seen(e, all);
      all := all + {e};
      forall h | h in all ensures InPlace(lru, ring, h) && FlagOf(h, ring, low) {
        assert h != e ==> old(InPlace(lru, ring, h)) && old(FlagOf(h, ring, low));
      }
      forall h | h in ring ensures Seen(h, all) {
        assert Seen(h, old(all));
      }
    }

    lemma RingSeen(h: Handle)
      requires Valid() && h in ring
      ensures h in all && h != lru
    {
      assert Open(true) && Seen(h, all);
    }

    lemma RingAllSeen()
      requires Valid()
      ensures AllSeen(ring, all)
    {
      assert Open(true);
    }

    method Oldest() returns (e: Handle)
      requires Valid()
      ensures if ring == [] then e == lru else e == ring[0] != lru
    {
      assert Open(true);
      NextAt(lru, ring, 0);
      assert InPlace(lru, ring, lru);
      e := lru.next;
    }

    /** Takes entry k of the ring out of the links. */
    method Unlink(e: Handle, ghost k: nat)
      requires OnList(ring) && Linked(lru, all, ring) && k < |ring| && ring[k] == e
      modifies all`next, all`prev
      ensures OnList(Without(ring, k)) && Linked(lru, all, Without(ring, k))
    {
      ghost var before, after := Node(lru, ring, k), Node(lru, ring, k + 2);
      Neighbours(lru, ring, k);
      assert Seen(e, all) && (before != lru ==> Seen(before, all)) && (after != lru ==> Seen(after, all));
      assert InPlace(lru, ring, e);
      Join(e, before, after);
      ProperWithout(lru, ring, k, all);
      ghost var ring' := Without(ring, k);
      forall h | h in all ensures InPlace(lru, ring', h) {
        assert old(InPlace(lru, ring, h));
        NextWithout(lru, ring, k, h);
        PrevWithout(lru, ring, k, h);
      }
    }

    /** Links e in between two neighbours, as entry p of the ring. */
    method LinkIn(e: Handle, before: Handle, after: Handle, ghost p: nat)
      requires OnList(ring) && Linked(lru, all, ring) && p <= |ring| && e in all && e !in ring && e != lru
      requires before == Node(lru, ring, p) && after == Node(lru, ring, p + 1)
      modifies all`next, all`prev
      ensures OnList(With(ring, p, e)) && Linked(lru, all, With(ring, p, e))
    {
      assert (before != lru ==> Seen(before, all)) && (after != lru ==> Seen(after, all));
      Insinuate(e, before, after);
      ProperWith(lru, ring, p, e, all);
      ghost var ring' := With(ring, p, e);
      forall h | h in all ensures InPlace(lru, ring', h) {
        assert old(InPlace(lru, ring, h));
        NextWith(lru, ring, p, e, h);
      }
    }

    /** LRU_Remove */
    method Remove(e: Handle, ghost k: nat)
      requires Valid() && k < |ring| && ring[k] == e
      requires lruUsage >= e.charge && (k >= low ==> poolUsage >= e.charge)
      modifies this`lowPri, this`lruUsage, this`poolUsage, this`ring, this`low, all`next, all`prev
      ensures Valid() && ring == Without(old(ring), k) && low == (if k < old(low) then old(low) - 1 else old(low))
      ensures lruUsage == old(lruUsage) - e.charge
      ensures poolUsage == if k < old(low) then old(poolUsage) else old(poolUsage) - e.charge
    {
      assert Open(true);
      SplitWithout(lru, ring, low, k);
      FlagsWithout(lru, all, ring, low, k);
      Neighbours(lru, ring, k);
      assert Seen(e, all) && InPlace(lru, ring, e) && FlagOf(e, ring, low);
      if lowPri == e {
        lowPri := e.prev;
      }
      Unlink(e, k);
      assert lruUsage >= e.charge;
      lruUsage := lruUsage - e.charge;
      if e.inHighPriPool {
        assert poolUsage >= e.charge;
        poolUsage := poolUsage - e.charge;
      }
      ring, low := Without(ring, k), if k < low then low - 1 else low;
    }

    /** One round of MaintainPoolSize: the oldest high-priority entry joins the low-priority pool. */
    method Demote()
      requires Valid() && low < |ring| && poolUsage >= ring[low].charge
      modifies this`lowPri, this`poolUsage, this`low, all`inHighPriPool
      ensures Valid() && low == old(low) + 1 && poolUsage == old(poolUsage) - ring[old(low)].charge
    {
      assert Open(true);
      NextAt(lru, ring, low);
      assert (lowPri != lru ==> Seen(lowPri, all)) && InPlace(lru, ring, lowPri);
      lowPri := lowPri.next;
      assert lowPri != lru;
      assert Seen(lowPri, all);
      lowPri.inHighPriPool := false;
      assert poolUsage >= lowPri.charge;
      poolUsage := poolUsage - lowPri.charge;
      low := low + 1;
      ProperDistinct(lru, ring);
      forall h | h in all ensures FlagOf(h, ring, low) {
        assert old(FlagOf(h, ring, low));
        NextTail(ring, old(low), h);
      }
    }

    /** MaintainPoolSize. The loop stops before it reaches the sentinel. */
    method MaintainPoolSize(poolCapacity: real)
      requires Valid() && poolUsage == Sum(ring[low..], Charge) && poolCapacity >= 0.0
      modifies this`lowPri, this`poolUsage, this`low, all`inHighPriPool
      ensures Valid() && low == old(low) + Overflow(ring, old(low), old(poolUsage), poolCapacity.Floor)
      ensures poolUsage == Sum(ring[low..], Charge)
    {
      assert Open(true);
      while poolUsage as real > poolCapacity
        invariant Valid() && poolUsage == Sum(ring[low..], Charge)
        invariant low + Overflow(ring, low, poolUsage, poolCapacity.Floor)
                  == old(low) + Overflow(ring, old(low), old(poolUsage), poolCapacity.Floor)
        decreases |ring| - low
      {
        OverflowStep(ring, low, poolUsage, poolCapacity);
        Demote();
      }
      OverFloor(poolUsage, poolCapacity);
    }

    /** LRU_Insert at the newest end, before the pool is cut to size. */
    method AttachHigh(e: Handle)
      requires Valid() && e in all && e !in ring && e != lru
      modifies this`poolUsage, this`ring, all`next, all`prev, e`inHighPriPool
      ensures Valid() && ring == old(ring) + [e] && poolUsage == old(poolUsage) + e.charge
    {
      assert Open(true);
      NextAt(lru, ring, |ring|);
      assert InPlace(lru, ring, lru);
      WithLast(ring, e);
      LinkIn(e, lru.prev, lru, |ring|);
      e.inHighPriPool := true;
      poolUsage := poolUsage + e.charge;
      ring := ring + [e];
      forall h | h in all ensures FlagOf(h, ring, low) {
        assert old(FlagOf(h, ring, low));
        PushTail(old(ring), low, e, h);
      }
    }

    /** LRU_Insert at the newest end of the low-priority pool. */
    method AttachLow(e: Handle)
      requires Valid() && e in all && e !in ring && e != lru
      modifies this`lowPri, this`ring, this`low, all`next, all`prev, e`inHighPriPool
      ensures Valid() && ring == With(old(ring), old(low), e) && low == old(low) + 1
    {
      assert Open(true);
      NextAt(lru, ring, low);
      assert (lowPri != lru ==> Seen(lowPri, all)) && InPlace(lru, ring, lowPri);
      LinkIn(e, lowPri, lowPri.next, low);
      e.inHighPriPool := false;
      lowPri := e;
      ring, low := With(ring, low, e), low + 1;
      forall h | h in all ensures FlagOf(h, ring, low) {
        assert old(FlagOf(h, ring, low));
        WithTail(old(ring), old(low), e, h);
      }
    }

    /** The branch of LRU_Insert for the newest end. */
    method EnterHigh(e: Handle, poolCapacity: real)
      requires Valid() && e in all && e !in ring && e != lru
      requires poolUsage == Sum(ring[low..], Charge) && poolCapacity >= 0.0
      modifies this`lowPri, this`poolUsage, this`ring, this`low, all`next, all`prev, all`inHighPriPool
      ensures Valid() && poolUsage == Sum(ring[low..], Charge) && ring == old(ring) + [e]
      ensures low == old(low) + Overflow(ring, old(low), old(poolUsage) + e.charge, poolCapacity.Floor)
    {
      PushedRing(ring, low, e);
      AttachHigh(e);
      MaintainPoolSize(poolCapacity);
    }

    /** LRU_Insert; high says which pool the entry is for. */
    method Insert(e: Handle, high: bool, poolCapacity: real)
      requires Valid() && e in all && e !in ring && e != lru
      requires poolUsage == Sum(ring[low..], Charge) && (high ==> poolCapacity >= 0.0)
      modifies this`lowPri, this`lruUsage, this`poolUsage, this`ring, this`low, all`next, all`prev, all`inHighPriPool
      ensures Valid() && lruUsage == old(lruUsage) + e.charge && poolUsage == Sum(ring[low..], Charge)
      ensures ring == if high then old(ring) + [e] else With(old(ring), old(low), e)
      ensures low == old(low) + if high then Overflow(ring, old(low), old(poolUsage) + e.charge, poolCapacity.Floor) else 1
    {
      WithSum(ring, low, e);
      if high {
        EnterHigh(e, poolCapacity);
      } else {
        AttachLow(e);
      }
      lruUsage := lruUsage + e.charge;
    }

    /** MaintainPoolSize does to the list what the model says. */
    method Settle(poolCapacity: real, ghost t: Shard)
      requires Valid() && Balanced(t) && poolCapacity == t.poolCapacity >= 0.0
      requires ring == t.ring && low == t.low && lruUsage == t.lruUsage && poolUsage == t.poolUsage
      modifies this`lowPri, this`poolUsage, this`low, all`inHighPriPool
      ensures Valid() && low == Settled(t).low && poolUsage == Settled(t).poolUsage
    {
      SettledPlan(t);
      MaintainPoolSize(poolCapacity);
    }

    /** LRU_Insert does to the list what the model says. */
    method Enter(e: Handle, high: bool, poolCapacity: real, ghost t: Shard, ghost u: Shard)
      requires Valid() && e in all && e !in ring && e != lru && poolCapacity == t.poolCapacity
      requires high ==> poolCapacity >= 0.0
      requires ring == t.ring && low == t.low && lruUsage == t.lruUsage && poolUsage == t.poolUsage
      requires EntersAs(t, e, high, u)
      modifies this`lowPri, this`lruUsage, this`poolUsage, this`ring, this`low, all`next, all`prev, all`inHighPriPool
      ensures Valid() && ring == u.ring && low == u.low && lruUsage == u.lruUsage && poolUsage == u.poolUsage
    {
      Insert(e, high, poolCapacity);
    }
  }

  /** What LRU_Insert makes of the list. */
  ghost predicate EntersAs(t: Shard, e: Handle, high: bool, u: Shard)
  {
    && t.low <= |t.ring| && t.poolUsage == Sum(t.ring[t.low..], Charge)
    && u.ring == (if high then t.ring + [e] else With(t.ring, t.low, e))
    && u.low == t.low + (if high then Overflow(u.ring, t.low, t.poolUsage + e.charge, t.poolCapacity.Floor) else 1)
    && u.lruUsage == t.lruUsage + e.charge && u.poolUsage == Sum(u.ring[u.low..], Charge)
  }

  /** The counters of the list are what they are named after, folded. */
  ghost predicate Balanced(t: Shard)
  {
    t.low <= |t.ring| && forall b {:trigger Open(b)} :: Open(b) ==> RingCharged(t.ring, t.low, t.lruUsage, t.poolUsage)
  }

  lemma EnteredPlan(t: Shard, e: Handle)
    requires Balanced(t)
    ensures EntersAs(t, e, ToHighPool(t, e), Entered(t, e))
  {
    assert Open(true);
    if ToHighPool(t, e) {
      EnteredHigh(t, e);
    } else {
      EnteredLow(t, e);
    }
    EnteredRing(t, e);
  }

  lemma SettledPlan(t: Shard)
    requires Balanced(t)
    ensures t.poolUsage == Sum(t.ring[t.low..], Charge)
    ensures var u := Settled(t);
            && u.low == t.low + Overflow(t.ring, t.low, t.poolUsage, t.poolCapacity.Floor) <= |t.ring|
            && u.poolUsage == Sum(t.ring[u.low..], Charge)
  {
    assert Open(true);
    SettledRing(t);
  }

  // ---------------------------------------------------------------- pointers

  /** Joins the neighbours of e, which loses its links. */
  method Join(e: Handle, ghost before: Handle, ghost after: Handle)
    requires e.prev == before && e.next == after && e != before && e != after
    modifies e`next, e`prev, before`next, after`prev
    ensures before.next == after && after.prev == before && e.next == null && e.prev == null
  {
    e.next.prev := e.prev;
    e.prev.next := e.next;
    e.prev := null;
    e.next := null;
  }

  method Insinuate(e: Handle, before: Handle, after: Handle)
    requires e != before && e != after
    modifies e`next, e`prev, before`next, after`prev
    ensures e.next == after && e.prev == before && before.next == e && after.prev == e
  {
    e.next := after;
    e.prev := before;
    e.prev.next := e;
    e.next.prev := e;
  }

  lemma ProperWithout(lru: Handle, ring: seq<Handle>, k: nat, all: set<Handle>)
    requires Proper(lru, ring) && AllSeen(ring, all) && k < |ring|
    ensures Proper(lru, Without(ring, k)) && AllSeen(Without(ring, k), all)
  {
    ProperDistinct(lru, ring);
    WithoutElements(ring, k);
    ProperDistinct(lru, Without(ring, k));
  }

  lemma ProperWith(lru: Handle, ring: seq<Handle>, p: nat, e: Handle, all: set<Handle>)
    requires Proper(lru, ring) && AllSeen(ring, all) && p <= |ring| && e !in ring && e != lru && e in all
    ensures Proper(lru, With(ring, p, e)) && AllSeen(With(ring, p, e), all)
  {
    ProperDistinct(lru, ring);
    WithElements(ring, p, e);
    ProperDistinct(lru, With(ring, p, e));
  }

  lemma Neighbours(lru: Handle, ring: seq<Handle>, k: nat)
    requires Proper(lru, ring) && k < |ring|
    ensures NextOf(lru, ring, ring[k]) == Node(lru, ring, k + 2) != ring[k]
    ensures PrevOf(lru, ring, ring[k]) == Node(lru, ring, k) != ring[k]
    ensures Node(lru, ring, k) == lru || Node(lru, ring, k) in ring
    ensures Node(lru, ring, k + 2) == lru || Node(lru, ring, k + 2) in ring
  {
    ProperDistinct(lru, ring);
    NextAt(lru, ring, k);
    NextAt(lru, ring, k + 1);
  }

  /** Where the split pointer is after entry k leaves: it steps back exactly if it pointed at the entry. */
  lemma SplitWithout(lru: Handle, ring: seq<Handle>, low: nat, k: nat)
    requires Proper(lru, ring) && k < |ring| && low <= |ring|
    ensures Node(lru, ring, low) == ring[k] <==> low == k + 1
    ensures Node(lru, Without(ring, k), if k < low then low - 1 else low)
            == if low == k + 1 then Node(lru, ring, k) else Node(lru, ring, low)
  {
    ProperDistinct(lru, ring);
  }

  lemma WithLast(s: seq<Handle>, e: Handle)
    ensures With(s, |s|, e) == s + [e]
  {
  }

  // ---------------------------------------------------------------- the two sides of the split

  lemma FlagsWithout(lru: Handle, all: set<Handle>, ring: seq<Handle>, low: nat, k: nat)
    requires Proper(lru, ring) && low <= |ring| && k < |ring| && Flagged(all, ring, low)
    ensures Flagged(all, Without(ring, k), if k < low then low - 1 else low)
    ensures ring[k] in ring[low..] <==> k >= low
  {
    ProperDistinct(lru, ring);
    var ring', low' := Without(ring, k), if k < low then low - 1 else low;
    CutElements(ring, low);
    WithoutElements(ring, k);
    assert ring[k] in ring[low..] <==> k >= low by {
      if k >= low {
        assert ring[low..][k - low] == ring[k];
      } else {
        assert ring[..low][k] == ring[k];
      }
    }
    if k < low {
      assert ring'[low'..] == ring[low..];
    } else {
      assert ring'[low'..] == Without(ring[low..], k - low);
      WithoutElements(ring[low..], k - low);
    }
    forall h | h in all ensures FlagOf(h, ring', low') {
      assert FlagOf(h, ring, low);
    }
  }

  lemma NextTail(ring: seq<Handle>, low: nat, h: Handle)
    requires low < |ring| && Distinct(ring)
    ensures h in ring[low + 1..] <==> h in ring[low..] && h != ring[low]
  {
    var tail := ring[low + 1..];
    assert ring[low..] == [ring[low]] + tail;
    assert forall j :: 0 <= j < |tail| ==> tail[j] == ring[low + 1 + j];
  }

  lemma PushTail(ring: seq<Handle>, low: nat, e: Handle, h: Handle)
    requires low <= |ring|
    ensures h in (ring + [e])[low..] <==> h in ring[low..] || h == e
  {
    assert (ring + [e])[low..] == ring[low..] + [e];
  }

  lemma WithTail(ring: seq<Handle>, low: nat, e: Handle, h: Handle)
    requires low <= |ring| && e !in ring
    ensures With(ring, low, e)[low + 1..] == ring[low..]
    ensures h in With(ring, low, e) <==> h in ring || h == e
  {
    assert ring == ring[..low] + ring[low..];
  }

  lemma OverflowStep(ring: seq<Handle>, low: nat, pool: int, poolCapacity: real)
    requires low <= |ring| && pool == Sum(ring[low..], Charge) && poolCapacity >= 0.0 && Over(pool, poolCapacity)
    ensures low < |ring| && pool >= ring[low].charge && pool - ring[low].charge == Sum(ring[low + 1..], Charge)
    ensures Overflow(ring, low, pool, poolCapacity.Floor)
            == 1 + Overflow(ring, low + 1, pool - ring[low].charge, poolCapacity.Floor)
  {
    OverFloor(pool, poolCapacity);
    SuffixStep(ring, low);
    SumNonNegative(ring[low + 1..], Charge);
  }
}
