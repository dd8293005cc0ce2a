/**
 Reserving memory in a cache with dummy entries of a fixed size. Whether the cache takes a dummy entry is up to the cache: an
 operation is given what the cache would answer to its first, second, ... insertion.
 */
module Reservation {
  import opened Sums

  const SIZE_DUMMY_ENTRY: nat := 256 * 1024

  datatype Status = Ok | Failed(code: nat)

  /** What the cache answers to one insertion: a handle, or an error. */
  datatype Outcome = Inserted(handle: nat) | Refused(code: nat)

  /** The smallest multiple of the dummy size that covers this much memory. */
  function LeastMultiple(used: nat): (m: nat)
    ensures used <= m < used + SIZE_DUMMY_ENTRY && m % SIZE_DUMMY_ENTRY == 0
    ensures forall k: nat :: SIZE_DUMMY_ENTRY * k >= used ==> SIZE_DUMMY_ENTRY * k >= m
  {
    (used + SIZE_DUMMY_ENTRY - 1) / SIZE_DUMMY_ENTRY * SIZE_DUMMY_ENTRY
  }

  /** How many dummy entries are missing. */
  function Missing(used: nat, reserved: nat): nat
    requires used > reserved
  {
    (LeastMultiple(used) - reserved) / SIZE_DUMMY_ENTRY
  }

  /** The reserve covers the usage, which is at least three quarters of it, as the code computes that. */
  predicate Spared(used: nat, reserved: nat)
  {
    reserved / 4 * 3 <= used <= reserved
  }

  /** The cache takes the first k insertions. */
  predicate Takes(cache: nat -> Outcome, k: nat)
  {
    forall i: nat :: i < k ==> cache(i).Inserted?
  }

  /** The handles of the first k insertions. */
  function Handles(cache: nat -> Outcome, k: nat): (s: seq<nat>)
    requires Takes(cache, k)
    ensures |s| == k
  {
    if k == 0 then [] else Handles(cache, k - 1) + [cache(k - 1).handle]
  }

  /** A sequence from back to front. */
  function Backwards(s: seq<nat>): (r: seq<nat>)
    ensures |r| == |s|
  {
    if s == [] then [] else [s[|s| - 1]] + Backwards(s[..|s| - 1])
  }

  function Itself(x: nat): int
  {
    x
  }

  class CacheReservationManager {
    const delayedDecrease: bool
    var reserved: nat
    var memoryUsed: nat
    var dummyHandles: seq<nat>
    /** The dummy handles given back to the cache, in order. */
    var released: seq<nat>
    /** The amounts of the reservation handles that are alive. */
    ghost var live: seq<nat>

    /** The reserve is one dummy size per dummy handle held. */
    ghost predicate Valid()
      reads this
    {
      reserved == SIZE_DUMMY_ENTRY * |dummyHandles|
    }

    /** Memory is used through reservation handles only. */
    ghost predicate Balanced()
      reads this
    {
      memoryUsed == Sum(live, Itself)
    }

    constructor (delayedDecrease: bool)
      ensures Valid() && Balanced() && this.delayedDecrease == delayedDecrease
      ensures reserved == 0 && memoryUsed == 0 && live == [] && dummyHandles == [] && released == []
    {
      this.delayedDecrease := delayedDecrease;
      reserved, memoryUsed, dummyHandles, released, live := 0, 0, [], [], [];
    }

    /** Inserts dummy entries until the reserve covers the usage; what was inserted before a failure stays. */
    method IncreaseCacheReservation(newMemUsed: nat, cache: nat -> Outcome) returns (status: Status, ghost k: nat)
      requires Valid() && newMemUsed > reserved
      modifies this`reserved, this`dummyHandles
      ensures Valid() && Takes(cache, k) && dummyHandles == old(dummyHandles) + Handles(cache, k)
      ensures status.Ok? <==> Takes(cache, Missing(newMemUsed, old(reserved)))
      ensures status.Ok? ==> reserved == LeastMultiple(newMemUsed)
      ensures status.Failed? ==> reserved < newMemUsed && cache(k) == Refused(status.code)
    {
      k := 0;
      var i := 0;
      status := Ok;
      while newMemUsed > reserved
        invariant Valid() && i == k && Takes(cache, k) && dummyHandles == old(dummyHandles) + Handles(cache, k)
        invariant reserved < newMemUsed + SIZE_DUMMY_ENTRY
        decreases newMemUsed - reserved
      {
        match cache(i)
        case Refused(code) =>
          MissingAfter(newMemUsed, old(reserved), |old(dummyHandles)|, k);
          return Failed(code), k;
        case Inserted(handle) =>
          dummyHandles := dummyHandles + [handle];
          reserved := reserved + SIZE_DUMMY_ENTRY;
          i := i + 1;
          k := k + 1;
      }
      OnlyMultiple(newMemUsed, reserved, |dummyHandles|);
      MissingAfter(newMemUsed, old(reserved), |old(dummyHandles)|, k);
    }

    /** Gives dummy entries back, newest first, down to the least sufficient multiple. */
    method DecreaseCacheReservation(newMemUsed: nat)
      requires Valid() && newMemUsed < reserved
      modifies this`reserved, this`dummyHandles, this`released
      ensures Valid() && reserved == LeastMultiple(newMemUsed) <= old(reserved)
      ensures |dummyHandles| <= |old(dummyHandles)| && dummyHandles == old(dummyHandles)[..|dummyHandles|]
      ensures released == old(released) + Backwards(old(dummyHandles)[|dummyHandles|..])
    {
      ghost var all := dummyHandles;
      while newMemUsed + SIZE_DUMMY_ENTRY <= reserved
        invariant Valid() && newMemUsed <= reserved <= old(reserved)
        invariant |dummyHandles| <= |all| && dummyHandles == all[..|dummyHandles|]
        invariant released == old(released) + Backwards(all[|dummyHandles|..])
        decreases reserved
      {
        assert dummyHandles != [];
        ghost var n := |dummyHandles|;
        BackwardsMore(all, n);
        released := released + [dummyHandles[|dummyHandles| - 1]];
        dummyHandles := dummyHandles[..|dummyHandles| - 1];
        reserved := reserved - SIZE_DUMMY_ENTRY;
      }
      OnlyMultiple(newMemUsed, reserved, |dummyHandles|);
    }

    /** UpdateCacheReservation */
    method UpdateCacheReservation(newMemUsed: nat, cache: nat -> Outcome) returns (status: Status)
      requires Valid()
      modifies this`memoryUsed, this`reserved, this`dummyHandles, this`released
      ensures Valid() && memoryUsed == newMemUsed
      ensures status.Ok? <==> newMemUsed <= old(reserved) || Takes(cache, Missing(newMemUsed, old(reserved)))
      ensures status.Ok? ==>
                if delayedDecrease && Spared(newMemUsed, old(reserved)) then reserved == old(reserved)
                else reserved == LeastMultiple(newMemUsed)
      ensures status.Failed? ==> old(reserved) <= reserved < newMemUsed
      ensures reserved == old(reserved) ==> dummyHandles == old(dummyHandles) && released == old(released)
    {
      memoryUsed := newMemUsed;
      if newMemUsed == reserved {
        OnlyMultiple(newMemUsed, reserved, |dummyHandles|);
        return Ok;
      } else if newMemUsed > reserved {
        ghost var k;
        status, k := IncreaseCacheReservation(newMemUsed, cache);
      } else if delayedDecrease && newMemUsed >= reserved / 4 * 3 {
        return Ok;
      } else {
        DecreaseCacheReservation(newMemUsed);
        return Ok;
      }
    }

    /** MakeCacheReservation: the handle comes, and counts as memory used, even if the cache failed. */
    method MakeCacheReservation(incremental: nat, cache: nat -> Outcome) returns (status: Status)
      requires Valid() && Balanced()
      modifies this
      ensures Valid() && Balanced() && live == old(live) + [incremental]
      ensures status.Ok? ==> memoryUsed <= reserved
      ensures status.Ok? <==> memoryUsed <= old(reserved) || Takes(cache, Missing(memoryUsed, old(reserved)))
    {
      SumPush(live, incremental, Itself);
      status := UpdateCacheReservation(memoryUsed + incremental, cache);
      live := live + [incremental];
    }

    /** The destructor of a reservation handle. Giving memory back never underflows; the reserve shrinks only past the point
        of delay, and grows only if an earlier failure left it short. */
    method DropReservation(ghost k: nat, incremental: nat, cache: nat -> Outcome)
      requires Valid() && Balanced() && k < |live| && live[k] == incremental
      modifies this
      ensures Valid() && Balanced() && live == old(live)[..k] + old(live)[k + 1..]
      ensures memoryUsed == old(memoryUsed) - incremental
      ensures memoryUsed <= old(reserved) ==> memoryUsed <= reserved <= old(reserved)
    {
      SumAtLeast(live, k, Itself);
      SumSplit(live, k, Itself);
      SumConcat(live[..k], live[k + 1..], Itself);
      assert memoryUsed >= incremental;
      var status := UpdateCacheReservation(memoryUsed - incremental, cache);
      live := live[..k] + live[k + 1..];
      LeastWithin(memoryUsed, old(reserved), |old(dummyHandles)|);
    }

    /** The destructor of the manager gives every dummy entry back. */
    method ReleaseAll()
      requires Valid()
      modifies this`released
      ensures released == old(released) + dummyHandles
    {
      for i := 0 to |dummyHandles|
        invariant released == old(released) + dummyHandles[..i]
      {
        released := released + [dummyHandles[i]];
      }
    }
  }

  lemma LeastWithin(used: nat, m: nat, n: nat)
    requires m == SIZE_DUMMY_ENTRY * n
    ensures used <= m ==> LeastMultiple(used) <= m
  {
  }

  /** When k dummy entries have been added, k are no longer missing. */
  lemma MissingAfter(used: nat, reserved: nat, n: nat, k: nat)
    requires reserved == SIZE_DUMMY_ENTRY * n && used > reserved
    ensures reserved + SIZE_DUMMY_ENTRY * k < used ==> k < Missing(used, reserved)
    ensures reserved + SIZE_DUMMY_ENTRY * k == LeastMultiple(used) ==> k == Missing(used, reserved)
  {
    var m := LeastMultiple(used);
    assert m == SIZE_DUMMY_ENTRY * (m / SIZE_DUMMY_ENTRY);
    assert Missing(used, reserved) == m / SIZE_DUMMY_ENTRY - n;
  }

  lemma OnlyMultiple(used: nat, m: nat, n: nat)
    requires m == SIZE_DUMMY_ENTRY * n && used <= m < used + SIZE_DUMMY_ENTRY
    ensures m == LeastMultiple(used)
  {
  }

  lemma BackwardsMore(s: seq<nat>, n: nat)
    requires 0 < n <= |s|
    ensures Backwards(s[n - 1..]) == Backwards(s[n..]) + [s[n - 1]]
  {
    BackwardsFirst(s[n - 1..]);
    assert s[n - 1..][1..] == s[n..];
  }

  lemma {:induction false} BackwardsFirst(s: seq<nat>)
    requires s != []
    ensures Backwards(s) == Backwards(s[1..]) + [s[0]]
  {
    if |s| > 1 {
      BackwardsFirst(s[..|s| - 1]);
      assert s[..|s| - 1][1..] == s[1..][..|s| - 2];
    }
  }
}
