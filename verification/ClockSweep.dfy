/**
 The eviction sweep of the CLOCK cache without concurrent readers: a class over the circular list, and the order in which
 it gives up entries.
 */
module ClockSweep {
  import opened Sums

  /** A handle of the circular list; `charge` is its total charge. */
  datatype Handle = Handle(inCache: bool, used: bool, refs: nat, charge: nat, key: string)

  predicate Live(hd: Handle) { hd.inCache || hd.refs > 0 }

  /** In the cache and not referenced: the sweep may evict it, at once or after its second chance. */
  predicate Evictable(hd: Handle) { hd.inCache && hd.refs == 0 }

  predicate Fresh(hd: Handle) { Evictable(hd) && !hd.used }

  function Stock(): Handle -> int { (hd: Handle) => if Live(hd) then hd.charge else 0 }

  /** What TryEvict makes of a handle. */
  function Examined(hd: Handle): Handle
  {
    if Fresh(hd) then hd.(inCache := false) else hd.(used := false)
  }

  // ---------------------------------------------------------------- the sweep, position by position

  /** The handle at position p of the circular order that starts at head. */
  function At(head: nat, n: nat, p: nat): nat
    requires head < n
  {
    var q := if p < n then p else p - n;
    if head + q < n then head + q else head + q - n
  }

  /** The position of handle h in that order. */
  function Pos(head: nat, n: nat, h: nat): nat
    requires head < n && h < n
  {
    if h >= head then h - head else h + n - head
  }

  /** The state of the handle at position p when m handles have been examined. */
  function After(hd: Handle, p: nat, m: nat, n: nat): Handle
    requires p < n
  {
    if p + n < m then Examined(Examined(hd))
    else if p < m then Examined(hd)
    else hd
  }

  function ListAfter(list: seq<Handle>, head: nat, m: nat): (r: seq<Handle>)
    requires head < |list|
    ensures |r| == |list|
  {
    seq(|list|, h requires 0 <= h < |list| => After(list[h], Pos(head, |list|, h), m, |list|))
  }

  /** Whether the examination number m evicts: in the first round the unused entries, in the second the used ones. */
  predicate EvictsAt(list: seq<Handle>, head: nat, m: nat)
    requires head < |list| && m < 2 * |list|
  {
    var hd := list[At(head, |list|, m)];
    Evictable(hd) && (hd.used <==> m >= |list|)
  }

  /** The handles evicted by the first m examinations, in order. */
  function Evicted(list: seq<Handle>, head: nat, m: nat): seq<nat>
    requires head < |list| && m <= 2 * |list|
  {
    if m == 0 then []
    else Evicted(list, head, m - 1) + (if EvictsAt(list, head, m - 1) then [At(head, |list|, m - 1)] else [])
  }

  /** All handles the sweep would give up, in the order in which it would. */
  function Victims(list: seq<Handle>, head: nat): seq<nat>
    requires head < |list|
  {
    Evicted(list, head, 2 * |list|)
  }

  function ChargeAt(list: seq<Handle>): nat -> int
  {
    (h: nat) => if h < |list| then list[h].charge else 0
  }

  ghost function ChargeOf(list: seq<Handle>, hs: seq<nat>): int { Sum(hs, ChargeAt(list)) }

  // ---------------------------------------------------------------- the victim order

  lemma AtPos(head: nat, n: nat, p: nat)
    requires head < n && p < 2 * n
    ensures At(head, n, p) < n && Pos(head, n, At(head, n, p)) == if p < n then p else p - n
  {
  }

  lemma PosAt(head: nat, n: nat, h: nat)
    requires head < n && h < n
    ensures Pos(head, n, h) < n && At(head, n, Pos(head, n, h)) == h == At(head, n, Pos(head, n, h) + n)
  {
  }

  /** Rank of a victim: unused before used, then circular order from the head. */
  function Turn(list: seq<Handle>, head: nat, h: nat): nat
    requires head < |list| && h < |list|
  {
    Pos(head, |list|, h) + if list[h].used then |list| else 0
  }

  /** The first m examinations evict exactly the evictable handles whose turn is below m, by turn. */
  lemma {:induction false} EvictedByTurn(list: seq<Handle>, head: nat, m: nat)
    requires head < |list| && m <= 2 * |list|
    ensures forall i :: 0 <= i < |Evicted(list, head, m)| ==>
              var h := Evicted(list, head, m)[i];
              h < |list| && Evictable(list[h]) && Turn(list, head, h) < m
    ensures forall i, j :: 0 <= i < j < |Evicted(list, head, m)| ==>
              Turn(list, head, Evicted(list, head, m)[i]) < Turn(list, head, Evicted(list, head, m)[j])
    ensures forall h :: 0 <= h < |list| && Evictable(list[h]) && Turn(list, head, h) < m ==> h in Evicted(list, head, m)
  {
    if m > 0 {
      EvictedByTurn(list, head, m - 1);
      var n := |list|;
      var x := At(head, n, m - 1);
      AtPos(head, n, m - 1);
      var before := Evicted(list, head, m - 1);
      forall h | 0 <= h < n && Evictable(list[h]) && Turn(list, head, h) == m - 1
        ensures h == x && EvictsAt(list, head, m - 1)
      {
        PosAt(head, n, h);
      }
      if EvictsAt(list, head, m - 1) {
        assert Turn(list, head, x) == m - 1;
        assert Evicted(list, head, m) == before + [x];
      } else {
        assert Evicted(list, head, m) == before;
      }
    }
  }

  lemma {:induction false} EvictedPrefix(list: seq<Handle>, head: nat, m: nat, m': nat)
    requires head < |list| && m <= m' <= 2 * |list|
    ensures Evicted(list, head, m) <= Evicted(list, head, m')
    decreases m'
  {
    if m < m' {
      EvictedPrefix(list, head, m, m' - 1);
    }
  }

  /** The second-chance order: each evictable handle exactly once, unused ones first, each group in circular order. */
  lemma VictimOrder(list: seq<Handle>, head: nat)
    requires head < |list|
    ensures var v := Victims(list, head);
            && (forall h: nat :: h in v <==> h < |list| && Evictable(list[h]))
            && (forall i, j :: 0 <= i < j < |v| ==>
                  && v[i] < |list| && v[j] < |list| && v[i] != v[j]
                  && (list[v[i]].used ==> list[v[j]].used)
                  && (list[v[i]].used == list[v[j]].used ==> Pos(head, |list|, v[i]) < Pos(head, |list|, v[j])))
  {
    var n := |list|;
    EvictedByTurn(list, head, 2 * n);
    forall h | 0 <= h < n ensures Turn(list, head, h) < 2 * n && Pos(head, n, h) < n {
      PosAt(head, n, h);
    }
  }

  /** A used entry is given up only after every handle has been examined once. */
  lemma UsedOnlyInSecondRound(list: seq<Handle>, head: nat, m: nat, h: nat)
    requires head < |list| && m <= 2 * |list| && h in Evicted(list, head, m) && h < |list| && list[h].used
    ensures m > |list|
  {
    EvictedByTurn(list, head, m);
    var i :| 0 <= i < |Evicted(list, head, m)| && Evicted(list, head, m)[i] == h;
  }

  /** After two full rounds no unreferenced entry is left in the cache. */
  lemma TwoRoundsEvictAll(list: seq<Handle>, head: nat)
    requires head < |list|
    ensures forall h :: 0 <= h < |list| ==> !Evictable(ListAfter(list, head, 2 * |list|)[h])
  {
    forall h | 0 <= h < |list| ensures !Evictable(ListAfter(list, head, 2 * |list|)[h]) {
      PosAt(head, |list|, h);
    }
  }

  // ---------------------------------------------------------------- one examination

  lemma SweepStart(list: seq<Handle>, head: nat)
    requires head < |list|
    ensures ListAfter(list, head, 0) == list && Evicted(list, head, 0) == []
  {
  }

  /** Examination number m meets the handle at position m as the earlier ones have left it. */
  lemma SweepStep(list: seq<Handle>, head: nat, m: nat)
    requires head < |list| && m < 2 * |list|
    ensures At(head, |list|, m) < |list|
    ensures var x := At(head, |list|, m);
            && ListAfter(list, head, m + 1) == ListAfter(list, head, m)[x := Examined(ListAfter(list, head, m)[x])]
            && (Fresh(ListAfter(list, head, m)[x]) <==> EvictsAt(list, head, m))
  {
    var n := |list|;
    var x := At(head, n, m);
    AtPos(head, n, m);
    forall h | 0 <= h < n && h != x ensures ListAfter(list, head, m + 1)[h] == ListAfter(list, head, m)[h] {
      PosAt(head, n, h);
    }
  }

  /** Examining leaves key, charge and references of every handle alone. */
  lemma SweepKeeps(list: seq<Handle>, head: nat, m: nat, h: nat)
    requires head < |list| && h < |list|
    ensures var hd := ListAfter(list, head, m)[h];
            && hd.key == list[h].key && hd.charge == list[h].charge && hd.refs == list[h].refs
            && (hd.inCache ==> list[h].inCache) && (hd.used ==> list[h].used)
  {
    PosAt(head, |list|, h);
  }

  function KeysOf(list: seq<Handle>, hs: seq<nat>): set<string>
  {
    set h | h in hs && h < |list| :: list[h].key
  }

  lemma EvictedOneMore(list: seq<Handle>, head: nat, m: nat)
    requires head < |list| && m < 2 * |list|
    ensures var x := At(head, |list|, m);
            if EvictsAt(list, head, m) then
              && x < |list|
              && Evicted(list, head, m + 1) == Evicted(list, head, m) + [x]
              && ChargeOf(list, Evicted(list, head, m + 1)) == ChargeOf(list, Evicted(list, head, m)) + list[x].charge
              && KeysOf(list, Evicted(list, head, m + 1)) == KeysOf(list, Evicted(list, head, m)) + {list[x].key}
            else
              Evicted(list, head, m + 1) == Evicted(list, head, m)
  {
    var x := At(head, |list|, m);
    AtPos(head, |list|, m);
    if EvictsAt(list, head, m) {
      SumPush(Evicted(list, head, m), x, ChargeAt(list));
      var e := Evicted(list, head, m);
      assert forall h :: h in e + [x] <==> h in e || h == x;
    }
  }

  // ---------------------------------------------------------------- the shard as a value

  /** The fields a sweep works on. */
  datatype Snapshot = Snapshot(list: seq<Handle>, head: nat, recycle: seq<nat>, table: map<string, nat>, usage: int)

  predicate HeadOk(s: Snapshot) { if s.list == [] then s.head == 0 else s.head < |s.list| }

  /** The bin holds exactly the unused handles, once each. */
  ghost predicate BinOk(s: Snapshot)
  {
    forall h: nat :: multiset(s.recycle)[h] == if h < |s.list| && !Live(s.list[h]) then 1 else 0
  }

  /** The table maps exactly the in-cache handles, by key. */
  predicate TableOk(s: Snapshot)
  {
    && (forall k :: k in s.table ==>
          s.table[k] < |s.list| && s.list[s.table[k]].inCache && s.list[s.table[k]].key == k)
    && (forall h :: 0 <= h < |s.list| && s.list[h].inCache ==>
          s.list[h].key in s.table && s.table[s.list[h].key] == h)
  }

  ghost predicate UsageOk(s: Snapshot) { s.usage == Sum(s.list, Stock()) }

  ghost predicate Consistent(s: Snapshot) { HeadOk(s) && BinOk(s) && TableOk(s) && UsageOk(s) }

  /** TryEvict on handle h. */
  function TryEvictOn(s: Snapshot, h: nat): Snapshot
    requires h < |s.list|
  {
    var hd := s.list[h];
    var list := s.list[h := Examined(hd)];
    if Fresh(hd) then Snapshot(list, s.head, s.recycle + [h], s.table - {hd.key}, s.usage - hd.charge)
    else s.(list := list)
  }

  lemma TryEvictBin(s: Snapshot, h: nat)
    requires BinOk(s) && h < |s.list|
    ensures BinOk(TryEvictOn(s, h))
  {
    var s' := TryEvictOn(s, h);
    forall x: nat ensures multiset(s'.recycle)[x] == if x < |s'.list| && !Live(s'.list[x]) then 1 else 0 {
      assert multiset(s.recycle)[x] == if x < |s.list| && !Live(s.list[x]) then 1 else 0;
    }
  }

  lemma TryEvictTable(s: Snapshot, h: nat)
    requires TableOk(s) && h < |s.list|
    ensures TableOk(TryEvictOn(s, h))
  {
  }

  lemma TryEvictUsage(s: Snapshot, h: nat)
    requires UsageOk(s) && h < |s.list|
    ensures UsageOk(TryEvictOn(s, h)) && TryEvictOn(s, h).usage >= 0
  {
    SumUpdate(s.list, h, Examined(s.list[h]), Stock());
    SumNonNegative(TryEvictOn(s, h).list, Stock());
  }

  lemma TryEvictConsistent(s: Snapshot, h: nat)
    requires Consistent(s) && h < |s.list|
    ensures Consistent(TryEvictOn(s, h)) && TryEvictOn(s, h).usage >= 0
  {
    TryEvictBin(s, h);
    TryEvictTable(s, h);
    TryEvictUsage(s, h);
  }

  /** The shard after m examinations. */
  ghost function Swept(s: Snapshot, m: nat): Snapshot
    requires s.head < |s.list| && m <= 2 * |s.list|
  {
    var gone := Evicted(s.list, s.head, m);
    Snapshot(ListAfter(s.list, s.head, m), s.head, s.recycle + gone, s.table - KeysOf(s.list, gone),
             s.usage - ChargeOf(s.list, gone))
  }

  lemma SweptStart(s: Snapshot)
    requires s.head < |s.list|
    ensures Swept(s, 0) == s
  {
    SweepStart(s.list, s.head);
    assert s.recycle + [] == s.recycle;
    assert KeysOf(s.list, []) == {};
  }

  /** Each examination is one TryEvict on the next handle of the circle. */
  lemma SweptStep(s: Snapshot, m: nat)
    requires s.head < |s.list| && m < 2 * |s.list|
    ensures At(s.head, |s.list|, m) < |s.list|
    ensures Swept(s, m + 1) == TryEvictOn(Swept(s, m), At(s.head, |s.list|, m))
  {
    var x := At(s.head, |s.list|, m);
    SweepStep(s.list, s.head, m);
    SweepKeeps(s.list, s.head, m, x);
    EvictedOneMore(s.list, s.head, m);
    if EvictsAt(s.list, s.head, m) {
      assert s.recycle + Evicted(s.list, s.head, m + 1) == (s.recycle + Evicted(s.list, s.head, m)) + [x];
    }
  }

  /** m examinations, one TryEvict after the other. */
  function Iterate(s: Snapshot, m: nat): (r: Snapshot)
    requires s.head < |s.list| && m <= 2 * |s.list|
    ensures |r.list| == |s.list| && r.head == s.head
  {
    if m == 0 then s
    else
      AtInRange(s.head, |s.list|, m - 1);
      TryEvictOn(Iterate(s, m - 1), At(s.head, |s.list|, m - 1))
  }

  lemma SweptNext(s: Snapshot, m: nat, t: Snapshot)
    requires s.head < |s.list| && 0 < m <= 2 * |s.list| && t == Swept(s, m - 1)
    ensures At(s.head, |s.list|, m - 1) < |t.list| && TryEvictOn(t, At(s.head, |s.list|, m - 1)) == Swept(s, m)
  {
    SweptStep(s, m - 1);
  }

  lemma {:induction false} IterateIsSwept(s: Snapshot, m: nat)
    requires s.head < |s.list| && m <= 2 * |s.list|
    ensures Iterate(s, m) == Swept(s, m)
  {
    if m == 0 {
      SweptStart(s);
    } else {
      IterateIsSwept(s, m - 1);
      SweptNext(s, m, Iterate(s, m - 1));
    }
  }

  lemma {:induction false} IterateConsistent(s: Snapshot, m: nat)
    requires Consistent(s) && s.head < |s.list| && m <= 2 * |s.list|
    ensures Consistent(Iterate(s, m))
  {
    if m > 0 {
      IterateConsistent(s, m - 1);
      AtInRange(s.head, |s.list|, m - 1);
      TryEvictConsistent(Iterate(s, m - 1), At(s.head, |s.list|, m - 1));
    }
  }

  /** Every stage of the sweep is consistent; in particular usage never underflows. */
  lemma SweptConsistent(s: Snapshot, m: nat)
    requires Consistent(s) && s.head < |s.list| && m <= 2 * |s.list|
    ensures Consistent(Swept(s, m)) && Swept(s, m).usage >= 0
  {
    IterateIsSwept(s, m);
    IterateConsistent(s, m);
    UsageNonNegative(Iterate(s, m));
  }

  /** What m examinations have freed is room enough for the charge. */
  ghost predicate Fits(s: Snapshot, charge: nat, capacity: nat, m: nat)
    requires s.head < |s.list| && m <= 2 * |s.list|
  {
    s.usage - ChargeOf(s.list, Evicted(s.list, s.head, m)) + charge <= capacity
  }

  /** Each of the first m examinations was needed. */
  ghost predicate Needed(s: Snapshot, charge: nat, capacity: nat, m: nat)
    requires s.head < |s.list| && m <= 2 * |s.list|
  {
    forall j :: 0 <= j < m ==> !Fits(s, charge, capacity, j)
  }

  /** Success after m examinations, every one of them needed, or failure after two full rounds; the head moves on only
      in the first case. */
  ghost predicate SweepResult(s: Snapshot, s': Snapshot, charge: nat, capacity: nat, ok: bool, m: nat)
    requires s.head < |s.list| && m <= 2 * |s.list|
  {
    && s' == Swept(s, m).(head := if ok then At(s.head, |s.list|, m) else s.head)
    && ok == (m < 2 * |s.list|)
    && (ok ==> Fits(s, charge, capacity, m))
    && Needed(s, charge, capacity, m)
  }

  lemma NeededOneMore(s: Snapshot, charge: nat, capacity: nat, m: nat)
    requires s.head < |s.list| && m < 2 * |s.list| && Needed(s, charge, capacity, m)
    requires Swept(s, m).usage + charge > capacity
    ensures Needed(s, charge, capacity, m + 1)
  {
  }

  /** The next handle of the circle; it is the head again after each full round. */
  lemma NextAt(head: nat, n: nat, m: nat)
    requires head < n && m < 2 * n
    ensures At(head, n, m + 1) == if At(head, n, m) + 1 >= n then 0 else At(head, n, m) + 1
    ensures At(head, n, m + 1) == head <==> m + 1 == n || m + 1 == 2 * n
  {
  }

  lemma MoveHead(s: Snapshot, h: nat)
    requires Consistent(s) && h < |s.list|
    ensures Consistent(s.(head := h))
  {
    assert forall x: nat :: multiset(s.recycle)[x] == if x < |s.list| && !Live(s.list[x]) then 1 else 0;
  }

  lemma AtInRange(head: nat, n: nat, m: nat)
    requires head < n && m <= 2 * n
    ensures At(head, n, m) < n
  {
  }

  lemma UsageNonNegative(s: Snapshot)
    requires Consistent(s)
    ensures s.usage >= 0
  {
    SumNonNegative(s.list, Stock());
  }

  lemma UsageNeedsHandles(s: Snapshot)
    requires Consistent(s) && s.usage != 0
    ensures s.head < |s.list|
  {
  }

  // ---------------------------------------------------------------- what the sweep achieves

  /** The sweep evicts the shortest sufficient prefix of the second-chance order: any shorter prefix is not enough. */
  lemma ShortestPrefix(s: Snapshot, charge: nat, capacity: nat, m: nat, k: nat)
    requires s.head < |s.list| && m <= 2 * |s.list| && Needed(s, charge, capacity, m)
    requires k < |Evicted(s.list, s.head, m)|
    ensures Evicted(s.list, s.head, m) <= Victims(s.list, s.head)
    ensures s.usage - ChargeOf(s.list, Victims(s.list, s.head)[..k]) + charge > capacity
  {
    EvictedPrefix(s.list, s.head, m, 2 * |s.list|);
    var j := PrefixLength(s.list, s.head, m, k);
    EvictedPrefix(s.list, s.head, j, 2 * |s.list|);
    assert Victims(s.list, s.head)[..k] == Evicted(s.list, s.head, j);
    assert !Fits(s, charge, capacity, j);
  }

  /** The number of victims grows by at most one per examination. */
  lemma {:induction false} PrefixLength(list: seq<Handle>, head: nat, m: nat, k: nat) returns (j: nat)
    requires head < |list| && m <= 2 * |list| && k < |Evicted(list, head, m)|
    ensures j < m && |Evicted(list, head, j)| == k
  {
    if |Evicted(list, head, m - 1)| == k {
      j := m - 1;
    } else {
      j := PrefixLength(list, head, m - 1, k);
    }
  }

  lemma {:induction false} FitsStays(s: Snapshot, charge: nat, capacity: nat, m: nat, m': nat)
    requires s.head < |s.list| && m <= m' <= 2 * |s.list| && Fits(s, charge, capacity, m)
    ensures Fits(s, charge, capacity, m')
    decreases m'
  {
    if m < m' {
      FitsStays(s, charge, capacity, m, m' - 1);
      EvictedOneMore(s.list, s.head, m' - 1);
    }
  }

  /** The charge of a referenced handle: no sweep frees it. */
  function Held(): Handle -> int { (hd: Handle) => if hd.refs > 0 then hd.charge else 0 }

  /** The handle just before the head, which a sweep examines last. */
  function LastOf(list: seq<Handle>, head: nat): Handle
    requires head < |list|
  {
    list[if head == 0 then |list| - 1 else head - 1]
  }

  predicate SecondChance(hd: Handle) { Evictable(hd) && hd.used }

  /** What only the very last examination frees. */
  function LastCharge(list: seq<Handle>, head: nat): int
  {
    if head < |list| && SecondChance(LastOf(list, head)) then LastOf(list, head).charge else 0
  }

  lemma LastExamined(s: Snapshot)
    requires s.head < |s.list|
    ensures At(s.head, |s.list|, 2 * |s.list| - 1) < |s.list|
    ensures s.list[At(s.head, |s.list|, 2 * |s.list| - 1)] == LastOf(s.list, s.head)
    ensures EvictsAt(s.list, s.head, 2 * |s.list| - 1) <==> SecondChance(LastOf(s.list, s.head))
  {
  }

  /** Two full rounds leave the charge of the referenced handles. */
  lemma TwoRoundsLeave(s: Snapshot)
    requires Consistent(s) && s.head < |s.list|
    ensures Swept(s, 2 * |s.list|).usage == Sum(s.list, Held())
  {
    var r := Swept(s, 2 * |s.list|).list;
    SweptConsistent(s, 2 * |s.list|);
    TwoRoundsEvictAll(s.list, s.head);
    forall h | 0 <= h < |r| ensures Stock()(r[h]) == Held()(s.list[h]) {
      SweepKeeps(s.list, s.head, 2 * |s.list|, h);
    }
    SumAgrees(r, s.list, Stock(), Held());
  }

  lemma LastRoundLeaves(s: Snapshot)
    requires Consistent(s) && s.head < |s.list|
    ensures Swept(s, 2 * |s.list| - 1).usage == Sum(s.list, Held()) + LastCharge(s.list, s.head)
  {
    TwoRoundsLeave(s);
    LastExamined(s);
    EvictedOneMore(s.list, s.head, 2 * |s.list| - 1);
  }

  /**
   The sweep fails exactly if the charge does not fit beside the referenced handles and the handle before the head, in case
   that one is evictable and used.
   */
  lemma FailsIff(s: Snapshot, s': Snapshot, charge: nat, capacity: nat, ok: bool, m: nat)
    requires Consistent(s) && s.head < |s.list| && m <= 2 * |s.list| && SweepResult(s, s', charge, capacity, ok, m)
    ensures !ok <==> Sum(s.list, Held()) + LastCharge(s.list, s.head) + charge > capacity
  {
    LastRoundLeaves(s);
    if ok {
      FitsStays(s, charge, capacity, m, 2 * |s.list| - 1);
    } else {
      assert !Fits(s, charge, capacity, 2 * |s.list| - 1);
    }
  }

  /**
   It can fail although its evictions have made room: exactly if the handle before the head is evictable and used, and the
   charge fits beside the referenced handles but not with that one too.
   */
  lemma FailsThoughItFitsIff(s: Snapshot, s': Snapshot, charge: nat, capacity: nat, ok: bool, m: nat)
    requires Consistent(s) && s.head < |s.list| && m <= 2 * |s.list| && SweepResult(s, s', charge, capacity, ok, m)
    ensures !ok && s'.usage + charge <= capacity
            <==> var last, held := LastOf(s.list, s.head), Sum(s.list, Held());
                 SecondChance(last) && held + charge <= capacity < held + last.charge + charge
  {
    FailsIff(s, s', charge, capacity, ok, m);
    TwoRoundsLeave(s);
  }

  /** Without usage no live handle has a charge. */
  lemma NoUsage(s: Snapshot)
    requires Consistent(s) && s.usage == 0
    ensures Sum(s.list, Held()) == 0 && LastCharge(s.list, s.head) == 0
    ensures forall h :: 0 <= h < |s.list| && Evictable(s.list[h]) ==> s.list[h].charge == 0
  {
    SumZeroTerms(s.list, Stock());
    assert forall h :: 0 <= h < |s.list| ==> Stock()(s.list[h]) == 0;
    SumZero(s.list, Held());
  }

  /** A failed sweep leaves nothing to evict. */
  lemma FailureLeavesNone(s: Snapshot, s': Snapshot, charge: nat, capacity: nat, m: nat)
    requires s.head < |s.list| && m <= 2 * |s.list| && SweepResult(s, s', charge, capacity, false, m)
    ensures forall h :: 0 <= h < |s'.list| ==> !Evictable(s'.list[h])
  {
    TwoRoundsEvictAll(s.list, s.head);
  }

  /** A full shard of one used entry: the sweep clears its usage bit, then evicts it with its last examination, and fails. */
  lemma FailsWithRoomMade() returns (s: Snapshot)
    ensures s == Snapshot([Handle(true, true, 0, 1, "a")], 0, [], map["a" := 0], 1) && Consistent(s)
    ensures Needed(s, 1, 1, 2) && Swept(s, 2).usage + 1 <= 1
    ensures SweepResult(s, Swept(s, 2).(head := 0), 1, 1, false, 2)
  {
    var hd := Handle(true, true, 0, 1, "a");
    s := Snapshot([hd], 0, [], map["a" := 0], 1);
    assert Sum([hd], Stock()) == 1;
    assert Evicted(s.list, 0, 1) == [] && Evicted(s.list, 0, 2) == [0];
    assert ChargeOf(s.list, [0]) == 1 && ChargeOf(s.list, []) == 0;
    assert !Fits(s, 1, 1, 0) && !Fits(s, 1, 1, 1);
  }

  lemma MakesRoom(s: Snapshot, s': Snapshot, capacity: nat, ok: bool, m: nat)
    requires s.head < |s.list| && m <= 2 * |s.list| && SweepResult(s, s', 0, capacity, ok, m)
    ensures s'.usage <= capacity || forall h :: 0 <= h < |s'.list| ==> !Evictable(s'.list[h])
  {
    if !ok {
      FailureLeavesNone(s, s', 0, capacity, m);
    }
  }

  // ---------------------------------------------------------------- the shard

  class ClockShard {
    var list: seq<Handle>
    var head: nat
    var recycle: seq<nat>
    var table: map<string, nat>
    var usage: int
    var capacity: nat

    ghost function Now(): Snapshot
      reads this
    {
      Snapshot(list, head, recycle, table, usage)
    }

    ghost predicate Valid()
      reads this
    {
      Consistent(Now())
    }

    constructor (capacity: nat)
      ensures Valid() && Now() == Snapshot([], 0, [], map[], 0) && this.capacity == capacity
    {
      list, head, recycle, table, usage := [], 0, [], map[], 0;
      this.capacity := capacity;
    }

    /** Examine one handle: evict it if it is unused and unreferenced, otherwise clear its usage bit. */
    method TryEvict(h: nat) returns (evicted: bool)
      requires h < |list|
      modifies this
      ensures capacity == old(capacity)
      ensures evicted <==> Fresh(old(list)[h])
      ensures Now() == TryEvictOn(old(Now()), h)
    {
      evicted := Fresh(list[h]);
      if evicted {
        table := table - {list[h].key};
        usage := usage - list[h].charge;
        recycle := recycle + [h];
        list := list[h := list[h].(inCache := false)];
      } else {
        list := list[h := list[h].(used := false)];
      }
    }

    /** One examination, number m of a sweep that began in the given state, and the next handle of the circle. */
    method Examine(charge: nat, at: nat, ghost before: Snapshot, ghost m: nat) returns (next: nat)
      requires before.head < |before.list| && m < 2 * |before.list| && Now() == Swept(before, m)
      requires at == At(before.head, |before.list|, m) && usage + charge > capacity && Needed(before, charge, capacity, m)
      modifies this
      ensures capacity == old(capacity) && Now() == Swept(before, m + 1) && Needed(before, charge, capacity, m + 1)
      ensures next == At(before.head, |before.list|, m + 1)
      ensures next == head <==> m + 1 == |before.list| || m + 1 == 2 * |before.list|
    {
      NeededOneMore(before, charge, capacity, m);
      SweptStep(before, m);
      NextAt(before.head, |before.list|, m);
      var evicted := TryEvict(at);
      next := if at + 1 >= |list| then 0 else at + 1;
    }

    /** The loop of the sweep, on a shard in use. */
    method Sweep(charge: nat) returns (ok: bool, ghost m: nat)
      requires head < |list|
      modifies this
      ensures capacity == old(capacity)
      ensures m <= 2 * |old(list)| && SweepResult(old(Now()), Now(), charge, capacity, ok, m)
    {
      ghost var before := Now();
      SweptStart(before);
      m := 0;
      var newHead := head;
      var second := false;
      while usage + charge > capacity
        invariant capacity == old(capacity) && m < 2 * |before.list| && Now() == Swept(before, m)
        invariant newHead == At(before.head, |before.list|, m) && (second <==> m >= |before.list|)
        invariant Needed(before, charge, capacity, m)
        decreases 2 * |before.list| - m
      {
        newHead := Examine(charge, newHead, before, m);
        m := m + 1;
        if newHead == head {
          if second {
            return false, m;
          }
          second := true;
        }
      }
      head := newHead;
      return true, m;
    }

    /**
     The sweep stops before the first examination it does not need, and gives up after two full rounds. `m` is the
     number of examinations. Whether it succeeds is decided by the shard before the call, and failure leaves nothing that
     could still be freed.
     */
    method EvictFromCache(charge: nat) returns (ok: bool, ghost m: nat)
      requires Valid()
      modifies this
      ensures Valid() && usage >= 0 && capacity == old(capacity)
      ensures old(usage) == 0 ==> ok == (charge <= capacity) && m == 0 && Now() == old(Now())
      ensures old(usage) > 0 ==>
                old(head) < |old(list)| && m <= 2 * |old(list)| && SweepResult(old(Now()), Now(), charge, capacity, ok, m)
      ensures ok <==> Sum(old(list), Held()) + LastCharge(old(list), old(head)) + charge <= capacity
      ensures !ok ==> forall h :: 0 <= h < |list| && Evictable(list[h]) ==> list[h].charge == 0
    {
      UsageNonNegative(Now());
      if usage == 0 {
        NoUsage(Now());
        return charge <= capacity, 0;
      }
      UsageNeedsHandles(Now());
      ghost var before := Now();
      ok, m := Sweep(charge);
      SweptConsistent(before, m);
      AtInRange(before.head, |before.list|, m);
      MoveHead(Swept(before, m), if ok then At(before.head, |before.list|, m) else before.head);
      FailsIff(before, Now(), charge, capacity, ok, m);
      if !ok {
        FailureLeavesNone(before, Now(), charge, capacity, m);
      }
    }

    /** The new capacity takes effect at once: the sweep makes room as far as it can. */
    method SetCapacity(newCapacity: nat) returns (ghost m: nat)
      requires Valid()
      modifies this
      ensures Valid() && capacity == newCapacity
      ensures usage <= newCapacity || forall h :: 0 <= h < |list| ==> !Evictable(list[h])
    {
      capacity := newCapacity;
      ghost var before := Now();
      UsageNonNegative(before);
      var ok;
      ok, m := EvictFromCache(0);
      if before.usage > 0 {
        MakesRoom(before, Now(), newCapacity, ok, m);
      }
    }
  }
}
