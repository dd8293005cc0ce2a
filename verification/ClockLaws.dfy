/** What the operations of the CLOCK shard achieve, alone and under every interference. */
module ClockLaws {
  import opened Options
  import opened Paths
  import opened Sums
  import opened ClockProtocol
  import opened ClockSafety
  import opened ClockTheorems

  ghost predicate StepBy(st: State, a: Action, st': State)
  {
    Enabled(st, a) && st' == Step(st, a)
  }

  // ---------------------------------------------------------------- Lookup, alone

  /** One program point, the handle's flags and pinned_usage_ change, and nothing else. */
  function Looked(st: State, t: nat, h: nat, hd: Handle, pinned: int, pc: Pc): State
    requires t < |st.tasks| && h < |st.handles|
  {
    Goto(SetHandle(st, h, hd), t, pc).(pinned := pinned)
  }

  /** Lookup up to its compare-exchange. */
  lemma FindAndLoad(st: State, t: nat, k: ClockKey)
    requires Enabled(st, Find(t, k)) && k in st.table && st.table[k] < |st.handles|
    ensures var st1 := Step(st, Find(t, k));
            && Enabled(st1, Load(t))
            && Step(st1, Load(t)) == Goto(st, t, Loaded(k, st.table[k], st.handles[st.table[k]].flags))
  {
  }

  /** The compare-exchange succeeds at once if nobody interferes, and fails exactly for a handle out of the cache. */
  lemma CasAlone(st: State, t: nat, k: ClockKey, h: nat)
    requires t < |st.tasks| && h < |st.handles|
    ensures var st2 := Goto(st, t, Loaded(k, h, st.handles[h].flags));
            var f := st.handles[h].flags;
            && Enabled(st2, Cas(t))
            && Step(st2, Cas(t))
               == if f.inCache then
                    Looked(st, t, h, st.handles[h].(flags := f.(refs := f.refs + 1)), st.pinned,
                           if f.refs == 0 then Pinning(k, h) else Verify(k, h))
                  else Goto(st, t, Idle)
  {
  }

  function Referenced(hd: Handle): Handle { hd.(flags := hd.flags.(refs := hd.flags.refs + 1)) }

  /** What a successful Lookup has changed. */
  function Pinned(st: State, t: nat, k: ClockKey, h: nat): State
    requires t < |st.tasks| && h < |st.handles|
  {
    var hd := Referenced(st.handles[h]);
    if st.handles[h].flags.refs == 0
    then Looked(st, t, h, hd.(charged := true), st.pinned + hd.charge, Holding(k, h, hd.life))
    else Looked(st, t, h, hd, st.pinned, Holding(k, h, hd.life))
  }

  lemma PinAlone(st: State, t: nat, k: ClockKey, h: nat)
    requires t < |st.tasks| && h < |st.handles| && st.handles[h].key == k && st.handles[h].flags.refs == 0
    ensures var st3 := Looked(st, t, h, Referenced(st.handles[h]), st.pinned, Pinning(k, h));
            && Enabled(st3, AddPin(t)) && Enabled(Step(st3, AddPin(t)), Compare(t))
            && Step(Step(st3, AddPin(t)), Compare(t)) == Pinned(st, t, k, h)
  {
  }

  lemma VerifyAlone(st: State, t: nat, k: ClockKey, h: nat)
    requires t < |st.tasks| && h < |st.handles| && st.handles[h].key == k && st.handles[h].flags.refs != 0
    ensures var st3 := Looked(st, t, h, Referenced(st.handles[h]), st.pinned, Verify(k, h));
            Enabled(st3, Compare(t)) && Step(st3, Compare(t)) == Pinned(st, t, k, h)
  {
  }

  /** The steps of a Lookup of a mapped key that nobody interferes with. */
  function LookupSteps(st: State, t: nat, k: ClockKey): seq<Action>
    requires k in st.table && st.table[k] < |st.handles|
  {
    var f := st.handles[st.table[k]].flags;
    [Find(t, k), Load(t)] + [Cas(t)]
    + if !f.inCache then [] else if f.refs == 0 then [AddPin(t), Compare(t)] else [Compare(t)]
  }

  lemma ToCas(st: State, t: nat, k: ClockKey, st3: State)
    requires Enabled(st, Find(t, k)) && k in st.table && st.table[k] < |st.handles|
    requires var st2 := Goto(st, t, Loaded(k, st.table[k], st.handles[st.table[k]].flags));
             Enabled(st2, Cas(t)) && st3 == Step(st2, Cas(t))
    ensures Leads(st, [Find(t, k), Load(t)] + [Cas(t)], st3, StepBy)
  {
    var st2 := Goto(st, t, Loaded(k, st.table[k], st.handles[st.table[k]].flags));
    FindAndLoad(st, t, k);
    LeadsTwice(st, Find(t, k), Step(st, Find(t, k)), Load(t), st2, StepBy);
    LeadsOn(st, [Find(t, k), Load(t)], st2, Cas(t), st3, StepBy);
  }

  /**
   From every reachable state a Lookup of a mapped key, alone, ends with the client holding the mapped handle, one reference
   more on it, exactly if the handle is in the cache; if not, an eviction is between its two steps.
   */
  lemma LookupFinds(run: seq<State>, i: nat, t: nat, k: ClockKey) returns (st': State)
    requires IsRun(run) && i < |run| && Enabled(run[i], Find(t, k)) && k in run[i].table
    ensures run[i].table[k] < |run[i].handles| && Leads(run[i], LookupSteps(run[i], t, k), st', StepBy)
    ensures var st, h := run[i], run[i].table[k];
            if st.handles[h].flags.inCache then
              && |st'.tasks| == |st.tasks| && |st'.handles| == |st.handles| && st'.table == st.table
              && st'.tasks[t].pc == Holding(k, h, st.handles[h].life)
              && st'.handles[h].flags == st.handles[h].flags.(refs := st.handles[h].flags.refs + 1)
              && st'.handles[h].value == st.handles[h].value
            else st' == st && LockPc(st).Evicting? && LockPc(st).h == h
  {
    var st := run[i];
    EveryStateInv(run, i);
    var h := st.table[k];
    CasAlone(st, t, k, h);
    if !st.handles[h].flags.inCache {
      st' := Goto(st, t, Idle);
      ToCas(st, t, k, st');
      assert [Find(t, k), Load(t)] + [Cas(t)] + [] == [Find(t, k), Load(t)] + [Cas(t)];
      assert st'.tasks == st.tasks;
    } else {
      st' := Pinned(st, t, k, h);
      LookupHolds(st, t, k);
    }
  }

  lemma LookupHolds(st: State, t: nat, k: ClockKey)
    requires Enabled(st, Find(t, k)) && k in st.table && st.table[k] < |st.handles|
    requires st.handles[st.table[k]].flags.inCache && st.handles[st.table[k]].key == k
    ensures Leads(st, LookupSteps(st, t, k), Pinned(st, t, k, st.table[k]), StepBy)
  {
    var h := st.table[k];
    var first, end := [Find(t, k), Load(t)] + [Cas(t)], Pinned(st, t, k, h);
    CasAlone(st, t, k, h);
    if st.handles[h].flags.refs == 0 {
      var st3 := Looked(st, t, h, Referenced(st.handles[h]), st.pinned, Pinning(k, h));
      ToCas(st, t, k, st3);
      PinAlone(st, t, k, h);
      LeadsTwice(st3, AddPin(t), Step(st3, AddPin(t)), Compare(t), end, StepBy);
      LeadsFurther(st, first, st3, [AddPin(t), Compare(t)], end, StepBy);
    } else {
      var st3 := Looked(st, t, h, Referenced(st.handles[h]), st.pinned, Verify(k, h));
      ToCas(st, t, k, st3);
      VerifyAlone(st, t, k, h);
      LeadsOn(st, first, st3, Compare(t), end, StepBy);
    }
  }

  // ---------------------------------------------------------------- Lookup, under interference

  /** Looking up k, with handle h found. */
  predicate Looking(pc: Pc, k: ClockKey, h: nat)
  {
    pc == Found(k, h) || (pc.Loaded? && pc.k == k && pc.h == h) || pc == Pinning(k, h) || pc == Verify(k, h)
  }

  ghost predicate LookingAlong(run: seq<State>, i: nat, j: nat, t: nat, k: ClockKey, h: nat)
    requires i <= j < |run|
  {
    forall m :: i <= m <= j ==> t < |run[m].tasks| && Looking(run[m].tasks[t].pc, k, h)
  }

  /** What may keep a Lookup from its handle: it has left the cache, or stores another key. */
  predicate Lost(st: State, k: ClockKey, h: nat)
  {
    h >= |st.handles| || !st.handles[h].flags.inCache || st.handles[h].key != k
  }

  lemma OnlyOwnSteps(st: State, a: Action, t: nat)
    requires Enabled(st, a) && t < |st.tasks| && a.t != t
    ensures |Step(st, a).tasks| == |st.tasks| && Step(st, a).tasks[t] == st.tasks[t]
  {
    FramedStep(st, a);
  }

  lemma LookingActions(st: State, a: Action, k: ClockKey, h: nat)
    requires Enabled(st, a) && Looking(st.tasks[a.t].pc, k, h)
    ensures a.Load? || a.Cas? || a.AddPin? || a.Compare? || a.Delete?
  {
  }

  /** How flags come to be loaded. */
  lemma LoadedHow(st: State, a: Action, k: ClockKey, h: nat)
    requires Enabled(st, a) && Looking(st.tasks[a.t].pc, k, h)
    requires a.t < |Step(st, a).tasks| && Step(st, a).tasks[a.t].pc.Loaded? && Looking(Step(st, a).tasks[a.t].pc, k, h)
    ensures st.tasks[a.t].pc == Step(st, a).tasks[a.t].pc
            || (h < |st.handles| && Step(st, a).tasks[a.t].pc.seen == st.handles[h].flags)
  {
    LookingActions(st, a, k, h);
    if a.Cas? {
      LoadedByCas(st, a.t);
    }
  }

  lemma LoadedByCas(st: State, t: nat)
    requires Enabled(st, Cas(t)) && Step(st, Cas(t)).tasks[t].pc.Loaded?
    ensures Step(st, Cas(t)).tasks[t].pc.seen == st.handles[st.tasks[t].pc.h].flags
  {
  }

  /** From m to m + 1 loaded flags stay, or are those the handle has at m. */
  ghost predicate SeenFrom(run: seq<State>, m: int, t: nat, k: ClockKey, h: nat)
  {
    0 <= m && m + 1 < |run| && t < |run[m].tasks| && t < |run[m + 1].tasks|
    && (Looking(run[m].tasks[t].pc, k, h) && run[m + 1].tasks[t].pc.Loaded? && Looking(run[m + 1].tasks[t].pc, k, h) ==>
          || run[m].tasks[t].pc == run[m + 1].tasks[t].pc
          || (h < |run[m].handles| && run[m].handles[h].flags == run[m + 1].tasks[t].pc.seen))
  }

  lemma SeenStep(run: seq<State>, m: nat, t: nat, k: ClockKey, h: nat)
    requires IsRun(run) && m + 1 < |run| && t < |run[m].tasks| && t < |run[m + 1].tasks|
    ensures SeenFrom(run, m, t, k, h)
  {
    var a := ActionAt(run, m);
    if a.t != t {
      OnlyOwnSteps(run[m], a, t);
    } else if Looking(run[m].tasks[t].pc, k, h) && run[m + 1].tasks[t].pc.Loaded? && Looking(run[m + 1].tasks[t].pc, k, h) {
      LoadedHow(run[m], a, k, h);
    }
  }

  lemma {:induction false} SeenBack(run: seq<State>, i: nat, j: nat, t: nat, k: ClockKey, h: nat) returns (m: nat)
    requires i <= j < |run| && LookingAlong(run, i, j, t, k, h) && run[i].tasks[t].pc == Found(k, h)
    requires forall n {:trigger SeenFrom(run, n, t, k, h)} :: i <= n < j ==> SeenFrom(run, n, t, k, h)
    requires run[j].tasks[t].pc.Loaded?
    ensures i <= m <= j && h < |run[m].handles| && run[m].handles[h].flags == run[j].tasks[t].pc.seen
    decreases j
  {
    assert SeenFrom(run, j - 1, t, k, h);
    if run[j - 1].tasks[t].pc == run[j].tasks[t].pc {
      m := SeenBack(run, i, j - 1, t, k, h);
    } else {
      m := j - 1;
    }
  }

  /** The flags a Lookup has loaded were the handle's at some moment since it found the handle. */
  lemma SeenWas(run: seq<State>, i: nat, j: nat, t: nat, k: ClockKey, h: nat) returns (m: nat)
    requires IsRun(run) && i <= j < |run| && LookingAlong(run, i, j, t, k, h) && run[i].tasks[t].pc == Found(k, h)
    requires run[j].tasks[t].pc.Loaded?
    ensures i <= m <= j && h < |run[m].handles| && run[m].handles[h].flags == run[j].tasks[t].pc.seen
  {
    forall n | i <= n < j ensures SeenFrom(run, n, t, k, h) {
      SeenStep(run, n, t, k, h);
    }
    m := SeenBack(run, i, j, t, k, h);
  }

  /** How a Lookup ends: with the handle, because of what it has seen, or because of the key it finds. */
  lemma LookingEnds(st: State, a: Action, t: nat, k: ClockKey, h: nat)
    requires Enabled(st, a) && t < |st.tasks| && Looking(st.tasks[t].pc, k, h)
    requires t < |Step(st, a).tasks| && !Looking(Step(st, a).tasks[t].pc, k, h)
    ensures a.t == t && h < |st.handles|
    ensures || Step(st, a).tasks[t].pc == Holding(k, h, st.handles[h].life)
            || (st.tasks[t].pc.Loaded? && !st.tasks[t].pc.seen.inCache)
            || st.handles[h].key != k
  {
    if a.t != t {
      OnlyOwnSteps(st, a, t);
    } else {
      LookingActions(st, a, k, h);
    }
  }

  /**
   A Lookup that finds the key mapped in step i ends, in step j, with the client holding that handle, unless at some moment in
   between the handle was out of the cache or stored another key.
   */
  lemma LookupFailsOnlyIf(run: seq<State>, i: nat, j: nat, t: nat, k: ClockKey) returns (m: nat)
    requires IsRun(run) && i < j && j + 1 < |run| && Enabled(run[i], Find(t, k)) && run[i + 1] == Step(run[i], Find(t, k))
    requires k in run[i].table && LookingAlong(run, i + 1, j, t, k, run[i].table[k])
    requires t < |run[j + 1].tasks| && !Looking(run[j + 1].tasks[t].pc, k, run[i].table[k])
    ensures var h := run[i].table[k];
            || (h < |run[j].handles| && run[j + 1].tasks[t].pc == Holding(k, h, run[j].handles[h].life))
            || (i < m <= j && Lost(run[m], k, h))
  {
    var h := run[i].table[k];
    m := j;
    var a := ActionAt(run, j);
    LookingEnds(run[j], a, t, k, h);
    if run[j].tasks[t].pc.Loaded? && !run[j].tasks[t].pc.seen.inCache {
      m := SeenWas(run, i + 1, j, t, k, h);
    }
  }

  /** And a key that is not mapped is not found. */
  lemma LookupMisses(st: State, t: nat, k: ClockKey)
    requires Enabled(st, Find(t, k))
    ensures Step(st, Find(t, k)).tasks[t].pc.Idle? <==> k !in st.table
    ensures k in st.table ==> Looking(Step(st, Find(t, k)).tasks[t].pc, k, st.table[k])
  {
  }

  // ---------------------------------------------------------------- Release

  /** The handle after a release: used, and with one reference less. */
  function Unreferenced(hd: Handle): Handle
  {
    hd.(flags := Flags(hd.flags.inCache, true, hd.flags.refs - 1), charged := hd.charged && hd.flags.refs != 1)
  }

  /** What a release has to do after it has given up the reference. */
  function AfterSub(hd: Handle, h: nat): Pc
  {
    if hd.flags.refs == 1 then Unpinning(hd.charge, if hd.flags.inCache then None else Some(h)) else Idle
  }

  lemma ReleaseThree(st: State, t: nat)
    requires Enabled(st, Release(t)) && st.tasks[t].pc.h < |st.handles|
    ensures var h := st.tasks[t].pc.h;
            var st1 := Step(st, Release(t));
            && Enabled(st1, Mark(t)) && Enabled(Step(st1, Mark(t)), Sub(t))
            && Step(Step(st1, Mark(t)), Sub(t))
               == Goto(SetHandle(st, h, Unreferenced(st.handles[h])), t, AfterSub(st.handles[h], h))
  {
  }

  /** Recycling a handle nobody wants any more, with the mutex free. */
  lemma RecycleThree(st: State, t: nat, h: nat)
    requires t < |st.tasks| && st.tasks[t].pc == WantRecycle(h) && h < |st.handles| && st.lock == None
    ensures Enabled(st, LockRecycle(t)) && Enabled(Step(st, LockRecycle(t)), Push(t))
    ensures Enabled(Step(Step(st, LockRecycle(t)), Push(t)), Discharge(t))
    ensures var st' := Step(Step(Step(st, LockRecycle(t)), Push(t)), Discharge(t));
            && st'.lock == None && |st'.tasks| == |st.tasks| && st'.tasks[t].pc == Idle && |st'.handles| == |st.handles|
            && st'.handles[h] == st.handles[h].(spare := true) && st'.recycle == st.recycle + [h]
            && st'.recycled == st.recycled + multiset{LifeId(h, st.handles[h].life)}
            && st'.usage == st.usage - st.handles[h].charge && st'.pinned == st.pinned
  {
  }

  /** The last reference to a handle that has left the cache. */
  predicate Ends(hd: Handle) { hd.flags.refs == 1 && !hd.flags.inCache }

  function ReleaseSteps(st: State, t: nat, h: nat): seq<Action>
    requires h < |st.handles|
  {
    var hd := st.handles[h];
    [Release(t), Mark(t)] + [Sub(t)]
    + (if hd.flags.refs == 1 then [SubPin(t)] else [])
    + if Ends(hd) then [LockRecycle(t), Push(t)] + [Discharge(t)] else []
  }

  /** What a release has done in the end. */
  predicate ReleasedTo(st: State, st': State, t: nat, h: nat)
  {
    && t < |st.tasks| == |st'.tasks| && st'.tasks[t].pc == Idle && h < |st.handles| == |st'.handles|
    && st'.handles[h].flags == Unreferenced(st.handles[h]).flags
    && st'.pinned == st.pinned - (if st.handles[h].flags.refs == 1 then st.handles[h].charge else 0)
    && st'.recycle == st.recycle + (if Ends(st.handles[h]) then [h] else [])
    && st'.recycled == st.recycled + (if Ends(st.handles[h]) then multiset{LifeId(h, st.handles[h].life)} else multiset{})
    && st'.usage == st.usage - if Ends(st.handles[h]) then st.handles[h].charge else 0
  }

  lemma SubPinAlone(st: State, t: nat, h: nat)
    requires t < |st.tasks| && h < |st.handles| && st.handles[h].flags.refs == 1
    ensures var st3 := Goto(SetHandle(st, h, Unreferenced(st.handles[h])), t, AfterSub(st.handles[h], h));
            && Enabled(st3, SubPin(t))
            && Step(st3, SubPin(t))
               == Goto(SetHandle(st, h, Unreferenced(st.handles[h])), t,
                       if st.handles[h].flags.inCache then Idle else WantRecycle(h))
                  .(pinned := st.pinned - st.handles[h].charge)
  {
  }

  /**
   From every reachable state, with the mutex free if it is needed: a release, alone, sets the usage bit and gives up one
   reference; the last one also takes the charge off pinned_usage_ and, if the handle has left the cache, recycles it.
   */
  lemma ReleaseGivesUp(run: seq<State>, i: nat, t: nat) returns (st': State)
    requires IsRun(run) && i < |run| && Enabled(run[i], Release(t)) && run[i].lock == None
    ensures run[i].tasks[t].pc.h < |run[i].handles|
    ensures Leads(run[i], ReleaseSteps(run[i], t, run[i].tasks[t].pc.h), st', StepBy)
    ensures ReleasedTo(run[i], st', t, run[i].tasks[t].pc.h)
  {
    EveryStateInv(run, i);
    assert TaskOk(run[i], t);
    st' := ReleaseFrom(run[i], t, run[i].tasks[t].pc.h);
  }

  lemma ReleaseFrom(st: State, t: nat, h: nat) returns (st': State)
    requires Enabled(st, Release(t)) && h == st.tasks[t].pc.h < |st.handles| && st.lock == None
    ensures Leads(st, ReleaseSteps(st, t, h), st', StepBy) && ReleasedTo(st, st', t, h)
  {
    var hd := st.handles[h];
    var st3 := Goto(SetHandle(st, h, Unreferenced(hd)), t, AfterSub(hd, h));
    var first := [Release(t), Mark(t)] + [Sub(t)];
    ReleaseThree(st, t);
    var st1 := Step(st, Release(t));
    LeadsThrice(st, Release(t), st1, Mark(t), Step(st1, Mark(t)), Sub(t), st3, StepBy);
    if hd.flags.refs != 1 {
      st' := st3;
      assert first + [] + [] == first;
    } else {
      SubPinAlone(st, t, h);
      var st4 := Step(st3, SubPin(t));
      LeadsOn(st, first, st3, SubPin(t), st4, StepBy);
      if hd.flags.inCache {
        st' := st4;
        assert first + [SubPin(t)] + [] == first + [SubPin(t)];
      } else {
        st' := ReleaseRecycles(st, st4, t, h, first + [SubPin(t)]);
      }
    }
  }

  lemma ReleaseRecycles(st: State, st4: State, t: nat, h: nat, acts: seq<Action>) returns (st': State)
    requires t < |st.tasks| && h < |st.handles| && Ends(st.handles[h]) && st.lock == None && Leads(st, acts, st4, StepBy)
    requires st4 == Goto(SetHandle(st, h, Unreferenced(st.handles[h])), t, WantRecycle(h))
                    .(pinned := st.pinned - st.handles[h].charge)
    ensures Leads(st, acts + ([LockRecycle(t), Push(t)] + [Discharge(t)]), st', StepBy) && ReleasedTo(st, st', t, h)
  {
    RecycleThree(st4, t, h);
    var st5 := Step(st4, LockRecycle(t));
    var st6 := Step(st5, Push(t));
    st' := Step(st6, Discharge(t));
    LeadsThrice(st4, LockRecycle(t), st5, Push(t), st6, Discharge(t), st', StepBy);
    LeadsFurther(st, acts, st4, [LockRecycle(t), Push(t)] + [Discharge(t)], st', StepBy);
  }

  // ---------------------------------------------------------------- eviction and deletion

  /**
   An attempt to evict takes the handle out of the cache exactly if it is there unused and unreferenced, and otherwise only takes
   its usage bit away; the entry it took out is then unmapped and recycled.
   */
  lemma TryEvictIff(run: seq<State>, i: nat, t: nat, h: nat)
    requires IsRun(run) && i < |run| && Enabled(run[i], TryEvict(t, h))
    ensures var f, st' := run[i].handles[h].flags, Step(run[i], TryEvict(t, h));
            var idle := f.inCache && !f.usage && f.refs == 0;
            && |st'.handles| == |run[i].handles| && |st'.tasks| == |run[i].tasks|
            && st'.handles[h].flags == Flags(f.inCache && !idle, false, f.refs)
            && st'.tasks[t].pc == (if idle then Evicting(h, run[i].tasks[t].pc.e) else run[i].tasks[t].pc)
  {
  }

  lemma EvictRecycles(st: State, t: nat)
    requires Enabled(st, EraseEvicted(t))
    ensures var st1 := Step(st, EraseEvicted(t));
            && Enabled(st1, Push(t)) && Enabled(Step(st1, Push(t)), Discharge(t))
            && var st' := Step(Step(st1, Push(t)), Discharge(t));
               && |st'.tasks| == |st.tasks| && st'.tasks[t].pc == Sweeping(st.tasks[t].pc.e)
               && st'.recycle == st.recycle + [st.tasks[t].pc.h] && st'.usage == st.usage - st.handles[st.tasks[t].pc.h].charge
  {
  }

  /** A new entry starts in the cache, unused, with a reference exactly if the client wants to hold it. */
  lemma StoreStarts(run: seq<State>, i: nat, t: nat)
    requires IsRun(run) && i < |run| && Enabled(run[i], Store(t))
    ensures var Storing(h, e) := run[i].tasks[t].pc;
            var st' := Step(run[i], Store(t));
            && |st'.handles| == |run[i].handles| && st'.handles[h].flags == Flags(true, false, if e.hold then 1 else 0)
            && Stores(st'.handles[h], e)
  {
    EveryStateInv(run, i);
    assert TaskOk(run[i], t);
  }

  /** A new entry takes the handle last put into the bin; the list grows only if the bin is empty. */
  lemma TakeReuses(run: seq<State>, i: nat, t: nat)
    requires IsRun(run) && i < |run| && Enabled(run[i], Take(t))
    ensures var st, st' := run[i], Step(run[i], Take(t));
            && |st'.handles| == |st.handles| + (if st.recycle == [] then 1 else 0)
            && |st'.tasks| == |st.tasks| && st'.tasks[t].pc.Filling? && st'.tasks[t].pc.e == st.tasks[t].pc.e
            && st'.tasks[t].pc.h < |st'.handles| && st'.handles[st'.tasks[t].pc.h].spare
            && st.recycle == st'.recycle + if st.recycle == [] then [] else [st'.tasks[t].pc.h]
  {
    var st := run[i];
    EveryStateInv(run, i);
    if st.recycle != [] {
      var h := st.recycle[|st.recycle| - 1];
      assert h in st.recycle && HandleOk(st, h);
      CountsNonNegative(st, h);
      assert st.recycle == st.recycle[..|st.recycle| - 1] + [h];
    }
  }

  function Deletes(t: nat, n: nat): seq<Action>
  {
    if n == 0 then [] else [Delete(t)] + Deletes(t, n - 1)
  }

  /** What waits for deletion. */
  function Waiting(garbage: seq<Garbage>): multiset<LifeId>
  {
    if garbage == [] then multiset{} else multiset{garbage[0].id} + Waiting(garbage[1..])
  }

  /** Outside the mutex, the cleanup of an operation deletes all the values of the lives it has ended, each once. */
  lemma {:induction false} CleanupDeletes(st: State, t: nat) returns (st': State)
    requires t < |st.tasks| && !InMutex(st.tasks[t].pc)
    ensures Leads(st, Deletes(t, |st.tasks[t].garbage|), st', StepBy)
    ensures |st'.tasks| == |st.tasks| && st'.tasks[t] == Task(st.tasks[t].pc, [])
    ensures st'.deleted == st.deleted + Waiting(st.tasks[t].garbage)
    decreases |st.tasks[t].garbage|
  {
    if st.tasks[t].garbage == [] {
      st' := st;
      LeadsNowhere(st, StepBy);
    } else {
      var st1 := Step(st, Delete(t));
      st' := CleanupDeletes(st1, t);
      LeadsOnce(st, Delete(t), st1, StepBy);
      LeadsFurther(st, [Delete(t)], st1, Deletes(t, |st1.tasks[t].garbage|), st', StepBy);
    }
  }
}
