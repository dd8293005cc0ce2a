/** Every step of the CLOCK cache protocol keeps its invariant. */
module ClockSafety {
  import opened Options
  import opened Sums
  import opened ClockProtocol

  lemma InitInv(st: State)
    requires Init(st)
    ensures Inv(st)
  {
    SumZero(st.tasks, SubsPin());
    SumZero(st.tasks, Pending());
    forall id: LifeId ensures LifeOk(st, id) {
      SumZero(st.tasks, GarbageOf(id));
    }
  }

  // ---------------------------------------------------------------- bookkeeping per handle

  /** The books of handle h balance between what the handle says and what task t did. */
  predicate Book(hd: Handle, hd': Handle, bin: int, bin': int, h: nat, pc: Pc, pc': Pc)
  {
    && hd'.flags.refs - hd.flags.refs == PcRefs(pc', h) - PcRefs(pc, h)
    && B(hd'.spare) + B(Live(hd')) + PcOwns(pc', h) == B(hd.spare) + B(Live(hd)) + PcOwns(pc, h)
    && B(hd'.charged) - B(hd'.flags.refs > 0) + PcAddsPin(pc', h)
       == B(hd.charged) - B(hd.flags.refs > 0) + PcAddsPin(pc, h)
    && bin' + PcFills(pc', h) - B(hd'.spare) == bin + PcFills(pc, h) - B(hd.spare)
  }

  /** st' differs from st, as far as tasks go, in task t only. */
  predicate OnlyTask(st: State, st': State, t: nat)
  {
    && t < |st.tasks| == |st'.tasks|
    && st'.tasks == st.tasks[t := st'.tasks[t]]
  }

  ghost predicate Books(st: State, st': State, t: nat)
  {
    && OnlyTask(st, st', t)
    && |st'.handles| == |st.handles|
    && forall h :: 0 <= h < |st.handles| ==>
         Book(st.handles[h], st'.handles[h], multiset(st.recycle)[h], multiset(st'.recycle)[h], h,
              st.tasks[t].pc, st'.tasks[t].pc)
  }

  lemma HandleKept(st: State, st': State, t: nat, h: nat)
    requires OnlyTask(st, st', t) && h < |st.handles| && h < |st'.handles| && HandleOk(st, h)
    requires Book(st.handles[h], st'.handles[h], multiset(st.recycle)[h], multiset(st'.recycle)[h], h,
                  st.tasks[t].pc, st'.tasks[t].pc)
    ensures HandleOk(st', h)
  {
    SumUpdate(st.tasks, t, st'.tasks[t], Refs(h));
    SumUpdate(st.tasks, t, st'.tasks[t], Owns(h));
    SumUpdate(st.tasks, t, st'.tasks[t], AddsPin(h));
    SumUpdate(st.tasks, t, st'.tasks[t], Fills(h));
  }

  lemma HandlesKept(st: State, st': State, t: nat)
    requires Handles(st) && Books(st, st', t)
    ensures Handles(st')
  {
    forall h | 0 <= h < |st'.handles| ensures HandleOk(st', h) {
      assert HandleOk(st, h);
      HandleKept(st, st', t, h);
    }
  }

  /** The counters follow the charge of the one handle x and the pending amounts of the one task t that changed. */
  lemma TotalsKept(st: State, st': State, t: nat, x: nat)
    requires Totals(st) && OnlyTask(st, st', t)
    requires x < |st.handles| == |st'.handles| && st'.handles == st.handles[x := st'.handles[x]]
    requires st'.pinned - st.pinned
             == ChargedPin()(st'.handles[x]) - ChargedPin()(st.handles[x])
                + PcSubsPin(st'.tasks[t].pc) - PcSubsPin(st.tasks[t].pc)
    requires st'.usage - st.usage
             == Stock()(st'.handles[x]) - Stock()(st.handles[x]) + PcPending(st'.tasks[t].pc) - PcPending(st.tasks[t].pc)
    ensures Totals(st')
  {
    SumUpdate(st.handles, x, st'.handles[x], ChargedPin());
    SumUpdate(st.handles, x, st'.handles[x], Stock());
    SumUpdate(st.tasks, t, st'.tasks[t], SubsPin());
    SumUpdate(st.tasks, t, st'.tasks[t], Pending());
  }

  lemma TotalsKeptStill(st: State, st': State, t: nat)
    requires Totals(st) && OnlyTask(st, st', t) && st'.handles == st.handles
    requires st'.pinned - st.pinned == PcSubsPin(st'.tasks[t].pc) - PcSubsPin(st.tasks[t].pc)
    requires st'.usage - st.usage == PcPending(st'.tasks[t].pc) - PcPending(st.tasks[t].pc)
    ensures Totals(st')
  {
    SumUpdate(st.tasks, t, st'.tasks[t], SubsPin());
    SumUpdate(st.tasks, t, st'.tasks[t], Pending());
  }

  /** No life begins or ends. */
  predicate SameLives(st: State, st': State, t: nat)
  {
    && OnlyTask(st, st', t) && st'.tasks[t].garbage == st.tasks[t].garbage
    && |st'.handles| == |st.handles|
    && st'.born == st.born && st'.recycled == st.recycled && st'.deleted == st.deleted
    && forall h :: 0 <= h < |st.handles| ==> SameLife(st.handles[h], st'.handles[h])
  }

  predicate SameLife(hd: Handle, hd': Handle) { SameContents(hd, hd') && hd'.spare == hd.spare }

  predicate SameContents(hd: Handle, hd': Handle)
  {
    hd'.life == hd.life && hd'.key == hd.key && hd'.value == hd.value && hd'.charge == hd.charge
  }

  lemma LivesKept(st: State, st': State, t: nat)
    requires Lives(st) && SameLives(st, st', t)
    ensures Lives(st')
  {
    forall id: LifeId ensures LifeOk(st', id) {
      assert LifeOk(st, id);
      SumUpdate(st.tasks, t, st'.tasks[t], GarbageOf(id));
    }
  }

  // ---------------------------------------------------------------- facts about one task's handle

  lemma CountsNonNegative(st: State, h: nat)
    ensures Sum(st.tasks, Refs(h)) >= 0 && Sum(st.tasks, Owns(h)) >= 0
    ensures Sum(st.tasks, AddsPin(h)) >= 0 && Sum(st.tasks, Fills(h)) >= 0
  {
    SumNonNegative(st.tasks, Refs(h));
    SumNonNegative(st.tasks, Owns(h));
    SumNonNegative(st.tasks, AddsPin(h));
    SumNonNegative(st.tasks, Fills(h));
  }

  lemma RefsNonNegative(st: State, h: nat)
    requires Handles(st) && h < |st.handles|
    ensures st.handles[h].flags.refs >= 0
  {
    assert HandleOk(st, h);
    CountsNonNegative(st, h);
  }

  /** A referenced handle has a positive count, is live and belongs to nobody. */
  lemma HolderSees(st: State, t: nat, h: nat)
    requires Handles(st) && t < |st.tasks| && h < |st.handles| && PcRefs(st.tasks[t].pc, h) == 1
    ensures st.handles[h].flags.refs >= 1 && !st.handles[h].spare && Sum(st.tasks, Owns(h)) == 0
  {
    assert HandleOk(st, h);
    SumAtLeast(st.tasks, t, Refs(h));
    CountsNonNegative(st, h);
  }

  /** An owned handle is out of the cache, unreferenced and not spare, and its owner is the only one. */
  lemma OwnerSees(st: State, t: nat, h: nat)
    requires Handles(st) && t < |st.tasks| && h < |st.handles| && PcOwns(st.tasks[t].pc, h) == 1
    ensures !Live(st.handles[h]) && st.handles[h].flags.refs == 0 && !st.handles[h].spare && !st.handles[h].charged
    ensures Sum(st.tasks, Owns(h)) == 1 && Sum(st.tasks, Refs(h)) == 0 && Sum(st.tasks, AddsPin(h)) == 0
  {
    assert HandleOk(st, h);
    SumAtLeast(st.tasks, t, Owns(h));
    CountsNonNegative(st, h);
  }

  /** A handle being filled is out of the cache, unreferenced, in no bin, and nobody else deals with it. */
  lemma FillerSees(st: State, t: nat, h: nat)
    requires Handles(st) && t < |st.tasks| && h < |st.handles| && PcFills(st.tasks[t].pc, h) == 1
    ensures !Live(st.handles[h]) && st.handles[h].flags.refs == 0 && st.handles[h].spare && !st.handles[h].charged
    ensures multiset(st.recycle)[h] == 0 && Sum(st.tasks, Fills(h)) == 1
    ensures Sum(st.tasks, Owns(h)) == 0 && Sum(st.tasks, Refs(h)) == 0
  {
    assert HandleOk(st, h);
    SumAtLeast(st.tasks, t, Fills(h));
    CountsNonNegative(st, h);
  }

  lemma {:induction false} AddersHold(tasks: seq<Task>, h: nat)
    ensures Sum(tasks, AddsPin(h)) <= Sum(tasks, Refs(h))
  {
    if tasks != [] {
      AddersHold(tasks[1..], h);
    }
  }

  /** The last holder, if it is not itself still to add the charge, finds it added. */
  lemma LastIsCharged(st: State, t: nat, h: nat)
    requires Handles(st) && t < |st.tasks| && h < |st.handles|
    requires PcRefs(st.tasks[t].pc, h) == 1 && PcAddsPin(st.tasks[t].pc, h) == 0 && st.handles[h].flags.refs == 1
    ensures st.handles[h].charged
  {
    assert HandleOk(st, h);
    SumSplit(st.tasks, t, Refs(h));
    SumSplit(st.tasks, t, AddsPin(h));
    AddersHold(st.tasks[..t], h);
    AddersHold(st.tasks[t + 1..], h);
    CountsNonNegative(st, h);
  }

  /** Whoever made the first reference finds the charge not yet added. */
  lemma AdderSees(st: State, t: nat, h: nat)
    requires Handles(st) && t < |st.tasks| && h < |st.handles| && PcAddsPin(st.tasks[t].pc, h) == 1
    ensures !st.handles[h].charged && st.handles[h].flags.refs > 0
  {
    assert HandleOk(st, h);
    SumAtLeast(st.tasks, t, AddsPin(h));
    CountsNonNegative(st, h);
  }

  // ---------------------------------------------------------------- the other tasks

  predicate SameCached(st: State, st': State)
  {
    && |st.handles| <= |st'.handles|
    && forall h :: 0 <= h < |st.handles| ==> st'.handles[h].flags.inCache == st.handles[h].flags.inCache
  }

  /** Another task's assertions survive when its handles keep their contents and, for the mutex holder, the table. */
  lemma OtherTask(st: State, st': State, u: nat)
    requires u < |st.tasks| == |st'.tasks| && st'.tasks[u] == st.tasks[u] && TaskOk(st, u)
    requires |st.handles| <= |st'.handles|
    requires forall h :: 0 <= h < |st.handles| ==> SameContents(st.handles[h], st'.handles[h])
    requires st.lock == Some(u) <==> st'.lock == Some(u)
    requires st.lock == Some(u) ==> st'.table == st.table && SameCached(st, st')
    requires forall id :: id in st.born ==> id in st'.born && st'.born[id] == st.born[id]
    ensures TaskOk(st', u)
  {
  }

  lemma TasksKept(st: State, st': State, t: nat)
    requires Tasks(st) && OnlyTask(st, st', t)
    requires |st.handles| <= |st'.handles|
    requires forall h :: 0 <= h < |st.handles| ==> SameContents(st.handles[h], st'.handles[h])
    requires st'.lock == st.lock || (st'.lock == Some(t) && st.lock == None) || (st'.lock == None && st.lock == Some(t))
    requires st.lock.Some? && st.lock.value != t ==> st'.table == st.table && SameCached(st, st')
    requires forall id :: id in st.born ==> id in st'.born && st'.born[id] == st.born[id]
    requires forall i :: 0 <= i < |st'.recycle| ==> st'.recycle[i] < |st'.handles|
    requires TaskOk(st', t)
    ensures Tasks(st')
  {
    forall u | 0 <= u < |st'.tasks| ensures TaskOk(st', u) {
      if u != t {
        assert TaskOk(st, u);
        OtherTask(st, st', u);
      }
    }
  }

  // ---------------------------------------------------------------- lock-free steps

  /** Lock-free steps touch only the usage bit, the count, and the accounting bit of their handle. */
  predicate LockFreeFrame(st: State, st': State, t: nat)
  {
    && SameLives(st, st', t)
    && st'.table == st.table && st'.lock == st.lock && st'.recycle == st.recycle
    && !InMutex(st.tasks[t].pc) && !InMutex(st'.tasks[t].pc)
    && PcOk(st', st'.tasks[t].pc)
    && forall h :: 0 <= h < |st.handles| ==> st'.handles[h].flags.inCache == st.handles[h].flags.inCache
  }

  lemma LockFreeTable(st: State, st': State, t: nat)
    requires Table(st) && Tasks(st) && LockFreeFrame(st, st', t)
    ensures Table(st')
  {
    assert TaskOk(st, t);
    assert LockPc(st') == LockPc(st);
    forall h | 0 <= h < |st'.handles| && st'.handles[h].flags.inCache
      ensures Listed(st', h) || Unlisted(LockPc(st'), h)
    {
      assert Listed(st, h) || Unlisted(LockPc(st), h);
    }
  }

  lemma LockFreeTasks(st: State, st': State, t: nat)
    requires Tasks(st) && LockFreeFrame(st, st', t)
    ensures Tasks(st')
  {
    assert TaskOk(st, t);
    TasksKept(st, st', t);
  }

  lemma KeepLockFree(st: State, st': State, t: nat)
    requires Inv(st) && LockFreeFrame(st, st', t) && Books(st, st', t) && Totals(st')
    ensures Inv(st')
  {
    HandlesKept(st, st', t);
    LivesKept(st, st', t);
    LockFreeTable(st, st', t);
    LockFreeTasks(st, st', t);
  }

  lemma FindBooks(st: State, t: nat, k: ClockKey)
    requires Enabled(st, Find(t, k))
    ensures Books(st, DoFind(st, t, k), t)
  {
  }

  lemma FindFrame(st: State, t: nat, k: ClockKey)
    requires Enabled(st, Find(t, k)) && Table(st)
    ensures LockFreeFrame(st, DoFind(st, t, k), t)
  {
  }

  lemma KeepFind(st: State, t: nat, k: ClockKey)
    requires Inv(st) && Enabled(st, Find(t, k))
    ensures Inv(DoFind(st, t, k))
  {
    var st' := DoFind(st, t, k);
    FindBooks(st, t, k);
    FindFrame(st, t, k);
    TotalsKeptStill(st, st', t);
    KeepLockFree(st, st', t);
  }

  lemma LoadBooks(st: State, t: nat)
    requires Enabled(st, Load(t)) && PcOk(st, st.tasks[t].pc)
    ensures Books(st, DoLoad(st, t), t) && LockFreeFrame(st, DoLoad(st, t), t)
  {
  }

  lemma KeepLoad(st: State, t: nat)
    requires Inv(st) && Enabled(st, Load(t))
    ensures Inv(DoLoad(st, t))
  {
    assert TaskOk(st, t);
    LoadBooks(st, t);
    TotalsKeptStill(st, DoLoad(st, t), t);
    KeepLockFree(st, DoLoad(st, t), t);
  }

  /** The compare-exchange fails, because of what was loaded or because the flags have changed. */
  lemma CasMissBooks(st: State, t: nat)
    requires Enabled(st, Cas(t))
    requires !st.tasks[t].pc.seen.inCache || st.handles[st.tasks[t].pc.h].flags != st.tasks[t].pc.seen
    ensures Books(st, DoCas(st, t), t)
  {
  }

  lemma CasHitBooks(st: State, t: nat)
    requires Enabled(st, Cas(t)) && st.handles[st.tasks[t].pc.h].flags.refs >= 0
    requires st.tasks[t].pc.seen.inCache && st.handles[st.tasks[t].pc.h].flags == st.tasks[t].pc.seen
    ensures Books(st, DoCas(st, t), t)
  {
  }

  lemma CasBooks(st: State, t: nat)
    requires Enabled(st, Cas(t)) && st.handles[st.tasks[t].pc.h].flags.refs >= 0
    ensures Books(st, DoCas(st, t), t)
  {
    if st.tasks[t].pc.seen.inCache && st.handles[st.tasks[t].pc.h].flags == st.tasks[t].pc.seen {
      CasHitBooks(st, t);
    } else {
      CasMissBooks(st, t);
    }
  }

  lemma CasFrame(st: State, t: nat)
    requires Enabled(st, Cas(t))
    ensures LockFreeFrame(st, DoCas(st, t), t)
  {
  }

  lemma KeepCas(st: State, t: nat)
    requires Inv(st) && Enabled(st, Cas(t))
    ensures Inv(DoCas(st, t))
  {
    var st' := DoCas(st, t);
    RefsNonNegative(st, st.tasks[t].pc.h);
    CasBooks(st, t);
    CasFrame(st, t);
    TotalsKept(st, st', t, st.tasks[t].pc.h);
    KeepLockFree(st, st', t);
  }

  lemma AddPinBooks(st: State, t: nat)
    requires Enabled(st, AddPin(t)) && !st.handles[st.tasks[t].pc.h].charged
    ensures Books(st, DoAddPin(st, t), t) && LockFreeFrame(st, DoAddPin(st, t), t)
  {
  }

  lemma KeepAddPin(st: State, t: nat)
    requires Inv(st) && Enabled(st, AddPin(t))
    ensures Inv(DoAddPin(st, t))
  {
    var st' := DoAddPin(st, t);
    AdderSees(st, t, st.tasks[t].pc.h);
    AddPinBooks(st, t);
    TotalsKept(st, st', t, st.tasks[t].pc.h);
    KeepLockFree(st, st', t);
  }

  lemma CompareBooks(st: State, t: nat)
    requires Enabled(st, Compare(t))
    ensures Books(st, DoCompare(st, t), t) && LockFreeFrame(st, DoCompare(st, t), t)
  {
  }

  lemma KeepCompare(st: State, t: nat)
    requires Inv(st) && Enabled(st, Compare(t))
    ensures Inv(DoCompare(st, t))
  {
    var st' := DoCompare(st, t);
    CompareBooks(st, t);
    TotalsKeptStill(st, st', t);
    KeepLockFree(st, st', t);
  }

  lemma ReleaseBooks(st: State, t: nat)
    requires Enabled(st, Release(t)) && PcOk(st, st.tasks[t].pc)
    ensures Books(st, DoRelease(st, t), t) && LockFreeFrame(st, DoRelease(st, t), t)
  {
  }

  lemma KeepRelease(st: State, t: nat)
    requires Inv(st) && Enabled(st, Release(t))
    ensures Inv(DoRelease(st, t))
  {
    assert TaskOk(st, t);
    ReleaseBooks(st, t);
    TotalsKeptStill(st, DoRelease(st, t), t);
    KeepLockFree(st, DoRelease(st, t), t);
  }

  lemma MarkBooks(st: State, t: nat)
    requires Enabled(st, Mark(t))
    ensures Books(st, DoMark(st, t), t) && LockFreeFrame(st, DoMark(st, t), t)
  {
  }

  lemma KeepMark(st: State, t: nat)
    requires Inv(st) && Enabled(st, Mark(t))
    ensures Inv(DoMark(st, t))
  {
    var st' := DoMark(st, t);
    MarkBooks(st, t);
    TotalsKept(st, st', t, st.tasks[t].pc.h);
    KeepLockFree(st, st', t);
  }

  lemma SubBooks(st: State, t: nat)
    requires Enabled(st, Sub(t)) && st.handles[st.tasks[t].pc.h].flags.refs >= 1
    requires st.handles[st.tasks[t].pc.h].flags.refs == 1 ==> st.handles[st.tasks[t].pc.h].charged
    ensures Books(st, DoSub(st, t), t)
  {
  }

  lemma SubFrame(st: State, t: nat)
    requires Enabled(st, Sub(t))
    ensures LockFreeFrame(st, DoSub(st, t), t)
  {
  }

  lemma KeepSub(st: State, t: nat)
    requires Inv(st) && Enabled(st, Sub(t))
    ensures Inv(DoSub(st, t))
  {
    var st' := DoSub(st, t);
    var h := st.tasks[t].pc.h;
    assert TaskOk(st, t);
    HolderSees(st, t, h);
    if st.handles[h].flags.refs == 1 {
      LastIsCharged(st, t, h);
    }
    SubBooks(st, t);
    SubFrame(st, t);
    TotalsKept(st, st', t, h);
    KeepLockFree(st, st', t);
  }

  lemma SubPinBooks(st: State, t: nat)
    requires Enabled(st, SubPin(t)) && PcOk(st, st.tasks[t].pc)
    ensures Books(st, DoSubPin(st, t), t) && LockFreeFrame(st, DoSubPin(st, t), t)
  {
  }

  lemma KeepSubPin(st: State, t: nat)
    requires Inv(st) && Enabled(st, SubPin(t))
    ensures Inv(DoSubPin(st, t))
  {
    assert TaskOk(st, t);
    SubPinBooks(st, t);
    TotalsKeptStill(st, DoSubPin(st, t), t);
    KeepLockFree(st, DoSubPin(st, t), t);
  }

  // ---------------------------------------------------------------- steps under the mutex

  /** Steps of the mutex holder that begin or end no life. */
  lemma KeepLocked(st: State, st': State, t: nat)
    requires Inv(st) && SameLives(st, st', t) && Books(st, st', t) && Totals(st') && Table(st')
    requires st'.recycle <= st.recycle && PcOk(st', st'.tasks[t].pc)
    requires st.lock == None || st.lock == Some(t)
    requires st'.lock == if InMutex(st'.tasks[t].pc) then Some(t) else None
    ensures Inv(st')
  {
    HandlesKept(st, st', t);
    LivesKept(st, st', t);
    assert TaskOk(st, t);
    TasksKept(st, st', t);
  }

  lemma HolderOfLock(st: State, t: nat)
    requires Tasks(st) && t < |st.tasks| && InMutex(st.tasks[t].pc)
    ensures st.lock == Some(t) && LockPc(st) == st.tasks[t].pc && PcOk(st, st.tasks[t].pc)
  {
    assert TaskOk(st, t);
  }

  /** The hash map survives a step that changes neither it nor any handle's key or in-cache bit. */
  lemma TableSame(st: State, st': State)
    requires Table(st) && st'.table == st.table && |st'.handles| == |st.handles|
    requires forall h :: 0 <= h < |st.handles| ==>
      st'.handles[h].key == st.handles[h].key && st'.handles[h].flags.inCache == st.handles[h].flags.inCache
    requires LockPc(st).Evicting? ==> LockPc(st').Evicting? && LockPc(st').h == LockPc(st).h
    requires forall h :: 0 <= h < |st.handles| && Unlisted(LockPc(st), h) ==> Unlisted(LockPc(st'), h)
    ensures Table(st')
  {
    forall h | 0 <= h < |st'.handles| && st'.handles[h].flags.inCache
      ensures Listed(st', h) || Unlisted(LockPc(st'), h)
    {
      assert Listed(st, h) || Unlisted(LockPc(st), h);
    }
  }

  lemma LockRecycleBooks(st: State, t: nat)
    requires Enabled(st, LockRecycle(t)) && PcOk(st, st.tasks[t].pc)
    ensures Books(st, DoLockRecycle(st, t), t) && SameLives(st, DoLockRecycle(st, t), t)
    ensures PcOk(DoLockRecycle(st, t), DoLockRecycle(st, t).tasks[t].pc)
  {
  }

  lemma KeepLockRecycle(st: State, t: nat)
    requires Inv(st) && Enabled(st, LockRecycle(t))
    ensures Inv(DoLockRecycle(st, t))
  {
    assert TaskOk(st, t);
    LockRecycleBooks(st, t);
    TotalsKeptStill(st, DoLockRecycle(st, t), t);
    TableSame(st, DoLockRecycle(st, t));
    KeepLocked(st, DoLockRecycle(st, t), t);
  }

  /** What the rest of a mutex section holds does not depend on the handle it is busy with. */
  lemma NextWeights(next: Next, x: nat, c: nat, h: nat)
    ensures PcRefs(NextPc(next), h) == PcRefs(Unsetting(x, next), h)
            == PcRefs(Recycling(x, next), h) == PcRefs(Discharging(c, next), h)
    ensures PcAddsPin(NextPc(next), h) == PcAddsPin(Unsetting(x, next), h)
            == PcAddsPin(Recycling(x, next), h) == PcAddsPin(Discharging(c, next), h)
    ensures PcOwns(NextPc(next), h) == PcFills(NextPc(next), h) == 0
    ensures PcSubsPin(NextPc(next)) == 0
    ensures PcPending(NextPc(next)) == PcPending(Unsetting(x, next))
            == PcPending(Recycling(x, next)) == PcPending(Discharging(c, next)) - c
  {
  }

  lemma NextOkPc(st: State, next: Next)
    requires NextOk(st, next)
    ensures PcOk(st, NextPc(next)) && (InMutex(NextPc(next)) <==> !next.Done?)
  {
  }

  lemma DischargeBooks(st: State, t: nat)
    requires Enabled(st, Discharge(t))
    ensures Books(st, DoDischarge(st, t), t)
  {
    var st' := DoDischarge(st, t);
    var pc := st.tasks[t].pc;
    forall h | 0 <= h < |st.handles|
      ensures Book(st.handles[h], st'.handles[h], multiset(st.recycle)[h], multiset(st'.recycle)[h], h, pc, st'.tasks[t].pc)
    {
      NextWeights(pc.next, 0, pc.c, h);
    }
  }

  lemma DischargeTotals(st: State, t: nat)
    requires Enabled(st, Discharge(t)) && Totals(st)
    ensures Totals(DoDischarge(st, t))
  {
    NextWeights(st.tasks[t].pc.next, 0, st.tasks[t].pc.c, 0);
    TotalsKeptStill(st, DoDischarge(st, t), t);
  }

  lemma DischargeTable(st: State, t: nat)
    requires Enabled(st, Discharge(t)) && Table(st) && st.lock == Some(t)
    ensures Table(DoDischarge(st, t))
  {
    TableSame(st, DoDischarge(st, t));
  }

  lemma KeepDischarge(st: State, t: nat)
    requires Inv(st) && Enabled(st, Discharge(t))
    ensures Inv(DoDischarge(st, t))
  {
    HolderOfLock(st, t);
    NextOkPc(DoDischarge(st, t), st.tasks[t].pc.next);
    DischargeBooks(st, t);
    DischargeTotals(st, t);
    DischargeTable(st, t);
    KeepLocked(st, DoDischarge(st, t), t);
  }

  lemma UnsetBooks(st: State, t: nat)
    requires Enabled(st, Unset(t)) && st.handles[st.tasks[t].pc.h].flags.refs >= 0
    ensures Books(st, DoUnset(st, t), t)
  {
    var st' := DoUnset(st, t);
    var pc := st.tasks[t].pc;
    forall h | 0 <= h < |st.handles|
      ensures Book(st.handles[h], st'.handles[h], multiset(st.recycle)[h], multiset(st'.recycle)[h], h, pc, st'.tasks[t].pc)
    {
      NextWeights(pc.next, pc.h, 0, h);
    }
  }

  lemma UnsetTotals(st: State, t: nat)
    requires Enabled(st, Unset(t)) && Totals(st)
    ensures Totals(DoUnset(st, t))
  {
    NextWeights(st.tasks[t].pc.next, st.tasks[t].pc.h, 0, 0);
    TotalsKept(st, DoUnset(st, t), t, st.tasks[t].pc.h);
  }

  lemma UnsetTable(st: State, t: nat)
    requires Enabled(st, Unset(t)) && Table(st) && st.lock == Some(t) && NotListed(st, st.tasks[t].pc.h)
    ensures Table(DoUnset(st, t))
  {
    var st' := DoUnset(st, t);
    forall h | 0 <= h < |st'.handles| && st'.handles[h].flags.inCache
      ensures Listed(st', h) || Unlisted(LockPc(st'), h)
    {
      assert Listed(st, h) || Unlisted(LockPc(st), h);
    }
  }

  lemma UnsetPc(st: State, t: nat)
    requires Enabled(st, Unset(t)) && PcOk(st, st.tasks[t].pc)
    ensures SameLives(st, DoUnset(st, t), t)
    ensures PcOk(DoUnset(st, t), DoUnset(st, t).tasks[t].pc)
    ensures st.lock == Some(t) ==>
              DoUnset(st, t).lock == if InMutex(DoUnset(st, t).tasks[t].pc) then Some(t) else None
  {
    var st' := DoUnset(st, t);
    assert NextOk(st', st.tasks[t].pc.next);
    NextOkPc(st', st.tasks[t].pc.next);
  }

  lemma KeepUnset(st: State, t: nat)
    requires Inv(st) && Enabled(st, Unset(t))
    ensures Inv(DoUnset(st, t))
  {
    HolderOfLock(st, t);
    RefsNonNegative(st, st.tasks[t].pc.h);
    UnsetBooks(st, t);
    UnsetTotals(st, t);
    UnsetTable(st, t);
    UnsetPc(st, t);
    KeepLocked(st, DoUnset(st, t), t);
  }

  lemma LockInsertBooks(st: State, t: nat, e: Entry)
    requires Enabled(st, LockInsert(t, e)) && PcOk(st, st.tasks[t].pc)
    ensures Books(st, DoLockInsert(st, t, e), t) && SameLives(st, DoLockInsert(st, t, e), t)
    ensures PcOk(DoLockInsert(st, t, e), DoLockInsert(st, t, e).tasks[t].pc)
  {
  }

  lemma KeepLockInsert(st: State, t: nat, e: Entry)
    requires Inv(st) && Enabled(st, LockInsert(t, e))
    ensures Inv(DoLockInsert(st, t, e))
  {
    assert TaskOk(st, t);
    LockInsertBooks(st, t, e);
    TotalsKeptStill(st, DoLockInsert(st, t, e), t);
    TableSame(st, DoLockInsert(st, t, e));
    KeepLocked(st, DoLockInsert(st, t, e), t);
  }

  lemma TryEvictBooks(st: State, t: nat, h: nat)
    requires Enabled(st, TryEvict(t, h))
    ensures Books(st, DoTryEvict(st, t, h), t)
  {
  }

  lemma TryEvictTable(st: State, t: nat, h: nat)
    requires Enabled(st, TryEvict(t, h)) && Table(st) && st.lock == Some(t)
    ensures Table(DoTryEvict(st, t, h)) && PcOk(DoTryEvict(st, t, h), DoTryEvict(st, t, h).tasks[t].pc)
  {
    var st' := DoTryEvict(st, t, h);
    forall x | 0 <= x < |st'.handles| && st'.handles[x].flags.inCache
      ensures Listed(st', x) || Unlisted(LockPc(st'), x)
    {
      assert Listed(st, x) || Unlisted(LockPc(st), x);
    }
  }

  lemma TryEvictTotals(st: State, t: nat, h: nat)
    requires Enabled(st, TryEvict(t, h)) && Totals(st)
    ensures Totals(DoTryEvict(st, t, h)) && SameLives(st, DoTryEvict(st, t, h), t)
  {
    TotalsKept(st, DoTryEvict(st, t, h), t, h);
  }

  lemma KeepTryEvict(st: State, t: nat, h: nat)
    requires Inv(st) && Enabled(st, TryEvict(t, h))
    ensures Inv(DoTryEvict(st, t, h))
  {
    HolderOfLock(st, t);
    TryEvictBooks(st, t, h);
    TryEvictTotals(st, t, h);
    TryEvictTable(st, t, h);
    KeepLocked(st, DoTryEvict(st, t, h), t);
  }

  /** Taking one key out of the hash map unlists exactly the handle it led to. */
  lemma TableWithout(st: State, st': State, k: ClockKey)
    requires Table(st) && k in st.table && st'.table == st.table - {k} && st'.handles == st.handles
    requires !LockPc(st').Evicting? && (LockPc(st).Evicting? ==> LockPc(st).h == st.table[k])
    requires st.handles[st.table[k]].flags.inCache ==> Unlisted(LockPc(st'), st.table[k])
    requires forall h :: 0 <= h < |st.handles| && Unlisted(LockPc(st), h) ==> Unlisted(LockPc(st'), h)
    ensures Table(st') && NotListed(st', st.table[k])
  {
    forall h | 0 <= h < |st'.handles| && st'.handles[h].flags.inCache
      ensures Listed(st', h) || Unlisted(LockPc(st'), h)
    {
      assert Listed(st, h) || Unlisted(LockPc(st), h);
    }
  }

  lemma EraseEvictedBooks(st: State, t: nat)
    requires Enabled(st, EraseEvicted(t))
    ensures Books(st, DoEraseEvicted(st, t), t) && SameLives(st, DoEraseEvicted(st, t), t)
  {
  }

  lemma KeepEraseEvicted(st: State, t: nat)
    requires Inv(st) && Enabled(st, EraseEvicted(t))
    ensures Inv(DoEraseEvicted(st, t))
  {
    var st' := DoEraseEvicted(st, t);
    HolderOfLock(st, t);
    OwnerSees(st, t, st.tasks[t].pc.h);
    EraseEvictedBooks(st, t);
    TotalsKeptStill(st, st', t);
    TableWithout(st, st', st.handles[st.tasks[t].pc.h].key);
    KeepLocked(st, st', t);
  }

  lemma RefuseBooks(st: State, t: nat)
    requires Enabled(st, Refuse(t)) && PcOk(st, st.tasks[t].pc)
    ensures Books(st, DoRefuse(st, t), t) && SameLives(st, DoRefuse(st, t), t)
    ensures PcOk(DoRefuse(st, t), DoRefuse(st, t).tasks[t].pc)
  {
  }

  lemma KeepRefuse(st: State, t: nat)
    requires Inv(st) && Enabled(st, Refuse(t))
    ensures Inv(DoRefuse(st, t))
  {
    assert TaskOk(st, t);
    RefuseBooks(st, t);
    TotalsKeptStill(st, DoRefuse(st, t), t);
    TableSame(st, DoRefuse(st, t));
    KeepLocked(st, DoRefuse(st, t), t);
  }

  // ---------------------------------------------------------------- a new entry

  lemma StoreBooks(st: State, t: nat)
    requires Enabled(st, Store(t)) && !Live(st.handles[st.tasks[t].pc.h])
    requires st.handles[st.tasks[t].pc.h].flags.refs == 0 && !st.handles[st.tasks[t].pc.h].charged
    ensures Books(st, DoStore(st, t), t)
  {
  }

  lemma StoreTable(st: State, t: nat)
    requires Enabled(st, Store(t)) && Table(st) && st.lock == Some(t) && PcOk(st, st.tasks[t].pc)
    requires !st.handles[st.tasks[t].pc.h].flags.inCache
    ensures Table(DoStore(st, t)) && PcOk(DoStore(st, t), DoStore(st, t).tasks[t].pc) && SameLives(st, DoStore(st, t), t)
  {
    var st' := DoStore(st, t);
    forall h | 0 <= h < |st'.handles| && st'.handles[h].flags.inCache
      ensures Listed(st', h) || Unlisted(LockPc(st'), h)
    {
      assert st.handles[h].flags.inCache ==> Listed(st, h) || Unlisted(LockPc(st), h);
    }
  }

  lemma KeepStore(st: State, t: nat)
    requires Inv(st) && Enabled(st, Store(t))
    ensures Inv(DoStore(st, t))
  {
    HolderOfLock(st, t);
    OwnerSees(st, t, st.tasks[t].pc.h);
    StoreBooks(st, t);
    StoreTable(st, t);
    TotalsKept(st, DoStore(st, t), t, st.tasks[t].pc.h);
    KeepLocked(st, DoStore(st, t), t);
  }

  lemma DisplaceBooks(st: State, t: nat)
    requires Enabled(st, Displace(t))
    ensures Books(st, DoDisplace(st, t), t)
  {
  }

  lemma DisplaceTable(st: State, t: nat)
    requires Enabled(st, Displace(t)) && Table(st) && st.lock == Some(t) && PcOk(st, st.tasks[t].pc)
    ensures Table(DoDisplace(st, t)) && PcOk(DoDisplace(st, t), DoDisplace(st, t).tasks[t].pc)
  {
    var k := st.tasks[t].pc.e.key;
    if k in st.table {
      TableWithout(st, DoDisplace(st, t), k);
    } else {
      TableSame(st, DoDisplace(st, t));
    }
  }

  lemma DisplaceTotals(st: State, t: nat)
    requires Enabled(st, Displace(t)) && Totals(st)
    ensures Totals(DoDisplace(st, t)) && SameLives(st, DoDisplace(st, t), t)
  {
    TotalsKeptStill(st, DoDisplace(st, t), t);
  }

  lemma KeepDisplace(st: State, t: nat)
    requires Inv(st) && Enabled(st, Displace(t))
    ensures Inv(DoDisplace(st, t))
  {
    HolderOfLock(st, t);
    DisplaceBooks(st, t);
    DisplaceTable(st, t);
    DisplaceTotals(st, t);
    KeepLocked(st, DoDisplace(st, t), t);
  }

  lemma InsertBooks(st: State, t: nat)
    requires Enabled(st, Insert(t))
    ensures Books(st, DoInsert(st, t), t)
  {
  }

  lemma InsertTable(st: State, t: nat)
    requires Enabled(st, Insert(t)) && Table(st) && st.lock == Some(t) && PcOk(st, st.tasks[t].pc)
    requires st.handles[st.tasks[t].pc.h].flags.inCache
    ensures Table(DoInsert(st, t)) && PcOk(DoInsert(st, t), DoInsert(st, t).tasks[t].pc)
  {
    var st' := DoInsert(st, t);
    forall h | 0 <= h < |st'.handles| && st'.handles[h].flags.inCache
      ensures Listed(st', h) || Unlisted(LockPc(st'), h)
    {
      assert Listed(st, h) || Unlisted(LockPc(st), h);
    }
  }

  lemma KeepInsert(st: State, t: nat)
    requires Inv(st) && Enabled(st, Insert(t))
    ensures Inv(DoInsert(st, t))
  {
    HolderOfLock(st, t);
    InsertBooks(st, t);
    InsertTable(st, t);
    TotalsKeptStill(st, DoInsert(st, t), t);
    KeepLocked(st, DoInsert(st, t), t);
  }

  lemma ChargeNewBooks(st: State, t: nat)
    requires Enabled(st, ChargeNew(t)) && !st.handles[st.tasks[t].pc.h].charged && st.tasks[t].pc.e.hold
    ensures Books(st, DoChargeNew(st, t), t)
  {
  }

  lemma ChargeNewTotals(st: State, t: nat)
    requires Enabled(st, ChargeNew(t)) && Totals(st) && PcOk(st, st.tasks[t].pc)
    requires !st.handles[st.tasks[t].pc.h].charged
    ensures Totals(DoChargeNew(st, t)) && SameLives(st, DoChargeNew(st, t), t)
    ensures PcOk(DoChargeNew(st, t), DoChargeNew(st, t).tasks[t].pc)
  {
    TotalsKept(st, DoChargeNew(st, t), t, st.tasks[t].pc.h);
  }

  lemma KeepChargeNew(st: State, t: nat)
    requires Inv(st) && Enabled(st, ChargeNew(t))
    ensures Inv(DoChargeNew(st, t))
  {
    HolderOfLock(st, t);
    AdderSees(st, t, st.tasks[t].pc.h);
    ChargeNewBooks(st, t);
    ChargeNewTotals(st, t);
    TableSame(st, DoChargeNew(st, t));
    KeepLocked(st, DoChargeNew(st, t), t);
  }

  lemma CountBooks(st: State, t: nat)
    requires Enabled(st, Count(t))
    ensures Books(st, DoCount(st, t), t)
  {
  }

  lemma CountTotals(st: State, t: nat)
    requires Enabled(st, Count(t)) && Totals(st) && PcOk(st, st.tasks[t].pc)
    ensures Totals(DoCount(st, t)) && SameLives(st, DoCount(st, t), t)
    ensures PcOk(DoCount(st, t), DoCount(st, t).tasks[t].pc)
  {
    TotalsKeptStill(st, DoCount(st, t), t);
  }

  lemma CountTable(st: State, t: nat)
    requires Table(st) && Enabled(st, Count(t)) && st.lock == Some(t)
    ensures Table(DoCount(st, t))
  {
    TableSame(st, DoCount(st, t));
  }

  lemma KeepCount(st: State, t: nat)
    requires Inv(st) && Enabled(st, Count(t))
    ensures Inv(DoCount(st, t))
  {
    HolderOfLock(st, t);
    CountBooks(st, t);
    CountTotals(st, t);
    CountTable(st, t);
    KeepLocked(st, DoCount(st, t), t);
  }

  // ---------------------------------------------------------------- erasing

  lemma LockEraseBooks(st: State, t: nat, k: ClockKey)
    requires Enabled(st, LockErase(t, k))
    ensures Books(st, DoLockErase(st, t, k), t)
  {
  }

  lemma LockEraseTable(st: State, t: nat, k: ClockKey)
    requires Enabled(st, LockErase(t, k)) && Table(st) && k in st.table
    ensures Table(DoLockErase(st, t, k)) && PcOk(DoLockErase(st, t, k), DoLockErase(st, t, k).tasks[t].pc)
  {
    TableWithout(st, DoLockErase(st, t, k), k);
  }

  lemma KeepLockErase(st: State, t: nat, k: ClockKey)
    requires Inv(st) && Enabled(st, LockErase(t, k))
    ensures Inv(DoLockErase(st, t, k))
  {
    if k in st.table {
      assert TaskOk(st, t);
      LockEraseBooks(st, t, k);
      LockEraseTable(st, t, k);
      TotalsKeptStill(st, DoLockErase(st, t, k), t);
      KeepLocked(st, DoLockErase(st, t, k), t);
    }
  }

  lemma LockClearBooks(st: State, t: nat)
    requires Enabled(st, LockClear(t))
    ensures Books(st, DoLockClear(st, t), t) && SameLives(st, DoLockClear(st, t), t)
    ensures Table(DoLockClear(st, t))
  {
  }

  lemma KeepLockClear(st: State, t: nat)
    requires Inv(st) && Enabled(st, LockClear(t))
    ensures Inv(DoLockClear(st, t))
  {
    LockClearBooks(st, t);
    TotalsKeptStill(st, DoLockClear(st, t), t);
    KeepLocked(st, DoLockClear(st, t), t);
  }

  lemma ClearNextTable(st: State, t: nat)
    requires Enabled(st, ClearNext(t)) && Table(st) && st.lock == Some(t) && st.table == map[]
    ensures Table(DoClearNext(st, t))
  {
    var st' := DoClearNext(st, t);
    forall h | 0 <= h < |st'.handles| && st'.handles[h].flags.inCache
      ensures Listed(st', h) || Unlisted(LockPc(st'), h)
    {
      assert Listed(st, h) || Unlisted(LockPc(st), h);
    }
  }

  lemma ClearNextBooks(st: State, t: nat)
    requires Enabled(st, ClearNext(t))
    ensures Books(st, DoClearNext(st, t), t)
  {
  }

  lemma ClearNextPc(st: State, t: nat)
    requires Enabled(st, ClearNext(t)) && Totals(st) && st.lock == Some(t) && st.table == map[]
    ensures Totals(DoClearNext(st, t)) && SameLives(st, DoClearNext(st, t), t)
    ensures PcOk(DoClearNext(st, t), DoClearNext(st, t).tasks[t].pc)
    ensures DoClearNext(st, t).lock == if InMutex(DoClearNext(st, t).tasks[t].pc) then Some(t) else None
  {
    TotalsKeptStill(st, DoClearNext(st, t), t);
  }

  lemma KeepClearNext(st: State, t: nat)
    requires Inv(st) && Enabled(st, ClearNext(t))
    ensures Inv(DoClearNext(st, t))
  {
    HolderOfLock(st, t);
    ClearNextBooks(st, t);
    ClearNextTable(st, t);
    ClearNextPc(st, t);
    KeepLocked(st, DoClearNext(st, t), t);
  }

  // ---------------------------------------------------------------- steps that begin or end a life

  lemma PushBooks(st: State, t: nat)
    requires Enabled(st, Push(t)) && !Live(st.handles[st.tasks[t].pc.h]) && !st.handles[st.tasks[t].pc.h].spare
    ensures Books(st, DoPush(st, t), t)
  {
    var st' := DoPush(st, t);
    var pc := st.tasks[t].pc;
    forall h | 0 <= h < |st.handles|
      ensures Book(st.handles[h], st'.handles[h], multiset(st.recycle)[h], multiset(st'.recycle)[h], h, pc, st'.tasks[t].pc)
    {
      NextWeights(pc.next, pc.h, st.handles[pc.h].charge, h);
    }
  }

  lemma PushTotals(st: State, t: nat)
    requires Enabled(st, Push(t)) && Totals(st) && !st.handles[st.tasks[t].pc.h].spare
    ensures Totals(DoPush(st, t))
  {
    var pc := st.tasks[t].pc;
    NextWeights(pc.next, pc.h, st.handles[pc.h].charge, 0);
    TotalsKept(st, DoPush(st, t), t, pc.h);
  }

  lemma PushLives(st: State, t: nat)
    requires Enabled(st, Push(t)) && Lives(st) && !st.handles[st.tasks[t].pc.h].spare
    ensures Lives(DoPush(st, t))
    ensures forall i :: 0 <= i < |DoPush(st, t).tasks[t].garbage| && i == |st.tasks[t].garbage| ==>
              GarbageOk(st, DoPush(st, t).tasks[t].garbage[i])
  {
    var st' := DoPush(st, t);
    var h := st.tasks[t].pc.h;
    var id := LifeId(h, st.handles[h].life);
    assert st.handles[h].life > 0 && id in st.born;
    forall x: LifeId ensures LifeOk(st', x) {
      assert LifeOk(st, x);
      SumUpdate(st.tasks, t, st'.tasks[t], GarbageOf(x));
      SumPush(st.tasks[t].garbage, Garbage(id, st.handles[h].key, st.handles[h].value), Awaits(x));
    }
  }

  lemma PushTasks(st: State, t: nat)
    requires Enabled(st, Push(t)) && Tasks(st) && Table(st)
    requires forall i :: 0 <= i < |DoPush(st, t).tasks[t].garbage| && i == |st.tasks[t].garbage| ==>
               GarbageOk(st, DoPush(st, t).tasks[t].garbage[i])
    ensures Tasks(DoPush(st, t)) && Table(DoPush(st, t))
  {
    HolderOfLock(st, t);
    assert TaskOk(st, t);
    TableSame(st, DoPush(st, t));
    TasksKept(st, DoPush(st, t), t);
  }

  lemma KeepPush(st: State, t: nat)
    requires Inv(st) && Enabled(st, Push(t))
    ensures Inv(DoPush(st, t))
  {
    OwnerSees(st, t, st.tasks[t].pc.h);
    PushBooks(st, t);
    HandlesKept(st, DoPush(st, t), t);
    PushTotals(st, t);
    PushLives(st, t);
    PushTasks(st, t);
  }

  lemma DeleteLives(st: State, t: nat)
    requires Enabled(st, Delete(t)) && Lives(st)
    ensures Lives(DoDelete(st, t))
  {
    var st' := DoDelete(st, t);
    forall x: LifeId ensures LifeOk(st', x) {
      assert LifeOk(st, x);
      SumUpdate(st.tasks, t, st'.tasks[t], GarbageOf(x));
    }
  }

  lemma KeepDelete(st: State, t: nat)
    requires Inv(st) && Enabled(st, Delete(t))
    ensures Inv(DoDelete(st, t))
  {
    var st' := DoDelete(st, t);
    assert TaskOk(st, t);
    HandlesKept(st, st', t);
    TotalsKeptStill(st, st', t);
    DeleteLives(st, t);
    TableSame(st, st');
    TasksKept(st, st', t);
  }

  // ---------------------------------------------------------------- taking and filling a handle

  lemma PopBooks(st: State, t: nat)
    requires Enabled(st, Take(t)) && st.recycle != []
    ensures Books(st, DoTake(st, t), t)
  {
    var n := |st.recycle| - 1;
    assert st.recycle == st.recycle[..n] + [st.recycle[n]];
    assert multiset(st.recycle) == multiset(st.recycle[..n]) + multiset{st.recycle[n]};
  }

  lemma PopFrame(st: State, t: nat)
    requires Tasks(st) && Enabled(st, Take(t)) && st.recycle != []
    ensures SameLives(st, DoTake(st, t), t) && PcOk(DoTake(st, t), DoTake(st, t).tasks[t].pc)
    ensures DoTake(st, t).recycle <= st.recycle && DoTake(st, t).lock == st.lock && InMutex(DoTake(st, t).tasks[t].pc)
  {
  }

  lemma PopTable(st: State, t: nat)
    requires Table(st) && Enabled(st, Take(t)) && st.recycle != [] && st.lock == Some(t)
    ensures Table(DoTake(st, t))
  {
    TableSame(st, DoTake(st, t));
  }

  lemma KeepPop(st: State, t: nat)
    requires Inv(st) && Enabled(st, Take(t)) && st.recycle != []
    ensures Inv(DoTake(st, t))
  {
    HolderOfLock(st, t);
    PopBooks(st, t);
    PopFrame(st, t);
    TotalsKeptStill(st, DoTake(st, t), t);
    PopTable(st, t);
    KeepLocked(st, DoTake(st, t), t);
  }

  /** No task deals with a handle that does not exist yet. */
  lemma Unborn(st: State, n: nat)
    requires Tasks(st) && n == |st.handles|
    ensures Sum(st.tasks, Refs(n)) == 0 && Sum(st.tasks, Owns(n)) == 0
    ensures Sum(st.tasks, AddsPin(n)) == 0 && Sum(st.tasks, Fills(n)) == 0
  {
    forall i | 0 <= i < |st.tasks|
      ensures Refs(n)(st.tasks[i]) == 0 && Owns(n)(st.tasks[i]) == 0
      ensures AddsPin(n)(st.tasks[i]) == 0 && Fills(n)(st.tasks[i]) == 0
    {
      assert TaskOk(st, i);
    }
    SumZero(st.tasks, Refs(n));
    SumZero(st.tasks, Owns(n));
    SumZero(st.tasks, AddsPin(n));
    SumZero(st.tasks, Fills(n));
  }

  lemma NewHandleOk(st: State, t: nat)
    requires Tasks(st) && Enabled(st, Take(t)) && st.recycle == []
    ensures HandleOk(DoTake(st, t), |st.handles|)
  {
    var n := |st.handles|;
    var k := DoTake(st, t).tasks[t];
    Unborn(st, n);
    SumUpdate(st.tasks, t, k, Refs(n));
    SumUpdate(st.tasks, t, k, Owns(n));
    SumUpdate(st.tasks, t, k, AddsPin(n));
    SumUpdate(st.tasks, t, k, Fills(n));
  }

  lemma AppendHandles(st: State, t: nat)
    requires Tasks(st) && Handles(st) && Enabled(st, Take(t)) && st.recycle == []
    ensures Handles(DoTake(st, t))
  {
    NewHandleOk(st, t);
    forall h | 0 <= h < |st.handles| ensures HandleOk(DoTake(st, t), h) {
      assert HandleOk(st, h);
      HandleKept(st, DoTake(st, t), t, h);
    }
  }

  lemma AppendTotals(st: State, t: nat)
    requires Totals(st) && Enabled(st, Take(t)) && st.recycle == []
    ensures Totals(DoTake(st, t))
  {
    var st' := DoTake(st, t);
    SumPush(st.handles, EmptyHandle, ChargedPin());
    SumPush(st.handles, EmptyHandle, Stock());
    SumUpdate(st.tasks, t, st'.tasks[t], SubsPin());
    SumUpdate(st.tasks, t, st'.tasks[t], Pending());
  }

  lemma AppendLives(st: State, t: nat)
    requires Lives(st) && Enabled(st, Take(t)) && st.recycle == []
    ensures Lives(DoTake(st, t))
  {
    var st' := DoTake(st, t);
    forall id: LifeId ensures LifeOk(st', id) {
      assert LifeOk(st, id);
      SumUpdate(st.tasks, t, st'.tasks[t], GarbageOf(id));
    }
  }

  lemma AppendTable(st: State, t: nat)
    requires Table(st) && Enabled(st, Take(t)) && st.recycle == [] && st.lock == Some(t)
    ensures Table(DoTake(st, t))
  {
    var st' := DoTake(st, t);
    forall h | 0 <= h < |st'.handles| && st'.handles[h].flags.inCache
      ensures Listed(st', h) || Unlisted(LockPc(st'), h)
    {
      assert Listed(st, h) || Unlisted(LockPc(st), h);
    }
  }

  lemma KeepAppend(st: State, t: nat)
    requires Inv(st) && Enabled(st, Take(t)) && st.recycle == []
    ensures Inv(DoTake(st, t))
  {
    HolderOfLock(st, t);
    AppendHandles(st, t);
    AppendTotals(st, t);
    AppendLives(st, t);
    AppendTable(st, t);
    assert TaskOk(st, t);
    TasksKept(st, DoTake(st, t), t);
  }

  lemma FillBooks(st: State, t: nat)
    requires Enabled(st, Fill(t))
    requires !Live(st.handles[st.tasks[t].pc.h]) && st.handles[st.tasks[t].pc.h].spare
    ensures Books(st, DoFill(st, t), t)
  {
  }

  lemma FillTotals(st: State, t: nat)
    requires Enabled(st, Fill(t)) && Totals(st)
    requires st.handles[st.tasks[t].pc.h].spare && !st.handles[st.tasks[t].pc.h].charged
    ensures Totals(DoFill(st, t))
  {
    TotalsKept(st, DoFill(st, t), t, st.tasks[t].pc.h);
  }

  lemma FillLives(st: State, t: nat)
    requires Enabled(st, Fill(t)) && Lives(st) && st.handles[st.tasks[t].pc.h].spare
    ensures Lives(DoFill(st, t))
    ensures forall id :: id in st.born ==> id in DoFill(st, t).born && DoFill(st, t).born[id] == st.born[id]
  {
    var st' := DoFill(st, t);
    var h := st.tasks[t].pc.h;
    assert LifeOk(st, LifeId(h, st.handles[h].life + 1));
    assert LifeId(h, st.handles[h].life + 1) !in st.born;
    forall id: LifeId ensures LifeOk(st', id) {
      assert LifeOk(st, id);
      SumUpdate(st.tasks, t, st'.tasks[t], GarbageOf(id));
    }
  }

  lemma FillTable(st: State, t: nat)
    requires Enabled(st, Fill(t)) && Table(st) && st.lock == Some(t) && !st.handles[st.tasks[t].pc.h].flags.inCache
    ensures Table(DoFill(st, t))
  {
    var st' := DoFill(st, t);
    forall h | 0 <= h < |st'.handles| && st'.handles[h].flags.inCache
      ensures Listed(st', h) || Unlisted(LockPc(st'), h)
    {
      assert Listed(st, h) || Unlisted(LockPc(st), h);
    }
  }

  lemma FillTasks(st: State, t: nat)
    requires Enabled(st, Fill(t)) && Tasks(st) && st.lock == Some(t)
    requires Sum(st.tasks, Refs(st.tasks[t].pc.h)) == 0
    requires forall id :: id in st.born ==> id in DoFill(st, t).born && DoFill(st, t).born[id] == st.born[id]
    ensures Tasks(DoFill(st, t))
  {
    var st' := DoFill(st, t);
    var h := st.tasks[t].pc.h;
    SumZeroTerms(st.tasks, Refs(h));
    forall u | 0 <= u < |st'.tasks| ensures TaskOk(st', u) {
      assert TaskOk(st, u);
      assert Refs(h)(st.tasks[u]) == 0;
    }
  }

  lemma KeepFill(st: State, t: nat)
    requires Inv(st) && Enabled(st, Fill(t))
    ensures Inv(DoFill(st, t))
  {
    HolderOfLock(st, t);
    FillerSees(st, t, st.tasks[t].pc.h);
    FillBooks(st, t);
    HandlesKept(st, DoFill(st, t), t);
    FillTotals(st, t);
    FillLives(st, t);
    FillTable(st, t);
    FillTasks(st, t);
  }

  // ---------------------------------------------------------------- every step

  lemma KeepLooking(st: State, a: Action)
    requires Inv(st) && Enabled(st, a) && (a.Find? || a.Load? || a.Cas? || a.AddPin? || a.Compare?)
    ensures Inv(Step(st, a))
  {
    match a
    case Find(t, k) => KeepFind(st, t, k);
    case Load(t) => KeepLoad(st, t);
    case Cas(t) => KeepCas(st, t);
    case AddPin(t) => KeepAddPin(st, t);
    case Compare(t) => KeepCompare(st, t);
  }

  lemma KeepReleasing(st: State, a: Action)
    requires Inv(st) && Enabled(st, a) && (a.Release? || a.Mark? || a.Sub? || a.SubPin? || a.Delete?)
    ensures Inv(Step(st, a))
  {
    match a
    case Release(t) => KeepRelease(st, t);
    case Mark(t) => KeepMark(st, t);
    case Sub(t) => KeepSub(st, t);
    case SubPin(t) => KeepSubPin(st, t);
    case Delete(t) => KeepDelete(st, t);
  }

  lemma KeepPreparing(st: State, a: Action)
    requires Inv(st) && Enabled(st, a) && (a.LockInsert? || a.Take? || a.Fill? || a.Store?)
    ensures Inv(Step(st, a))
  {
    if a.LockInsert? {
      KeepLockInsert(st, a.t, a.e);
    } else if a.Take? {
      if st.recycle == [] {
        KeepAppend(st, a.t);
      } else {
        KeepPop(st, a.t);
      }
    } else if a.Fill? {
      KeepFill(st, a.t);
    } else {
      KeepStore(st, a.t);
    }
  }

  lemma KeepPublishing(st: State, a: Action)
    requires Inv(st) && Enabled(st, a) && (a.Displace? || a.Insert? || a.ChargeNew? || a.Count?)
    ensures Inv(Step(st, a))
  {
    if a.Displace? {
      KeepDisplace(st, a.t);
    } else if a.Insert? {
      KeepInsert(st, a.t);
    } else if a.ChargeNew? {
      KeepChargeNew(st, a.t);
    } else {
      KeepCount(st, a.t);
    }
  }

  lemma KeepRecycling(st: State, a: Action)
    requires Inv(st) && Enabled(st, a) && (a.LockRecycle? || a.Push? || a.Discharge? || a.Unset?)
    ensures Inv(Step(st, a))
  {
    match a
    case LockRecycle(t) => KeepLockRecycle(st, t);
    case Push(t) => KeepPush(st, t);
    case Discharge(t) => KeepDischarge(st, t);
    case Unset(t) => KeepUnset(st, t);
  }

  lemma KeepEvicting(st: State, a: Action)
    requires Inv(st) && Enabled(st, a) && (a.TryEvict? || a.EraseEvicted? || a.Refuse?)
    ensures Inv(Step(st, a))
  {
    match a
    case TryEvict(t, h) => KeepTryEvict(st, t, h);
    case EraseEvicted(t) => KeepEraseEvicted(st, t);
    case Refuse(t) => KeepRefuse(st, t);
  }

  lemma KeepErasing(st: State, a: Action)
    requires Inv(st) && Enabled(st, a) && (a.LockErase? || a.LockClear? || a.ClearNext?)
    ensures Inv(Step(st, a))
  {
    match a
    case LockErase(t, k) => KeepLockErase(st, t, k);
    case LockClear(t) => KeepLockClear(st, t);
    case ClearNext(t) => KeepClearNext(st, t);
  }

  lemma KeepStep(st: State, a: Action)
    requires Inv(st) && Enabled(st, a)
    ensures Inv(Step(st, a))
  {
    if a.Find? || a.Load? || a.Cas? || a.AddPin? || a.Compare? {
      KeepLooking(st, a);
    } else if a.Release? || a.Mark? || a.Sub? || a.SubPin? || a.Delete? {
      KeepReleasing(st, a);
    } else if a.LockInsert? || a.Take? || a.Fill? || a.Store? {
      KeepPreparing(st, a);
    } else if a.Displace? || a.Insert? || a.ChargeNew? || a.Count? {
      KeepPublishing(st, a);
    } else if a.LockRecycle? || a.Push? || a.Discharge? || a.Unset? {
      KeepRecycling(st, a);
    } else if a.TryEvict? || a.EraseEvicted? || a.Refuse? {
      KeepEvicting(st, a);
    } else {
      KeepErasing(st, a);
    }
  }
}
