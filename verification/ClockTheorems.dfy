/** What the CLOCK cache shard guarantees in every interleaving. */
module ClockTheorems {
  import opened Options
  import opened Sums
  import opened ClockProtocol
  import opened ClockSafety

  lemma KeepInv(st: State, st': State)
    requires Inv(st) && StepOf(st, st')
    ensures Inv(st')
  {
    var a := ActionOf(st, st');
    KeepStep(st, a);
  }

  lemma KeepInvAt(run: seq<State>, i: nat)
    requires IsRun(run) && i < |run| - 1 && Inv(run[i])
    ensures Inv(run[i + 1])
  {
    assert StepFrom(run, i);
    KeepInv(run[i], run[i + 1]);
  }

  lemma InvAtStart(run: seq<State>)
    requires IsRun(run)
    ensures Inv(run[0])
  {
    InitInv(run[0]);
  }

  lemma {:induction false} EveryStateInv(run: seq<State>, i: nat)
    requires IsRun(run) && i < |run|
    ensures Inv(run[i])
  {
    if i == 0 {
      InvAtStart(run);
    } else {
      EveryStateInv(run, i - 1);
      KeepInvAt(run, i - 1);
    }
  }

  // ---------------------------------------------------------------- recycling

  predicate Held(st: State, h: nat)
  {
    exists t :: 0 <= t < |st.tasks| && PcRefs(st.tasks[t].pc, h) > 0
  }

  /** The handle has been put into the recycle bin since it was filled for this life. */
  predicate Over(st: State, id: LifeId)
  {
    id in st.born && id.handle < |st.handles| && (id.life < st.handles[id.handle].life || st.handles[id.handle].spare)
  }

  /** Each life of a handle is recycled exactly once if it is over and not before, never while it is referenced, and its
      value is deleted at most once, after that. */
  lemma RecycledOncePerLife(run: seq<State>, i: nat, id: LifeId)
    requires IsRun(run) && i < |run|
    ensures run[i].recycled[id] == if Over(run[i], id) then 1 else 0
    ensures run[i].deleted[id] <= run[i].recycled[id]
    ensures id in run[i].born && Held(run[i], id.handle) ==>
              && id.handle < |run[i].handles|
              && (id.life == run[i].handles[id.handle].life ==> run[i].recycled[id] == 0)
  {
    var st := run[i];
    EveryStateInv(run, i);
    assert LifeOk(st, id);
    forall t | 0 <= t < |st.tasks| ensures GarbageOf(id)(st.tasks[t]) >= 0 {
      SumNonNegative(st.tasks[t].garbage, Awaits(id));
    }
    SumNonNegative(st.tasks, GarbageOf(id));
    if id in st.born && Held(st, id.handle) {
      var t :| 0 <= t < |st.tasks| && PcRefs(st.tasks[t].pc, id.handle) > 0;
      HolderSees(st, t, id.handle);
    }
  }

  /** A handle is in the recycle bin at most once, and then it is out of the cache, unreferenced and owned by nobody. */
  lemma BinIsExclusive(run: seq<State>, i: nat, h: nat)
    requires IsRun(run) && i < |run| && h < |run[i].handles| && h in run[i].recycle
    ensures multiset(run[i].recycle)[h] == 1
    ensures !run[i].handles[h].flags.inCache && run[i].handles[h].flags.refs == 0 && !Held(run[i], h)
    ensures Sum(run[i].tasks, Owns(h)) == 0 && Sum(run[i].tasks, Fills(h)) == 0
  {
    var st := run[i];
    EveryStateInv(run, i);
    assert HandleOk(st, h);
    CountsNonNegative(st, h);
    assert multiset(st.recycle)[h] >= 1;
    if t :| 0 <= t < |st.tasks| && PcRefs(st.tasks[t].pc, h) > 0 {
      SumAtLeast(st.tasks, t, Refs(h));
    }
  }

  /** What every step leaves alone: the other tasks, the record of lives except in Fill, and the spare bit of all
      handles except the one being pushed into the bin. */
  predicate Framed(st: State, st': State, a: Action)
  {
    && OnlyTask(st, st', a.t) && |st.handles| <= |st'.handles|
    && (!a.Fill? ==> st'.born == st.born)
    && forall h :: 0 <= h < |st.handles| && st'.handles[h].spare ==>
         st.handles[h].spare || (a.Push? && st.tasks[a.t].pc.Recycling? && st.tasks[a.t].pc.h == h)
  }

  lemma FramedLooking(st: State, a: Action)
    requires Enabled(st, a) && (a.Find? || a.Load? || a.Cas? || a.AddPin? || a.Compare?)
    ensures Framed(st, Step(st, a), a)
  {
  }

  lemma FramedReleasing(st: State, a: Action)
    requires Enabled(st, a) && (a.Release? || a.Mark? || a.Sub? || a.SubPin? || a.Delete?)
    ensures Framed(st, Step(st, a), a)
  {
  }

  lemma FramedPreparing(st: State, a: Action)
    requires Enabled(st, a) && (a.LockInsert? || a.Take? || a.Fill? || a.Store?)
    ensures Framed(st, Step(st, a), a)
  {
  }

  lemma FramedPublishing(st: State, a: Action)
    requires Enabled(st, a) && (a.Displace? || a.Insert? || a.ChargeNew? || a.Count?)
    ensures Framed(st, Step(st, a), a)
  {
  }

  lemma FramedRecycling(st: State, a: Action)
    requires Enabled(st, a) && (a.LockRecycle? || a.Push? || a.Discharge? || a.Unset?)
    ensures Framed(st, Step(st, a), a)
  {
  }

  lemma FramedEvicting(st: State, a: Action)
    requires Enabled(st, a) && (a.TryEvict? || a.EraseEvicted? || a.Refuse?)
    ensures Framed(st, Step(st, a), a)
  {
  }

  lemma FramedErasing(st: State, a: Action)
    requires Enabled(st, a) && (a.LockErase? || a.LockClear? || a.ClearNext?)
    ensures Framed(st, Step(st, a), a)
  {
  }

  lemma FramedStep(st: State, a: Action)
    requires Enabled(st, a)
    ensures Framed(st, Step(st, a), a)
  {
    if a.Find? || a.Load? || a.Cas? || a.AddPin? || a.Compare? {
      FramedLooking(st, a);
    } else if a.Release? || a.Mark? || a.Sub? || a.SubPin? || a.Delete? {
      FramedReleasing(st, a);
    } else if a.LockInsert? || a.Take? || a.Fill? || a.Store? {
      FramedPreparing(st, a);
    } else if a.Displace? || a.Insert? || a.ChargeNew? || a.Count? {
      FramedPublishing(st, a);
    } else if a.LockRecycle? || a.Push? || a.Discharge? || a.Unset? {
      FramedRecycling(st, a);
    } else if a.TryEvict? || a.EraseEvicted? || a.Refuse? {
      FramedEvicting(st, a);
    } else {
      FramedErasing(st, a);
    }
  }

  lemma OwnerAppears(st: State, st': State, t: nat, h: nat)
    requires h < |st.handles| && h < |st'.handles| && HandleOk(st, h) && HandleOk(st', h)
    requires OnlyTask(st, st', t) && !st'.handles[h].spare && Live(st.handles[h]) && !Live(st'.handles[h])
    ensures PcOwns(st'.tasks[t].pc, h) == 1 && Sum(st'.tasks, Owns(h)) == 1
  {
    CountsNonNegative(st, h);
    SumUpdate(st.tasks, t, st'.tasks[t], Owns(h));
    SumAtLeast(st.tasks, t, Owns(h));
  }

  lemma OneOwner(st: State, st': State, t: nat, h: nat)
    requires Handles(st) && Handles(st') && h < |st.handles| && h < |st'.handles|
    requires OnlyTask(st, st', t) && !st'.handles[h].spare && Live(st.handles[h]) && !Live(st'.handles[h])
    ensures PcOwns(st'.tasks[t].pc, h) == 1 && Sum(st'.tasks, Owns(h)) == 1
  {
    assert HandleOk(st, h) && HandleOk(st', h);
    OwnerAppears(st, st', t, h);
  }

  lemma LiveIsNotSpare(st: State, h: nat)
    requires Handles(st) && h < |st.handles| && Live(st.handles[h])
    ensures !st.handles[h].spare
  {
    assert HandleOk(st, h);
    CountsNonNegative(st, h);
  }

  lemma EveryStateHandles(run: seq<State>, i: nat)
    requires IsRun(run) && i < |run|
    ensures Handles(run[i])
  {
    EveryStateInv(run, i);
  }

  lemma DyingIsNotPush(st: State, a: Action, h: nat)
    requires Enabled(st, a) && h < |st.handles| && h < |Step(st, a).handles|
    requires Live(st.handles[h]) && !Live(Step(st, a).handles[h])
    ensures !a.Push?
  {
  }

  lemma DyingIsNotSpare(st: State, a: Action, h: nat)
    requires Handles(st) && Enabled(st, a) && h < |st.handles| && h < |Step(st, a).handles|
    requires Live(st.handles[h]) && !Live(Step(st, a).handles[h])
    ensures OnlyTask(st, Step(st, a), a.t) && !Step(st, a).handles[h].spare
  {
    FramedStep(st, a);
    LiveIsNotSpare(st, h);
    DyingIsNotPush(st, a, h);
  }

  /** The single atomic step that takes a handle out of the cache with no reference left makes its task the handle's
      only owner: that task, and no other, puts it into the recycle bin. */
  lemma OneStepOneOwner(run: seq<State>, i: nat, a: Action, h: nat)
    requires IsRun(run) && i + 1 < |run| && Enabled(run[i], a) && run[i + 1] == Step(run[i], a)
    requires h < |run[i].handles| && h < |run[i + 1].handles|
    requires Live(run[i].handles[h]) && !Live(run[i + 1].handles[h])
    ensures a.t < |run[i + 1].tasks|
    ensures PcOwns(run[i + 1].tasks[a.t].pc, h) == 1 && Sum(run[i + 1].tasks, Owns(h)) == 1
  {
    EveryStateHandles(run, i);
    EveryStateHandles(run, i + 1);
    DyingIsNotSpare(run[i], a, h);
    OneOwner(run[i], run[i + 1], a.t, h);
  }

  /** A handle just evicted is still in the hash map, under its own key: the erase that follows finds it. */
  lemma EvictedIsListed(run: seq<State>, i: nat, t: nat)
    requires IsRun(run) && i < |run| && Enabled(run[i], EraseEvicted(t))
    ensures var h := run[i].tasks[t].pc.h; h < |run[i].handles| && Listed(run[i], h)
    ensures NotListed(Step(run[i], EraseEvicted(t)), run[i].tasks[t].pc.h)
  {
    EveryStateInv(run, i);
    assert TaskOk(run[i], t);
  }

  /** The flags Insert overwrites carry neither the in-cache bit nor a reference, so the blind store wipes nothing. */
  lemma StoreWipesNothing(run: seq<State>, i: nat, t: nat)
    requires IsRun(run) && i < |run| && Enabled(run[i], Store(t))
    ensures var h := run[i].tasks[t].pc.h;
            && run[i].handles[h].flags.refs == 0 && !run[i].handles[h].flags.inCache && !Held(run[i], h)
            && (forall u :: 0 <= u < |run[i].tasks| && u != t ==> PcOwns(run[i].tasks[u].pc, h) == 0)
  {
    var st := run[i];
    var h := st.tasks[t].pc.h;
    EveryStateInv(run, i);
    OwnerSees(st, t, h);
    if u :| 0 <= u < |st.tasks| && PcRefs(st.tasks[u].pc, h) > 0 {
      SumAtLeast(st.tasks, u, Refs(h));
    }
    forall u | 0 <= u < |st.tasks| && u != t ensures PcOwns(st.tasks[u].pc, h) == 0 {
      TwoTerms(st.tasks, t, u, Owns(h));
    }
  }

  lemma TwoTerms(tasks: seq<Task>, t: nat, u: nat, f: Task -> int)
    requires t < |tasks| && u < |tasks| && t != u
    requires forall k :: 0 <= k < |tasks| ==> f(tasks[k]) >= 0
    ensures f(tasks[t]) + f(tasks[u]) <= Sum(tasks, f)
  {
    SumSplit(tasks, t, f);
    var left, right := tasks[..t], tasks[t + 1..];
    assert forall k :: 0 <= k < |right| ==> right[k] == tasks[t + 1 + k];
    SumNonNegative(left, f);
    SumNonNegative(right, f);
    if u < t {
      SumAtLeast(left, u, f);
    } else {
      SumAtLeast(right, u - t - 1, f);
    }
  }

  /** The suspected race: a Lookup that comes too late never references a handle that is in the recycle bin or being
      prepared for a new entry; its compare-exchange loop changes no handle. */
  lemma LateRefFails(run: seq<State>, i: nat, t: nat)
    requires IsRun(run) && i < |run| && Enabled(run[i], Cas(t))
    requires var h := run[i].tasks[t].pc.h;
             || h in run[i].recycle
             || (exists u :: 0 <= u < |run[i].tasks|
                   && (PcFills(run[i].tasks[u].pc, h) == 1 || PcOwns(run[i].tasks[u].pc, h) == 1))
    ensures DoCas(run[i], t).handles == run[i].handles
    ensures DoCas(run[i], t).tasks[t].pc.Idle? || DoCas(run[i], t).tasks[t].pc.Loaded?
  {
    var st := run[i];
    var h := st.tasks[t].pc.h;
    EveryStateInv(run, i);
    if h in st.recycle {
      BinIsExclusive(run, i, h);
    } else {
      var u :| 0 <= u < |st.tasks| && (PcFills(st.tasks[u].pc, h) == 1 || PcOwns(st.tasks[u].pc, h) == 1);
      if PcFills(st.tasks[u].pc, h) == 1 {
        FillerSees(st, u, h);
      } else {
        OwnerSees(st, u, h);
      }
    }
  }

  // ---------------------------------------------------------------- what a successful Lookup returns

  /** A client's handle is pinned and stores the key that was asked for; its life is not over and its value not
      deleted. */
  lemma LookupIsPinned(run: seq<State>, i: nat, t: nat)
    requires IsRun(run) && i < |run| && t < |run[i].tasks| && run[i].tasks[t].pc.Holding?
    ensures var Holding(k, h, life) := run[i].tasks[t].pc;
            && h < |run[i].handles| && run[i].handles[h].key == k && run[i].handles[h].life == life
            && run[i].handles[h].flags.refs >= 1
            && LifeId(h, life) in run[i].born && Stores(run[i].handles[h], run[i].born[LifeId(h, life)])
            && run[i].recycled[LifeId(h, life)] == 0 && run[i].deleted[LifeId(h, life)] == 0
  {
    var st := run[i];
    EveryStateInv(run, i);
    assert TaskOk(st, t);
    var h := st.tasks[t].pc.h;
    HolderSees(st, t, h);
    assert Held(st, h);
    RecycledOncePerLife(run, i, LifeId(h, st.handles[h].life));
  }

  lemma BornGrows(st: State, a: Action)
    requires Inv(st) && Enabled(st, a)
    ensures forall id :: id in st.born ==> id in Step(st, a).born && Step(st, a).born[id] == st.born[id]
  {
    FramedStep(st, a);
    if a.Fill? {
      FillerSees(st, a.t, st.tasks[a.t].pc.h);
      FillLives(st, a.t);
    }
  }

  lemma {:induction false} BornStays(run: seq<State>, i: nat, j: nat, id: LifeId)
    requires IsRun(run) && i <= j < |run| && id in run[i].born
    ensures id in run[j].born && run[j].born[id] == run[i].born[id]
    decreases j - i
  {
    if i < j {
      EveryStateInv(run, i);
      var a := ActionAt(run, i);
      BornGrows(run[i], a);
      BornStays(run, i + 1, j, id);
    }
  }

  /** From a successful Lookup until its release the handle keeps key, hash, value and charge, whatever the other tasks
      do in between, even if the handle had been recycled between the table find and Ref. */
  lemma StableWhileHeld(run: seq<State>, i: nat, j: nat, t: nat)
    requires IsRun(run) && i <= j < |run| && t < |run[i].tasks| && t < |run[j].tasks|
    requires run[i].tasks[t].pc.Holding? && run[j].tasks[t].pc == run[i].tasks[t].pc
    ensures var h := run[i].tasks[t].pc.h;
            && h < |run[i].handles| && h < |run[j].handles|
            && SameContents(run[i].handles[h], run[j].handles[h])
            && run[j].deleted[LifeId(h, run[i].tasks[t].pc.life)] == 0
  {
    LookupIsPinned(run, i, t);
    LookupIsPinned(run, j, t);
    BornStays(run, i, j, LifeId(run[i].tasks[t].pc.h, run[i].tasks[t].pc.life));
  }

  // ---------------------------------------------------------------- accounting

  lemma PendingOfOthers(st: State, t: nat)
    requires Tasks(st) && t < |st.tasks| && st.lock == Some(t)
    ensures Sum(st.tasks, Pending()) == PcPending(st.tasks[t].pc)
  {
    SumSplit(st.tasks, t, Pending());
    forall u | 0 <= u < |st.tasks| && u != t ensures Pending()(st.tasks[u]) == 0 {
      assert TaskOk(st, u);
    }
    var left, right := st.tasks[..t], st.tasks[t + 1..];
    assert forall k :: 0 <= k < |right| ==> right[k] == st.tasks[t + 1 + k];
    SumZero(left, Pending());
    SumZero(right, Pending());
  }

  /** Neither counter ever underflows. */
  lemma NoUnderflow(run: seq<State>, i: nat, t: nat)
    requires IsRun(run) && i < |run| && t < |run[i].tasks|
    ensures run[i].tasks[t].pc.Unpinning? ==> run[i].pinned >= run[i].tasks[t].pc.c
    ensures run[i].tasks[t].pc.Discharging? ==> run[i].usage >= run[i].tasks[t].pc.c
  {
    var st := run[i];
    var pc := st.tasks[t].pc;
    EveryStateInv(run, i);
    SumNonNegative(st.handles, ChargedPin());
    SumNonNegative(st.handles, Stock());
    if pc.Unpinning? {
      SumAtLeast(st.tasks, t, SubsPin());
    } else if pc.Discharging? {
      HolderOfLock(st, t);
      PendingOfOthers(st, t);
      if pc.next.Link? {
        LiveIsNotSpare(st, pc.next.h);
        SumAtLeast(st.handles, pc.next.h, Stock());
      }
    }
  }

  /** No operation is in flight: clients may hold references. */
  predicate Quiet(st: State)
  {
    && st.lock == None
    && forall t :: 0 <= t < |st.tasks| ==> (st.tasks[t].pc.Idle? || st.tasks[t].pc.Holding?) && st.tasks[t].garbage == []
  }

  /** With no operation in flight: the table maps exactly the in-cache handles, by key; usage_ is the charge of the handles
      outside the recycle bin and pinned_usage_ that of the referenced ones; every ended life has been deleted, and every
      handle that is neither in the cache nor referenced is in the recycle bin. */
  lemma QuietAccounting(run: seq<State>, i: nat)
    requires IsRun(run) && i < |run| && Quiet(run[i])
    ensures forall h :: 0 <= h < |run[i].handles| ==> (run[i].handles[h].flags.inCache <==> Listed(run[i], h))
    ensures forall k :: k in run[i].table ==> run[i].table[k] < |run[i].handles| && run[i].handles[run[i].table[k]].key == k
    ensures forall h :: 0 <= h < |run[i].handles| ==> (run[i].handles[h].spare <==> h in run[i].recycle)
    ensures forall h :: 0 <= h < |run[i].handles| ==> (run[i].handles[h].charged <==> run[i].handles[h].flags.refs > 0)
    ensures run[i].usage == Sum(run[i].handles, Stock())
    ensures run[i].pinned == Sum(run[i].handles, ChargedPin())
    ensures forall id: LifeId :: run[i].deleted[id] == run[i].recycled[id]
    ensures forall h :: 0 <= h < |run[i].handles| ==> (h in run[i].recycle <==> !Live(run[i].handles[h]))
  {
    var st := run[i];
    EveryStateInv(run, i);
    SumZero(st.tasks, SubsPin());
    SumZero(st.tasks, Pending());
    forall h | 0 <= h < |st.handles|
      ensures st.handles[h].flags.inCache <==> Listed(st, h)
      ensures st.handles[h].spare <==> h in st.recycle
      ensures h in st.recycle <==> !Live(st.handles[h])
      ensures st.handles[h].charged <==> st.handles[h].flags.refs > 0
    {
      assert HandleOk(st, h);
      SumZero(st.tasks, AddsPin(h));
      SumZero(st.tasks, Fills(h));
      SumZero(st.tasks, Owns(h));
      assert st.handles[h].flags.inCache ==> Listed(st, h) || Unlisted(LockPc(st), h);
    }
    forall id: LifeId ensures st.deleted[id] == st.recycled[id] {
      assert LifeOk(st, id);
      SumZero(st.tasks, GarbageOf(id));
    }
  }

  // ---------------------------------------------------------------- progress

  /** An operation in flight can always take its next step, except that it may have to wait for the mutex. */
  lemma NeverStuck(run: seq<State>, i: nat, t: nat) returns (a: Action)
    requires IsRun(run) && i < |run| && t < |run[i].tasks|
    requires !run[i].tasks[t].pc.Idle? && !run[i].tasks[t].pc.WantRecycle?
    ensures a.t == t && Enabled(run[i], a)
  {
    EveryStateInv(run, i);
    assert TaskOk(run[i], t);
    match run[i].tasks[t].pc
    case Found(_, _) => a := Load(t);
    case Loaded(_, _, _) => a := Cas(t);
    case Pinning(_, _) => a := AddPin(t);
    case Verify(_, _) => a := Compare(t);
    case Holding(_, _, _) => a := Release(t);
    case Marking(_) => a := Mark(t);
    case Dropping(_, _) => a := Sub(t);
    case Unpinning(_, _) => a := SubPin(t);
    case Recycling(_, _) => a := Push(t);
    case Discharging(_, _) => a := Discharge(t);
    case Unsetting(_, _) => a := Unset(t);
    case Sweeping(_) => a := Take(t);
    case Evicting(_, _) => a := EraseEvicted(t);
    case Filling(_, _) => a := Fill(t);
    case Storing(_, _) => a := Store(t);
    case Stored(_, _) => a := Displace(t);
    case Linking(_, _) => a := Insert(t);
    case Charging(_, _) => a := ChargeNew(t);
    case Counting(_, _) => a := Count(t);
    case Clearing(_) => a := ClearNext(t);
  }
}
