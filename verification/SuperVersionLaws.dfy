/** What the operations on SuperVersions achieve for their callers, and that every client can always leave. */
module SuperVersionLaws {
  import opened Options
  import opened Paths
  import opened Sums
  import opened SuperVersionProtocol
  import opened SuperVersionSafety
  import opened SuperVersionTheorems

  // ---------------------------------------------------------------- returning

  /**
   Return puts the SuperVersion back into the slot exactly if the slot is still in use, and otherwise leaves it obsolete. No
   reference is lost or made: what does not go into the slot goes to the caller, who also keeps the extra one of
   GetReferencedSuperVersion, or still has to drop it.
   */
  lemma ReturnPutsBack(run: seq<State>, i: nat, t: nat)
    requires IsRun(run) && i < |run| && Enabled(run[i], Return(t))
    ensures var st, st' := run[i], Next(run[i], Return(t));
            var Reading(s, extra) := st.threads[t].pc;
            var kept := st.threads[t].slot == InUse;
            && st'.threads[t].slot == (if kept then Cached(s) else Obsolete)
            && st'.threads[t].pc == (if extra && !kept then Refused(s) else Ready)
            && |st'.svs| == |st.svs| && st'.svs[s].refs == st.svs[s].refs
            && st'.svs[s].pins == st.svs[s].pins + (if kept == extra then 1 else 0)
  {
    EveryStateInv(run, i);
    assert ThreadOk(run[i], t);
  }

  /** A number once given to a SuperVersion stays. */
  lemma NumberKept(st: State, a: Action, s: nat)
    requires Numbered(st) && (st.current.Some? ==> st.current.value == |st.svs| - 1) && Enabled(st, a)
    requires s < |st.svs| && st.svs[s].number > 0
    ensures s < |Next(st, a).svs| && Next(st, a).svs[s].number == st.svs[s].number
  {
    if a.JobStep? {
      NumberKeptInJob(st, s);
    } else {
      NumberKeptOutside(st, a, s);
    }
  }

  lemma NumberKeptInJob(st: State, s: nat)
    requires Numbered(st) && (st.current.Some? ==> st.current.value == |st.svs| - 1) && JobEnabled(st)
    requires s < |st.svs| && st.svs[s].number > 0
    ensures s < |NextJob(st).svs| && NextJob(st).svs[s].number == st.svs[s].number
  {
  }

  lemma NumberKeptOutside(st: State, a: Action, s: nat)
    requires Enabled(st, a) && !a.JobStep? && s < |st.svs|
    ensures s < |Next(st, a).svs| && Next(st, a).svs[s].number == st.svs[s].number
  {
  }

  lemma {:induction false} NumberStays(run: seq<State>, i: nat, j: nat, s: nat)
    requires IsRun(run) && i <= j < |run| && s < |run[i].svs| && run[i].svs[s].number > 0
    ensures s < |run[j].svs| && run[j].svs[s].number == run[i].svs[s].number
    decreases j
  {
    if i < j {
      NumberStays(run, i, j - 1, s);
      EveryStateInv(run, j - 1);
      var a := ActionAt(run, j - 1);
      NumberKept(run[j - 1], a, s);
    }
  }

  /** Get stays off the mutex exactly if the slot had a SuperVersion with the column family's number. */
  lemma CheckIff(run: seq<State>, i: nat, t: nat, s: nat)
    requires IsRun(run) && i < |run| && Enabled(run[i], Check(t))
    ensures Next(run[i], Check(t)).threads[t].pc == Reading(s, false)
            <==> run[i].threads[t].pc == Swapped(Cached(s)) && run[i].svs[s].number == run[i].number
  {
  }

  /** The slot of the thread does not change from i to j. */
  ghost predicate SlotStays(run: seq<State>, i: nat, j: nat, t: nat)
    requires i <= j < |run|
  {
    t < |run[i].threads|
    && forall k :: i <= k <= j ==> t < |run[k].threads| && run[k].threads[t].slot == run[i].threads[t].slot
  }

  /**
   The round trip through the slot: a SuperVersion returned in step i, with the slot left alone until the next Get swaps it
   out in step j, is read again without the mutex if the column family still has its number when Get compares, in state k.
   */
  lemma RoundTrip(run: seq<State>, i: nat, j: nat, k: nat, t: nat)
    requires IsRun(run) && i < j < k < |run| && Enabled(run[i], Return(t)) && run[i + 1] == Next(run[i], Return(t))
    requires run[i].threads[t].slot == InUse && run[i].svs[run[i].threads[t].pc.sv].number == run[i].number
    requires SlotStays(run, i + 1, j, t) && Enabled(run[j], Swap(t)) && run[j + 1] == Next(run[j], Swap(t))
    requires t < |run[k].threads| && run[k].threads[t].pc == run[j + 1].threads[t].pc && run[k].number == run[i].number
    ensures Enabled(run[k], Check(t))
    ensures var st' := Next(run[k], Check(t));
            st'.threads[t].pc == Reading(run[i].threads[t].pc.sv, false) && st'.svs == run[k].svs && st'.job == run[k].job
  {
    var s := run[i].threads[t].pc.sv;
    ReturnPutsBack(run, i, t);
    assert run[j].threads[t].slot == Cached(s);
    EveryStateInv(run, i);
    assert ThreadOk(run[i], t);
    NumberStays(run, i, k, s);
  }

  // ---------------------------------------------------------------- getting

  ghost predicate StepBy(st: State, a: Action, st': State)
  {
    Enabled(st, a) && st' == Next(st, a)
  }

  /** Swapping a SuperVersion out of the slot while the mutex is free: it is the installed one, and has its number. */
  lemma FastGet(st: State, t: nat)
    requires Inv(st) && Enabled(st, Swap(t)) && st.job == Unlocked && st.threads[t].slot.Cached?
    ensures var st1 := Next(st, Swap(t));
            && Enabled(st1, Check(t)) && st.current == Some(st.threads[t].slot.sv) && st.threads[t].slot.sv < |st.svs|
            && Next(st1, Check(t)) == st.(threads := st.threads[t := Thread(Reading(st.threads[t].slot.sv, false), InUse)])
  {
    assert ThreadOk(st, t);
  }

  /** The thread alone changes. */
  function AtPc(st: State, t: nat, pc: Pc, slot: Slot): State
    requires t < |st.threads|
  {
    st.(threads := st.threads[t := Thread(pc, slot)])
  }

  lemma SwapEmpty(st: State, t: nat)
    requires Enabled(st, Swap(t)) && st.threads[t].slot == Obsolete
    ensures var st1 := Next(st, Swap(t));
            Enabled(st1, Check(t)) && Next(st1, Check(t)) == AtPc(st, t, MustLock, InUse)
  {
  }

  lemma TakeUnderMutex(st: State, t: nat)
    requires t < |st.threads| && st.job == Unlocked && st.current.Some? && st.current.value < |st.svs|
    ensures var st2 := AtPc(st, t, MustLock, InUse);
            && Enabled(st2, LockForGet(t)) && Enabled(Next(st2, LockForGet(t)), JobStep)
            && Next(Next(st2, LockForGet(t)), JobStep)
               == AtPc(AddRefs(st, st.current.value, 1), t, Reading(st.current.value, false), InUse)
  {
  }

  /** With nothing in the slot, the installed one is taken under the mutex. */
  lemma SlowGet(st: State, t: nat)
    requires Enabled(st, Swap(t)) && st.job == Unlocked && st.threads[t].slot == Obsolete
    requires st.current.Some? && st.current.value < |st.svs|
    ensures Leads(st, [Swap(t), Check(t)] + [LockForGet(t), JobStep],
                  AtPc(AddRefs(st, st.current.value, 1), t, Reading(st.current.value, false), InUse), StepBy)
  {
    var mid := AtPc(st, t, MustLock, InUse);
    SwapEmpty(st, t);
    TakeUnderMutex(st, t);
    var end := AtPc(AddRefs(st, st.current.value, 1), t, Reading(st.current.value, false), InUse);
    LeadsTwice(st, Swap(t), Next(st, Swap(t)), Check(t), mid, StepBy);
    LeadsTwice(mid, LockForGet(t), Next(mid, LockForGet(t)), JobStep, end, StepBy);
    LeadsFurther(st, [Swap(t), Check(t)], mid, [LockForGet(t), JobStep], end, StepBy);
  }

  lemma SwapKeepsCurrent(run: seq<State>, i: nat, t: nat)
    requires IsRun(run) && i < |run| && Enabled(run[i], Swap(t))
    ensures Inv(run[i]) && run[i].current.Some? && run[i].current.value < |run[i].svs|
    ensures run[i].threads[t].slot != InUse
  {
    EveryStateInv(run, i);
    assert ThreadOk(run[i], t);
    KeepStep(run[i], Swap(t));
    ReaderKeepsPublished(Next(run[i], Swap(t)), t);
  }

  /** What Get does while nobody interferes: two steps from a filled slot, four from an empty one. */
  function GetSteps(st: State, t: nat): seq<Action>
    requires t < |st.threads|
  {
    [Swap(t), Check(t)] + if st.threads[t].slot == Obsolete then [LockForGet(t), JobStep] else []
  }

  /**
   From every reachable state with the mutex free, Get alone comes to read the installed SuperVersion; it takes a new
   reference exactly if the slot had none to give.
   */
  lemma GetGivesCurrent(run: seq<State>, i: nat, t: nat) returns (st': State)
    requires IsRun(run) && i < |run| && Enabled(run[i], Swap(t)) && run[i].job == Unlocked
    ensures Leads(run[i], GetSteps(run[i], t), st', StepBy)
    ensures run[i].current.Some? && st'.current == run[i].current && st'.job == Unlocked
    ensures |st'.threads| == |run[i].threads| && st'.threads[t] == Thread(Reading(run[i].current.value, false), InUse)
    ensures run[i].current.value < |run[i].svs| == |st'.svs|
    ensures st'.svs[run[i].current.value].refs
            == run[i].svs[run[i].current.value].refs + if run[i].threads[t].slot == Obsolete then 1 else 0
  {
    var st := run[i];
    SwapKeepsCurrent(run, i, t);
    if st.threads[t].slot == Obsolete {
      SlowGet(st, t);
      st' := AtPc(AddRefs(st, st.current.value, 1), t, Reading(st.current.value, false), InUse);
    } else {
      FastGet(st, t);
      st' := Next(Next(st, Swap(t)), Check(t));
      LeadsTwice(st, Swap(t), Next(st, Swap(t)), Check(t), st', StepBy);
      assert [Swap(t), Check(t)] + [] == [Swap(t), Check(t)];
    }
  }

  /** Once a SuperVersion is installed and numbered, nobody gets an older one, on either path. */
  lemma NoStaleGet(run: seq<State>, i: nat, j: nat, a: Action, t: nat, s: nat)
    requires IsRun(run) && i < j < |run| && Enabled(run[i], Install) && run[i + 1] == Next(run[i], Install)
    requires Enabled(run[j], a) && t < |run[j].threads| == |Next(run[j], a).threads|
    requires !run[j].threads[t].pc.Reading? && Next(run[j], a).threads[t].pc == Reading(s, false)
    ensures s >= |run[i].svs| || (run[j].job.Bump? && |run[j].svs| == |run[i].svs| + 1)
  {
    EveryStateInv(run, j);
    SuperVersionsGrow(run, i + 1, j);
    BeginsReading(run[j], a, t, s);
    if a.Check? {
      FastPathIsCurrent(run, j, t);
    }
  }

  // ---------------------------------------------------------------- GetReferencedSuperVersion

  /** The steps after Get: one more reference, the return, and an Unref if that was refused. */
  function ReferencedSteps(st: State, t: nat): seq<Action>
    requires t < |st.threads|
  {
    [ExtraRef(t), Return(t)] + if st.threads[t].slot == InUse then [] else [DropExtra(t)]
  }

  /** What the caller and the slot have in the end. */
  predicate Shared(st: State, st': State, t: nat, s: nat)
  {
    && t < |st.threads| == |st'.threads| && s < |st.svs| == |st'.svs|
    && st'.threads[t] == Thread(Ready, if st.threads[t].slot == InUse then Cached(s) else Obsolete)
    && st'.svs[s].pins == st.svs[s].pins + 1
    && st'.svs[s].refs == st.svs[s].refs + if st.threads[t].slot == InUse then 1 else 0
  }

  lemma ReferencedKept(st: State, t: nat)
    requires Enabled(st, ExtraRef(t)) && st.threads[t].slot == InUse
    ensures var st1 := Next(st, ExtraRef(t));
            Enabled(st1, Return(t)) && Shared(st, Next(st1, Return(t)), t, st.threads[t].pc.sv)
  {
  }

  lemma ReferencedRefused(st: State, t: nat)
    requires Enabled(st, ExtraRef(t)) && st.threads[t].slot == Obsolete
    ensures var st1 := Next(st, ExtraRef(t));
            && Enabled(st1, Return(t)) && Enabled(Next(st1, Return(t)), DropExtra(t))
            && Shared(st, Next(Next(st1, Return(t)), DropExtra(t)), t, st.threads[t].pc.sv)
  {
  }

  /** Either way the caller ends up with exactly one reference of its own, and the slot with one exactly if it took it. */
  lemma ReferencedGivesOne(run: seq<State>, i: nat, t: nat) returns (st': State)
    requires IsRun(run) && i < |run| && Enabled(run[i], ExtraRef(t))
    ensures Leads(run[i], ReferencedSteps(run[i], t), st', StepBy)
    ensures Shared(run[i], st', t, run[i].threads[t].pc.sv)
  {
    EveryStateInv(run, i);
    assert ThreadOk(run[i], t);
    st' := ReferencedFrom(run[i], t);
  }

  lemma ReferencedFrom(st: State, t: nat) returns (st': State)
    requires Enabled(st, ExtraRef(t)) && (st.threads[t].slot == InUse || st.threads[t].slot == Obsolete)
    ensures Leads(st, ReferencedSteps(st, t), st', StepBy) && Shared(st, st', t, st.threads[t].pc.sv)
  {
    var st1 := Next(st, ExtraRef(t));
    if st.threads[t].slot == InUse {
      ReferencedKept(st, t);
      st' := Next(st1, Return(t));
      LeadsTwice(st, ExtraRef(t), st1, Return(t), st', StepBy);
      assert [ExtraRef(t), Return(t)] + [] == [ExtraRef(t), Return(t)];
    } else {
      ReferencedRefused(st, t);
      var st2 := Next(st1, Return(t));
      st' := Next(st2, DropExtra(t));
      LeadsTwice(st, ExtraRef(t), st1, Return(t), st2, StepBy);
      LeadsOn(st, [ExtraRef(t), Return(t)], st2, DropExtra(t), st', StepBy);
    }
  }

  /** A thread that ends gives back what its slot holds, which is never the last reference. */
  lemma ExitGivesBack(run: seq<State>, i: nat, t: nat, s: nat)
    requires IsRun(run) && i < |run| && Enabled(run[i], Exit(t)) && s < |run[i].svs|
    ensures var st' := Next(run[i], Exit(t));
            && st'.threads[t].slot == Obsolete && |st'.svs| == |run[i].svs|
            && st'.svs[s].refs == run[i].svs[s].refs - (if run[i].threads[t].slot == Cached(s) then 1 else 0)
            && (run[i].threads[t].slot == Cached(s) ==> st'.svs[s].refs > 0)
  {
    EveryAssertionHolds(run, i, Exit(t));
  }

  // ---------------------------------------------------------------- every client can leave

  /** How far a thread is from holding nothing. */
  function Stage(): Thread -> int
  {
    (th: Thread) =>
      match th.pc
      case Idle => 0
      case Ready => 2
      case Refused(_) => 4
      case Reading(_, _) => 5
      case InMutex => 6
      case MustLock => 7
      case MustClean(_) => 7
      case Stale(_) => 8
      case Swapped(_) => 9
  }

  function Pins(): SuperVersion -> int { (sv: SuperVersion) => sv.pins }

  /** How far the clients together are from holding nothing. */
  ghost function ClientWork(st: State): int
  {
    Sum(st.threads, Stage()) + Sum(st.svs, Pins()) + st.handles
  }

  lemma WorkBounds(st: State)
    requires Shape(st)
    ensures ClientWork(st) >= 0 && Work(st) >= 0
  {
    SumNonNegative(st.threads, Stage());
    SumNonNegative(st.svs, Pins());
    SumNonNegative(st.svs, Unclaimed());
  }

  /** A sub-step of the mutex section other than the last of a Get changes no client. */
  lemma JobSparesClients(st: State)
    requires JobEnabled(st) && !st.job.TakeCurrent?
    ensures var st' := NextJob(st);
            && |st'.threads| == |st.threads| && |st'.svs| == |st.svs| && st'.handles == st.handles
            && (forall t :: 0 <= t < |st.threads| ==> st'.threads[t].pc == st.threads[t].pc)
            && (forall s :: 0 <= s < |st.svs| ==>
                  st'.svs[s].pins == st.svs[s].pins && st'.svs[s].unclaimed == st.svs[s].unclaimed)
  {
  }

  lemma JobNearsEnd(st: State)
    requires Shape(st) && JobEnabled(st) && !st.job.TakeCurrent?
    ensures ClientWork(NextJob(st)) == ClientWork(st) && Work(NextJob(st)) < Work(st)
  {
    var st' := NextJob(st);
    JobSparesClients(st);
    SumAgrees(st.threads, st'.threads, Stage(), Stage());
    SumAgrees(st.svs, st'.svs, Pins(), Pins());
    SumAgrees(st.svs, st'.svs, Unclaimed(), Unclaimed());
    JobWorkShrinks(st);
  }

  lemma TakeCurrentNears(st: State)
    requires Shape(st) && JobEnabled(st) && st.job.TakeCurrent?
    ensures ClientWork(NextJob(st)) < ClientWork(st)
  {
    var t, c, st' := st.job.t, st.current.value, NextJob(st);
    assert ThreadOk(st, t);
    SumUpdate(st.threads, t, st'.threads[t], Stage());
    SumUpdate(st.svs, c, st'.svs[c], Pins());
  }

  /** What a thread that wants to leave does next. */
  function LeavingStep(st: State, t: nat): Action
    requires t < |st.threads|
  {
    match st.threads[t].pc
    case Ready => Yield(t)
    case Swapped(_) => Check(t)
    case Stale(_) => DropStale(t)
    case MustClean(_) => LockForGet(t)
    case MustLock => LockForGet(t)
    case Reading(_, _) => Return(t)
    case _ => DropExtra(t)
  }

  lemma LeavingEnabled(st: State, t: nat)
    requires Shape(st) && st.job == Unlocked && t < |st.threads| && !st.threads[t].pc.Idle?
    ensures Enabled(st, LeavingStep(st, t))
  {
    assert ThreadOk(st, t);
  }

  lemma PinsChange(svs: seq<SuperVersion>, svs': seq<SuperVersion>, s: nat)
    requires s < |svs| == |svs'| && svs' == svs[s := svs'[s]]
    ensures Sum(svs', Pins()) == Sum(svs, Pins()) + svs'[s].pins - svs[s].pins
  {
    SumUpdate(svs, s, svs'[s], Pins());
  }

  lemma LeavingMoves(st: State, t: nat)
    requires t < |st.threads| && !st.threads[t].pc.Idle? && Enabled(st, LeavingStep(st, t))
    requires !st.threads[t].pc.Reading? && !st.threads[t].pc.Refused? && !st.threads[t].pc.Stale?
    ensures ClientWork(Next(st, LeavingStep(st, t))) < ClientWork(st)
  {
    var st' := Next(st, LeavingStep(st, t));
    SumUpdate(st.threads, t, st'.threads[t], Stage());
    assert st'.threads == st.threads[t := st'.threads[t]];
  }

  /** The thread moves on, and a SuperVersion changes hands. */
  lemma LeavingShares(st: State, st': State, t: nat, s: nat)
    requires t < |st.threads| && s < |st.svs| && st'.handles == st.handles
    requires |st'.threads| == |st.threads| && st'.threads == st.threads[t := st'.threads[t]]
    requires |st'.svs| == |st.svs| && st'.svs == st.svs[s := st'.svs[s]]
    requires Stage()(st'.threads[t]) + st'.svs[s].pins < Stage()(st.threads[t]) + st.svs[s].pins
    ensures ClientWork(st') < ClientWork(st)
  {
    SumUpdate(st.threads, t, st'.threads[t], Stage());
    PinsChange(st.svs, st'.svs, s);
  }

  lemma ReturnShares(st: State, t: nat)
    requires Enabled(st, Return(t))
    ensures ClientWork(Next(st, Return(t))) < ClientWork(st)
  {
    LeavingShares(st, Next(st, Return(t)), t, st.threads[t].pc.sv);
  }

  lemma DropExtraShares(st: State, t: nat)
    requires Enabled(st, DropExtra(t))
    ensures ClientWork(Next(st, DropExtra(t))) < ClientWork(st)
  {
    LeavingShares(st, Next(st, DropExtra(t)), t, st.threads[t].pc.sv);
  }

  lemma DropStaleShares(st: State, t: nat)
    requires Enabled(st, DropStale(t))
    ensures ClientWork(Next(st, DropStale(t))) < ClientWork(st)
  {
    LeavingShares(st, Next(st, DropStale(t)), t, st.threads[t].pc.sv);
  }

  lemma LeavingGives(st: State, t: nat)
    requires t < |st.threads| && Enabled(st, LeavingStep(st, t))
    requires st.threads[t].pc.Reading? || st.threads[t].pc.Refused? || st.threads[t].pc.Stale?
    ensures ClientWork(Next(st, LeavingStep(st, t))) < ClientWork(st)
  {
    if st.threads[t].pc.Reading? {
      ReturnShares(st, t);
    } else if st.threads[t].pc.Refused? {
      DropExtraShares(st, t);
    } else {
      DropStaleShares(st, t);
    }
  }

  lemma PinLeaves(st: State, s: nat)
    requires Enabled(st, DropPin(s))
    ensures ClientWork(Next(st, DropPin(s))) < ClientWork(st)
  {
    PinsChange(st.svs, Next(st, DropPin(s)).svs, s);
  }

  /** Whoever is left, somebody can take a step towards leaving. */
  lemma LeavingAction(st: State) returns (a: Action)
    requires Inv(st) && !Clientless(st)
    ensures Enabled(st, a)
    ensures ClientWork(Next(st, a)) < ClientWork(st)
            || (ClientWork(Next(st, a)) == ClientWork(st) && Work(Next(st, a)) < Work(st))
  {
    if st.job != Unlocked {
      a := JobStep;
      KeepJob(st);
      if st.job.TakeCurrent? {
        TakeCurrentNears(st);
      } else {
        JobNearsEnd(st);
      }
    } else if t :| 0 <= t < |st.threads| && !st.threads[t].pc.Idle? {
      a := LeavingStep(st, t);
      LeavingEnabled(st, t);
      if st.threads[t].pc.Reading? || st.threads[t].pc.Refused? || st.threads[t].pc.Stale? {
        LeavingGives(st, t);
      } else {
        LeavingMoves(st, t);
      }
    } else if s :| 0 <= s < |st.svs| && st.svs[s].pins > 0 {
      a := DropPin(s);
      PinLeaves(st, s);
    } else {
      a := DropCfd;
    }
  }

  /**
   Nothing is ever held for good: from every reachable state the clients can give back what they hold, and the column family
   and every SuperVersion are then deleted, once.
   */
  lemma {:induction false} AlwaysClosable(run: seq<State>) returns (rest: seq<State>)
    requires IsRun(run)
    ensures IsRun(run + rest) && TornDown((run + rest)[|run + rest| - 1])
    decreases ClientWork(run[|run| - 1]), Work(run[|run| - 1])
  {
    var st := run[|run| - 1];
    EveryStateInv(run, |run| - 1);
    if Clientless(st) {
      rest := CycleAlwaysBroken(run);
    } else {
      var a := LeavingAction(st);
      ExtendRun(run, a);
      var longer := run + [Next(st, a)];
      WorkBounds(st);
      KeepStep(st, a);
      WorkBounds(Next(st, a));
      var tail := AlwaysClosable(longer);
      rest := [Next(st, a)] + tail;
      assert run + rest == longer + tail;
    }
  }
}
