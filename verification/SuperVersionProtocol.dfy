/**
 The SuperVersion hand-off of a column family, as a step relation over any number of threads.

 Readers keep a counted SuperVersion in a thread-local slot. They take it out with an atomic swap and put it
 back with a compare-and-swap. An installer, holding the DB mutex, publishes a new SuperVersion and scrapes the
 slots one by one. ColumnFamilyData and SuperVersion own each other; the cycle is broken by UnrefAndTryDelete.

 Every atomic operation is one step. The section under the DB mutex is a sequence of `Job` sub-steps, between which
 the lock-free steps of other threads may happen.
 */
module SuperVersionProtocol {
  import opened Options
  import opened Sums

  /** A thread-local slot: kSVObsolete, kSVInUse or a cached SuperVersion. */
  datatype Slot = Obsolete | InUse | Cached(sv: nat)

  /** `pins` counts outside holders; `unclaimed` counts last droppers that have not yet locked the mutex to clean up;
      `cleanups` counts runs of Cleanup(). */
  datatype SuperVersion = SuperVersion(refs: int, number: nat, pins: nat, unclaimed: nat, cleanups: nat)

  datatype Pc =
    | Idle                              // no reference to the column family
    | Ready                             // holds a column-family reference
    | Swapped(ptr: Slot)                // swapped kSVInUse in, version number not yet compared
    | Stale(sv: nat)                    // about to Unref the stale SuperVersion
    | MustClean(sv: nat)                // dropped the last reference, waits for the mutex
    | MustLock                          // waits for the mutex to take the current SuperVersion
    | InMutex                           // its slow path runs as the mutex job
    | Reading(sv: nat, extra: bool)     // Get returned sv; extra: the Ref of GetReferencedSuperVersion is taken
    | Refused(sv: nat)                  // GetReferencedSuperVersion: Return gave false, one Unref to go

  datatype Thread = Thread(pc: Pc, slot: Slot)

  /** Who goes on when a cleanup is over: nobody, or the slow path of a reader. */
  datatype Owner = Nobody | Getter(t: nat)

  datatype Job =
    | Unlocked
    | Bump(was: Option<nat>)                            // super_version_ stored, number not yet advanced
    | Stamp(was: Option<nat>)                           // number advanced, version_number not yet stored
    | Scrape(prev: nat, i: nat, ptrs: seq<Slot>)        // slots below i are scraped
    | Drain(prev: nat, ptrs: seq<Slot>)                 // unreferencing what was scraped
    | UnrefOld(prev: nat)
    | TakeCurrent(t: nat)
    | CleanUp(sv: nat, cont: Owner)
    | UnrefCfd(cont: Owner)
    | BreakCycle(cont: Owner)
    | Reclaim(sv: nat, i: nat, cont: Owner)             // destroying the thread-local pointer, slot by slot
    | UnrefSuper(sv: nat, cont: Owner)
    | DeleteCfd(cont: Owner)

  /** `handles` counts the column-family references held outside readers and SuperVersions. */
  datatype State = State(svs: seq<SuperVersion>, refs: int, current: Option<nat>, number: nat, deletions: nat,
                         handles: nat, threads: seq<Thread>, job: Job)

  datatype Action =
    | RefCfd | Adopt(t: nat) | Yield(t: nat) | DropCfd
    | Swap(t: nat) | Check(t: nat) | DropStale(t: nat) | LockForGet(t: nat)
    | ExtraRef(t: nat) | Return(t: nat) | DropExtra(t: nat) | Exit(t: nat)
    | DropPin(s: nat) | LockForPin(s: nat)
    | Install | JobStep

  predicate Init(st: State)
  {
    && st.svs == [] && st.refs == 1 && st.current == None && st.number == 0 && st.deletions == 0
    && st.handles == 1 && st.job == Unlocked
    && forall i :: 0 <= i < |st.threads| ==> st.threads[i] == Thread(Idle, Obsolete)
  }

  // ---------------------------------------------------------------- steps

  predicate PcIs(st: State, t: nat, pc: Pc) { t < |st.threads| && st.threads[t].pc == pc }

  predicate Enabled(st: State, a: Action)
  {
    match a
    case RefCfd => st.handles > 0
    case Adopt(t) => PcIs(st, t, Idle) && st.handles > 0
    case Yield(t) => PcIs(st, t, Ready)
    case DropCfd => st.handles > 0 && st.job == Unlocked
    // reads begin only once a SuperVersion has been published
    case Swap(t) => PcIs(st, t, Ready) && st.number > 0
    case Check(t) =>
      && t < |st.threads| && st.threads[t].pc.Swapped?
      && (st.threads[t].pc.ptr.Cached? ==> st.threads[t].pc.ptr.sv < |st.svs|)
    case DropStale(t) => t < |st.threads| && st.threads[t].pc.Stale? && st.threads[t].pc.sv < |st.svs|
    case LockForGet(t) =>
      st.job == Unlocked && t < |st.threads| && (st.threads[t].pc.MustClean? || st.threads[t].pc.MustLock?)
    case ExtraRef(t) =>
      t < |st.threads| && st.threads[t].pc.Reading? && !st.threads[t].pc.extra && st.threads[t].pc.sv < |st.svs|
    case Return(t) => t < |st.threads| && st.threads[t].pc.Reading? && st.threads[t].pc.sv < |st.svs|
    case DropExtra(t) => t < |st.threads| && st.threads[t].pc.Refused? && st.threads[t].pc.sv < |st.svs|
    case Exit(t) =>
      && PcIs(st, t, Idle) && !st.threads[t].slot.InUse?
      && (st.threads[t].slot.Cached? ==> st.threads[t].slot.sv < |st.svs|)
    case DropPin(s) => s < |st.svs| && st.svs[s].pins > 0
    case LockForPin(s) => st.job == Unlocked && s < |st.svs| && st.svs[s].unclaimed > 0
    case Install => st.job == Unlocked && st.handles > 0
    case JobStep => JobEnabled(st)
  }

  predicate JobEnabled(st: State)
  {
    match st.job
    case Unlocked => false
    case Bump(_) => true
    case Stamp(_) => st.current.Some? && st.current.value < |st.svs|
    case Scrape(_, i, _) => i <= |st.threads|
    case Drain(_, ptrs) => ptrs != [] && ptrs[0].Cached? ==> ptrs[0].sv < |st.svs|
    case UnrefOld(prev) => prev < |st.svs|
    case TakeCurrent(t) => t < |st.threads| && st.current.Some? && st.current.value < |st.svs|
    case CleanUp(sv, _) => sv < |st.svs|
    case UnrefCfd(_) => true
    case BreakCycle(_) => st.current.Some?
    case Reclaim(_, i, _) =>
      i <= |st.threads| && (i < |st.threads| && st.threads[i].slot.Cached? ==> st.threads[i].slot.sv < |st.svs|)
    case UnrefSuper(sv, _) => sv < |st.svs|
    case DeleteCfd(_) => true
  }

  function AddRefs(st: State, s: nat, d: int): State
    requires s < |st.svs|
  {
    st.(svs := st.svs[s := st.svs[s].(refs := st.svs[s].refs + d)])
  }

  function SetPc(st: State, t: nat, pc: Pc): State
    requires t < |st.threads|
  {
    st.(threads := st.threads[t := st.threads[t].(pc := pc)])
  }

  function SetSlot(st: State, t: nat, slot: Slot): State
    requires t < |st.threads|
  {
    st.(threads := st.threads[t := st.threads[t].(slot := slot)])
  }

  function Pinned(st: State, s: nat): State
    requires s < |st.svs|
  {
    st.(svs := st.svs[s := st.svs[s].(pins := st.svs[s].pins + 1)])
  }

  /** The end of a mutex section: unlock, or go on with the reader's slow path. */
  function Finish(cont: Owner): Job
  {
    if cont.Getter? then TakeCurrent(cont.t) else Unlocked
  }

  function Next(st: State, a: Action): State
    requires Enabled(st, a)
  {
    match a
    case RefCfd => st.(refs := st.refs + 1, handles := st.handles + 1)
    case Adopt(t) => SetPc(st, t, Ready).(handles := st.handles - 1)
    case Yield(t) => SetPc(st, t, Idle).(handles := st.handles + 1)
    case DropCfd => st.(handles := st.handles - 1, job := UnrefCfd(Nobody))
    case Swap(t) => st.(threads := st.threads[t := Thread(Swapped(st.threads[t].slot), InUse)])
    case Check(t) =>
      var ptr := st.threads[t].pc.ptr;
      if !ptr.Cached? then SetPc(st, t, MustLock)
      else if st.svs[ptr.sv].number == st.number then SetPc(st, t, Reading(ptr.sv, false))
      else SetPc(st, t, Stale(ptr.sv))
    case DropStale(t) =>
      var s := st.threads[t].pc.sv;
      SetPc(AddRefs(st, s, -1), t, if st.svs[s].refs == 1 then MustClean(s) else MustLock)
    case LockForGet(t) =>
      var pc := st.threads[t].pc;
      SetPc(st, t, InMutex).(job := if pc.MustClean? then CleanUp(pc.sv, Getter(t)) else TakeCurrent(t))
    case ExtraRef(t) =>
      var s := st.threads[t].pc.sv;
      SetPc(AddRefs(st, s, 1), t, Reading(s, true))
    case Return(t) =>
      var Reading(s, extra) := st.threads[t].pc;
      if st.threads[t].slot == InUse then
        var put := st.(threads := st.threads[t := Thread(Ready, Cached(s))]);
        if extra then Pinned(put, s) else put
      else if extra then SetPc(st, t, Refused(s))
      else Pinned(SetPc(st, t, Ready), s)
    case DropExtra(t) =>
      var s := st.threads[t].pc.sv;
      SetPc(Pinned(AddRefs(st, s, -1), s), t, Ready)
    case Exit(t) =>
      var slot := st.threads[t].slot;
      SetSlot(if slot.Cached? then AddRefs(st, slot.sv, -1) else st, t, Obsolete)
    case DropPin(s) =>
      var sv := st.svs[s];
      st.(svs := st.svs[s := sv.(refs := sv.refs - 1, pins := sv.pins - 1,
                                 unclaimed := if sv.refs == 1 then sv.unclaimed + 1 else sv.unclaimed)])
    case LockForPin(s) =>
      st.(svs := st.svs[s := st.svs[s].(unclaimed := st.svs[s].unclaimed - 1)], job := CleanUp(s, Nobody))
    case Install =>
      st.(svs := st.svs + [SuperVersion(1, 0, 0, 0, 0)], refs := st.refs + 1,
          current := Some(|st.svs|), job := Bump(st.current))
    case JobStep => NextJob(st)
  }

  function NextJob(st: State): State
    requires JobEnabled(st)
  {
    match st.job
    case Bump(was) => st.(number := st.number + 1, job := Stamp(was))
    case Stamp(was) =>
      var c := st.current.value;
      st.(svs := st.svs[c := st.svs[c].(number := st.number)],
          job := if was.None? then Unlocked else Scrape(was.value, 0, []))
    case Scrape(prev, i, ptrs) =>
      if i == |st.threads| then st.(job := Drain(prev, ptrs))
      else
        var p := st.threads[i].slot;
        SetSlot(st, i, Obsolete).(job := Scrape(prev, i + 1, if p == Obsolete then ptrs else ptrs + [p]))
    case Drain(prev, ptrs) =>
      if ptrs == [] then st.(job := UnrefOld(prev))
      else (if ptrs[0].Cached? then AddRefs(st, ptrs[0].sv, -1) else st).(job := Drain(prev, ptrs[1..]))
    case UnrefOld(prev) =>
      AddRefs(st, prev, -1).(job := if st.svs[prev].refs == 1 then CleanUp(prev, Nobody) else Unlocked)
    case TakeCurrent(t) =>
      var c := st.current.value;
      SetPc(AddRefs(st, c, 1), t, Reading(c, false)).(job := Unlocked)
    case CleanUp(sv, cont) =>
      st.(svs := st.svs[sv := st.svs[sv].(cleanups := st.svs[sv].cleanups + 1)], job := UnrefCfd(cont))
    case UnrefCfd(cont) =>
      st.(refs := st.refs - 1,
          job := if st.refs == 1 then DeleteCfd(cont)
                 else if st.refs == 2 && st.current.Some? then BreakCycle(cont)
                 else Finish(cont))
    case BreakCycle(cont) => st.(current := None, job := Reclaim(st.current.value, 0, cont))
    case Reclaim(sv, i, cont) =>
      if i == |st.threads| then st.(job := UnrefSuper(sv, cont))
      else
        var p := st.threads[i].slot;
        SetSlot(if p.Cached? then AddRefs(st, p.sv, -1) else st, i, Obsolete).(job := Reclaim(sv, i + 1, cont))
    case UnrefSuper(sv, cont) =>
      AddRefs(st, sv, -1).(job := if st.svs[sv].refs == 1 then CleanUp(sv, cont) else Finish(cont))
    case DeleteCfd(cont) => st.(deletions := st.deletions + 1, job := Finish(cont))
  }

  /** A run: every state follows from the one before by some enabled action. */
  ghost predicate IsRun(run: seq<State>)
  {
    && |run| > 0 && Init(run[0])
    && forall i {:trigger StepFrom(run, i)} :: 0 <= i < |run| - 1 ==> StepFrom(run, i)
  }

  ghost predicate StepFrom(run: seq<State>, i: int)
    requires 0 <= i < |run| - 1
  {
    StepOf(run[i], run[i + 1])
  }

  ghost predicate StepOf(st: State, st': State)
  {
    exists a :: Enabled(st, a) && st' == Next(st, a)
  }

  lemma ActionOf(st: State, st': State) returns (a: Action)
    requires StepOf(st, st')
    ensures Enabled(st, a) && st' == Next(st, a)
  {
    a :| Enabled(st, a) && st' == Next(st, a);
  }

  /** The action that leads on from state i of a run. */
  lemma ActionAt(run: seq<State>, i: nat) returns (a: Action)
    requires IsRun(run) && i < |run| - 1
    ensures Enabled(run[i], a) && run[i + 1] == Next(run[i], a)
  {
    assert StepFrom(run, i);
    a := ActionOf(run[i], run[i + 1]);
  }

  // ---------------------------------------------------------------- who holds what

  function SlotRefs(slot: Slot, s: nat): int { if slot == Cached(s) then 1 else 0 }

  function PcRefs(pc: Pc, s: nat): int
  {
    match pc
    case Swapped(ptr) => SlotRefs(ptr, s)
    case Stale(x) => if x == s then 1 else 0
    case Reading(x, extra) => if x != s then 0 else if extra then 2 else 1
    case Refused(x) => if x == s then 2 else 0
    case _ => 0
  }

  function ThreadHolds(s: nat): Thread -> int
  {
    (th: Thread) => SlotRefs(th.slot, s) + PcRefs(th.pc, s)
  }

  function PtrHolds(s: nat): Slot -> int
  {
    (p: Slot) => SlotRefs(p, s)
  }

  /** What the mutex holder keeps: the SuperVersion being replaced or torn down, and what it has scraped. */
  ghost function JobRefs(job: Job, s: nat): int
  {
    match job
    case Bump(was) => if was == Some(s) then 1 else 0
    case Stamp(was) => if was == Some(s) then 1 else 0
    case Scrape(prev, _, ptrs) => (if prev == s then 1 else 0) + Sum(ptrs, PtrHolds(s))
    case Drain(prev, ptrs) => (if prev == s then 1 else 0) + Sum(ptrs, PtrHolds(s))
    case UnrefOld(prev) => if prev == s then 1 else 0
    case Reclaim(sv, _, _) => if sv == s then 1 else 0
    case UnrefSuper(sv, _) => if sv == s then 1 else 0
    case _ => 0
  }

  /** All references to SuperVersion s: installed or being replaced, cached in slots, in flight in threads, outside. */
  ghost function Holders(st: State, s: nat): int
    requires s < |st.svs|
  {
    (if st.current == Some(s) then 1 else 0) + JobRefs(st.job, s) + Sum(st.threads, ThreadHolds(s)) + st.svs[s].pins
  }

  function CleansUp(s: nat): Thread -> int
  {
    (th: Thread) => if th.pc == MustClean(s) then 1 else 0
  }

  /** Cleanups of s that are owed: somebody dropped the last reference and has not run Cleanup() yet. */
  ghost function Owed(st: State, s: nat): int
    requires s < |st.svs|
  {
    st.svs[s].unclaimed + Sum(st.threads, CleansUp(s)) + (if st.job.CleanUp? && st.job.sv == s then 1 else 0)
  }

  function HoldsCfd(): Thread -> int
  {
    (th: Thread) => if th.pc.Idle? then 0 else 1
  }

  function Uncleaned(): SuperVersion -> int
  {
    (sv: SuperVersion) => if sv.cleanups == 0 then 1 else 0
  }

  /** Column-family references held by clients: plain handles and threads that are reading. */
  ghost function Outside(st: State): int
  {
    st.handles + Sum(st.threads, HoldsCfd())
  }

  // ---------------------------------------------------------------- the invariant

  function JobOwner(job: Job): Owner
  {
    match job
    case TakeCurrent(t) => Getter(t)
    case CleanUp(_, cont) => cont
    case UnrefCfd(cont) => cont
    case BreakCycle(cont) => cont
    case Reclaim(_, _, cont) => cont
    case UnrefSuper(_, cont) => cont
    case DeleteCfd(cont) => cont
    case _ => Nobody
  }

  predicate SlotInRange(slot: Slot, n: nat) { slot.Cached? ==> slot.sv < n }

  predicate PcInRange(pc: Pc, n: nat)
  {
    match pc
    case Swapped(ptr) => SlotInRange(ptr, n) && ptr != InUse
    case Stale(x) => x < n
    case MustClean(x) => x < n
    case Reading(x, _) => x < n
    case Refused(x) => x < n
    case _ => true
  }

  predicate PrevOf(st: State, was: nat) { st.current.Some? && was < st.current.value }

  /** An installer replaces the SuperVersion installed just before it. */
  function BeforeLast(st: State): Option<nat> { if |st.svs| <= 1 then None else Some(|st.svs| - 2) }

  predicate JobInRange(st: State)
  {
    match st.job
    case Bump(was) => st.current.Some? && was == BeforeLast(st)
    case Stamp(was) => st.current.Some? && was == BeforeLast(st)
    case Scrape(prev, i, ptrs) => PrevOf(st, prev) && i <= |st.threads| && OnlyFrom(ptrs, prev)
    case Drain(prev, ptrs) => PrevOf(st, prev) && OnlyFrom(ptrs, prev)
    case UnrefOld(prev) => PrevOf(st, prev)
    case CleanUp(sv, _) => sv < |st.svs|
    case BreakCycle(_) => st.current.Some? && st.refs == 1
    case Reclaim(sv, i, _) => sv < |st.svs| && st.current.None? && i <= |st.threads|
    case UnrefSuper(sv, _) => sv < |st.svs| && st.current.None?
    case DeleteCfd(_) => st.refs == 0
    case _ => true
  }

  /** Everything scraped is kSVInUse or the SuperVersion being replaced. */
  predicate OnlyFrom(ptrs: seq<Slot>, prev: nat)
  {
    forall k :: 0 <= k < |ptrs| ==> ptrs[k] == InUse || ptrs[k] == Cached(prev)
  }

  /** The SuperVersion slot i may cache: the installed one, or the one being replaced or torn down until the slot
      is scraped. */
  predicate Cacheable(st: State, i: nat, s: nat)
  {
    match st.job
    case Bump(was) => was == Some(s)
    case Stamp(was) => was == Some(s)
    case Scrape(prev, k, _) => prev == s && k <= i
    case Drain(_, _) => false
    case UnrefOld(_) => false
    case Reclaim(sv, k, _) => sv == s && k <= i
    case _ => st.current == Some(s)
  }

  predicate ThreadOk(st: State, i: nat)
    requires i < |st.threads|
  {
    var th := st.threads[i];
    && PcInRange(th.pc, |st.svs|) && SlotInRange(th.slot, |st.svs|)
    && (th.pc.Idle? || th.pc.Ready? ==> th.slot != InUse)
    && (!th.pc.Idle? && !th.pc.Ready? ==> !th.slot.Cached? && st.number > 0)
    && (th.slot.Cached? ==> Cacheable(st, i, th.slot.sv))
    // an unscraped reader holds what its slot may take back
    && (th.slot == InUse && th.pc.Swapped? && th.pc.ptr.Cached? ==> Cacheable(st, i, th.pc.ptr.sv))
    && (th.slot == InUse && th.pc.Reading? ==> Cacheable(st, i, th.pc.sv))
    && (th.pc.Refused? ==> th.slot == Obsolete)
    && (th.pc == InMutex <==> JobOwner(st.job) == Getter(i))
  }

  predicate Shape(st: State)
  {
    && (st.current.Some? ==> st.current.value == |st.svs| - 1)
    && JobInRange(st)
    && (JobOwner(st.job).Getter? ==> JobOwner(st.job).t < |st.threads|)
    && forall i :: 0 <= i < |st.threads| ==> ThreadOk(st, i)
  }

  /** Version numbers count installations; the newest one is stamped last. */
  predicate Numbered(st: State)
  {
    && st.number == (if st.job.Bump? then |st.svs| - 1 else |st.svs|)
    && forall s :: 0 <= s < |st.svs| ==>
         st.svs[s].number == if s == |st.svs| - 1 && (st.job.Bump? || st.job.Stamp?) then 0 else s + 1
  }

  ghost predicate RefsExact(st: State)
  {
    forall s :: 0 <= s < |st.svs| ==> st.svs[s].refs == Holders(st, s)
  }

  /** A SuperVersion with references is not cleaned and owes nothing; one without was cleaned once or owes one. */
  ghost predicate CleanedOnce(st: State)
  {
    forall s :: 0 <= s < |st.svs| ==> st.svs[s].cleanups + Owed(st, s) == if st.svs[s].refs == 0 then 1 else 0
  }

  ghost predicate CfdExact(st: State)
  {
    st.refs == Outside(st) + Sum(st.svs, Uncleaned()) + if st.job.UnrefCfd? then 1 else 0
  }

  /** The life of the column family: published, then the cycle is broken once no client is left, then deleted. */
  ghost predicate Phases(st: State)
  {
    && (st.current.Some? && !st.job.BreakCycle? ==> st.refs >= 2)
    && (st.current.None? && st.svs != [] ==> Outside(st) == 0)
    && st.deletions == if st.refs == 0 && !st.job.DeleteCfd? then 1 else 0
  }

  ghost predicate Inv(st: State)
  {
    Shape(st) && Numbered(st) && RefsExact(st) && CleanedOnce(st) && CfdExact(st) && Phases(st)
  }
}
