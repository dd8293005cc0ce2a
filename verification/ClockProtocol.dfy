/**
 One shard of the CLOCK cache as a step relation over any number of tasks.

 A task is one operation in flight, or one reference a client holds. Each atomic access to a handle's packed flags, to
 the hash map or to a usage counter is one step; Lookup, Ref and Unref take no lock, while Insert, Erase,
 EraseUnRefEntries and the recycling of a handle run under the shard mutex. The sweep of EvictFromCache appears here as
 TryEvict on handles in any order.
 */
module ClockProtocol {
  import opened Options
  import opened Sums

  /** Key of the hash map: the key with its hash. */
  datatype ClockKey = ClockKey(key: string, hash: nat)

  /** The packed flags word: in-cache bit, usage bit, reference count. */
  datatype Flags = Flags(inCache: bool, usage: bool, refs: int)

  /**
   A cache handle. `life` counts how often it has been filled. Two history bits follow the accounting: `spare` from the
   moment it is put into the recycle bin until it is filled again, `charged` while its charge is in pinned_usage_.
   */
  datatype Handle = Handle(flags: Flags, key: ClockKey, value: nat, charge: nat, life: nat, spare: bool, charged: bool)

  datatype Entry = Entry(key: ClockKey, value: nat, charge: nat, hold: bool)

  /** One life of one handle, and what it stored. */
  datatype LifeId = LifeId(handle: nat, life: nat)
  datatype Garbage = Garbage(id: LifeId, key: ClockKey, value: nat)

  /** How a mutex section goes on after a handle has been dealt with. */
  datatype Next = Done | Resume(e: Entry) | Clear(i: nat) | Link(h: nat, e: Entry)

  datatype Pc =
    | Idle
    // Lookup, lock-free
    | Found(k: ClockKey, h: nat)
    | Loaded(k: ClockKey, h: nat, seen: Flags)
    | Pinning(k: ClockKey, h: nat)                   // referenced; charge not yet added to pinned_usage_
    | Verify(k: ClockKey, h: nat)
    | Holding(k: ClockKey, h: nat, life: nat)        // the client has the handle
    // Unref, lock-free until the handle must be recycled
    | Marking(h: nat)
    | Dropping(h: nat, c: nat)
    | Unpinning(c: nat, mine: Option<nat>)           // count reached zero; `mine` if it is also out of the cache
    | WantRecycle(h: nat)
    // under the mutex
    | Recycling(h: nat, next: Next)
    | Discharging(c: nat, next: Next)
    | Unsetting(h: nat, next: Next)
    | Sweeping(e: Entry)
    | Evicting(h: nat, e: Entry)
    | Filling(h: nat, e: Entry)
    | Storing(h: nat, e: Entry)
    | Stored(h: nat, e: Entry)
    | Linking(h: nat, e: Entry)
    | Charging(h: nat, e: Entry)
    | Counting(h: nat, e: Entry)
    | Clearing(i: nat)

  /** `garbage` is the CleanupContext of the operation. */
  datatype Task = Task(pc: Pc, garbage: seq<Garbage>)

  /** `born` records what each life of each handle stored; `recycled` and `deleted` record the ends of lives. */
  datatype State = State(handles: seq<Handle>, recycle: seq<nat>, table: map<ClockKey, nat>, usage: int, pinned: int,
                         lock: Option<nat>, tasks: seq<Task>,
                         born: map<LifeId, Entry>, recycled: multiset<LifeId>, deleted: multiset<LifeId>)

  datatype Action =
    | Find(t: nat, k: ClockKey) | Load(t: nat) | Cas(t: nat) | AddPin(t: nat) | Compare(t: nat)
    | Release(t: nat) | Mark(t: nat) | Sub(t: nat) | SubPin(t: nat)
    | LockRecycle(t: nat) | Push(t: nat) | Discharge(t: nat) | Unset(t: nat)
    | LockInsert(t: nat, e: Entry) | TryEvict(t: nat, h: nat) | EraseEvicted(t: nat) | Refuse(t: nat)
    | Take(t: nat) | Fill(t: nat) | Store(t: nat) | Displace(t: nat) | Insert(t: nat) | ChargeNew(t: nat) | Count(t: nat)
    | LockErase(t: nat, k: ClockKey) | LockClear(t: nat) | ClearNext(t: nat) | Delete(t: nat)

  const EmptyHandle := Handle(Flags(false, false, 0), ClockKey("", 0), 0, 0, 0, true, false)

  predicate Init(st: State)
  {
    && st.handles == [] && st.recycle == [] && st.table == map[] && st.usage == 0 && st.pinned == 0
    && st.lock == None && st.born == map[] && st.recycled == multiset{} && st.deleted == multiset{}
    && forall t :: 0 <= t < |st.tasks| ==> st.tasks[t] == Task(Idle, [])
  }

  // ---------------------------------------------------------------- enabling

  predicate Ref?(pc: Pc) { pc.Pinning? || pc.Verify? || pc.Holding? || pc.Marking? || pc.Dropping? }

  predicate InMutex(pc: Pc)
  {
    || pc.Recycling? || pc.Discharging? || pc.Unsetting? || pc.Sweeping? || pc.Evicting? || pc.Filling?
    || pc.Storing? || pc.Stored? || pc.Linking? || pc.Charging? || pc.Counting? || pc.Clearing?
  }

  predicate Enabled(st: State, a: Action)
  {
    && a.t < |st.tasks|
    && var pc := st.tasks[a.t].pc;
       match a
       case Find(_, k) => pc.Idle? && st.tasks[a.t].garbage == []
       case Load(_) => pc.Found? && pc.h < |st.handles|
       case Cas(_) => pc.Loaded? && pc.h < |st.handles|
       case AddPin(_) => pc.Pinning? && pc.h < |st.handles|
       case Compare(_) => pc.Verify? && pc.h < |st.handles|
       case Release(_) => pc.Holding?
       case Mark(_) => pc.Marking? && pc.h < |st.handles|
       case Sub(_) => pc.Dropping? && pc.h < |st.handles|
       case SubPin(_) => pc.Unpinning?
       case LockRecycle(_) => pc.WantRecycle? && st.lock == None
       case Push(_) => pc.Recycling? && pc.h < |st.handles|
       case Discharge(_) => pc.Discharging?
       case Unset(_) => pc.Unsetting? && pc.h < |st.handles|
       case LockInsert(_, _) => pc.Idle? && st.tasks[a.t].garbage == [] && st.lock == None
       case TryEvict(_, h) => pc.Sweeping? && h < |st.handles|
       case EraseEvicted(_) => pc.Evicting? && pc.h < |st.handles|
       case Refuse(_) => pc.Sweeping?
       case Take(_) => pc.Sweeping?
       case Fill(_) => pc.Filling? && pc.h < |st.handles|
       case Store(_) => pc.Storing? && pc.h < |st.handles|
       case Displace(_) => pc.Stored?
       case Insert(_) => pc.Linking?
       case ChargeNew(_) => pc.Charging? && pc.h < |st.handles|
       case Count(_) => pc.Counting? && pc.h < |st.handles|
       case LockErase(_, _) => pc.Idle? && st.tasks[a.t].garbage == [] && st.lock == None
       case LockClear(_) => pc.Idle? && st.tasks[a.t].garbage == [] && st.lock == None
       case ClearNext(_) => pc.Clearing?
       case Delete(_) => !InMutex(pc) && st.tasks[a.t].garbage != []
  }

  // ---------------------------------------------------------------- steps

  function Goto(st: State, t: nat, pc: Pc): State
    requires t < |st.tasks|
  {
    st.(tasks := st.tasks[t := st.tasks[t].(pc := pc)])
  }

  function NextPc(next: Next): Pc
  {
    match next
    case Done => Idle
    case Resume(e) => Sweeping(e)
    case Clear(i) => Clearing(i)
    case Link(h, e) => Linking(h, e)
  }

  /** Leaving the mutex section or going on inside it. */
  function Proceed(st: State, t: nat, next: Next): State
    requires t < |st.tasks|
  {
    Goto(st, t, NextPc(next)).(lock := if next.Done? then None else st.lock)
  }

  function SetHandle(st: State, h: nat, hd: Handle): State
    requires h < |st.handles|
  {
    st.(handles := st.handles[h := hd])
  }

  // Each of the following is one atomic step of task t, named after its action.

  function DoFind(st: State, t: nat, k: ClockKey): State
    requires Enabled(st, Find(t, k))
  {
    if k in st.table then Goto(st, t, Found(k, st.table[k])) else st
  }

  function DoLoad(st: State, t: nat): State
    requires Enabled(st, Load(t))
  {
    var pc := st.tasks[t].pc;
    Goto(st, t, Loaded(pc.k, pc.h, st.handles[pc.h].flags))
  }

  /** One round of the compare-exchange loop of Ref. */
  function DoCas(st: State, t: nat): State
    requires Enabled(st, Cas(t))
  {
    var pc := st.tasks[t].pc;
    var f := st.handles[pc.h].flags;
    if !pc.seen.inCache then Goto(st, t, Idle)
    else if f != pc.seen then Goto(st, t, Loaded(pc.k, pc.h, f))
    else
      Goto(SetHandle(st, pc.h, st.handles[pc.h].(flags := f.(refs := f.refs + 1))), t,
           if f.refs == 0 then Pinning(pc.k, pc.h) else Verify(pc.k, pc.h))
  }

  function DoAddPin(st: State, t: nat): State
    requires Enabled(st, AddPin(t))
  {
    var pc := st.tasks[t].pc;
    Goto(SetHandle(st, pc.h, st.handles[pc.h].(charged := true)), t, Verify(pc.k, pc.h))
      .(pinned := st.pinned + st.handles[pc.h].charge)
  }

  /** The double check of the key after Ref succeeded. */
  function DoCompare(st: State, t: nat): State
    requires Enabled(st, Compare(t))
  {
    var pc := st.tasks[t].pc;
    var hd := st.handles[pc.h];
    Goto(st, t, if hd.key == pc.k then Holding(pc.k, pc.h, hd.life) else Dropping(pc.h, hd.charge))
  }

  function DoRelease(st: State, t: nat): State
    requires Enabled(st, Release(t))
  {
    Goto(st, t, Marking(st.tasks[t].pc.h))
  }

  function DoMark(st: State, t: nat): State
    requires Enabled(st, Mark(t))
  {
    var h := st.tasks[t].pc.h;
    var hd := st.handles[h];
    Goto(SetHandle(st, h, hd.(flags := hd.flags.(usage := true))), t, Dropping(h, hd.charge))
  }

  function DoSub(st: State, t: nat): State
    requires Enabled(st, Sub(t))
  {
    var pc := st.tasks[t].pc;
    var hd := st.handles[pc.h];
    var last := hd.flags.refs == 1;
    Goto(SetHandle(st, pc.h, hd.(flags := hd.flags.(refs := hd.flags.refs - 1), charged := hd.charged && !last)), t,
         if last then Unpinning(pc.c, if hd.flags.inCache then None else Some(pc.h)) else Idle)
  }

  function DoSubPin(st: State, t: nat): State
    requires Enabled(st, SubPin(t))
  {
    var pc := st.tasks[t].pc;
    Goto(st, t, if pc.mine.Some? then WantRecycle(pc.mine.value) else Idle).(pinned := st.pinned - pc.c)
  }

  function DoLockRecycle(st: State, t: nat): State
    requires Enabled(st, LockRecycle(t))
  {
    Goto(st, t, Recycling(st.tasks[t].pc.h, Done)).(lock := Some(t))
  }

  /** RecycleHandle, up to the subtraction from usage_. */
  function DoPush(st: State, t: nat): State
    requires Enabled(st, Push(t))
  {
    var pc := st.tasks[t].pc;
    var hd := st.handles[pc.h];
    var id := LifeId(pc.h, hd.life);
    SetHandle(st, pc.h, hd.(spare := true))
      .(tasks := st.tasks[t := Task(Discharging(hd.charge, pc.next), st.tasks[t].garbage + [Garbage(id, hd.key, hd.value)])],
        recycle := st.recycle + [pc.h], recycled := st.recycled + multiset{id})
  }

  function DoDischarge(st: State, t: nat): State
    requires Enabled(st, Discharge(t))
  {
    Proceed(st, t, st.tasks[t].pc.next).(usage := st.usage - st.tasks[t].pc.c)
  }

  function DoUnset(st: State, t: nat): State
    requires Enabled(st, Unset(t))
  {
    var pc := st.tasks[t].pc;
    var hd := st.handles[pc.h];
    var st1 := SetHandle(st, pc.h, hd.(flags := hd.flags.(inCache := false)));
    if hd.flags.inCache && hd.flags.refs == 0 then Goto(st1, t, Recycling(pc.h, pc.next))
    else Proceed(st1, t, pc.next)
  }

  function DoLockInsert(st: State, t: nat, e: Entry): State
    requires Enabled(st, LockInsert(t, e))
  {
    Goto(st, t, Sweeping(e)).(lock := Some(t))
  }

  function DoTryEvict(st: State, t: nat, h: nat): State
    requires Enabled(st, TryEvict(t, h))
  {
    var hd := st.handles[h];
    if hd.flags == Flags(true, false, 0) then
      Goto(SetHandle(st, h, hd.(flags := Flags(false, false, 0))), t, Evicting(h, st.tasks[t].pc.e))
    else
      SetHandle(st, h, hd.(flags := hd.flags.(usage := false)))
  }

  function DoEraseEvicted(st: State, t: nat): State
    requires Enabled(st, EraseEvicted(t))
  {
    var pc := st.tasks[t].pc;
    Goto(st, t, Recycling(pc.h, Resume(pc.e))).(table := st.table - {st.handles[pc.h].key})
  }

  function DoRefuse(st: State, t: nat): State
    requires Enabled(st, Refuse(t))
  {
    Goto(st, t, Idle).(lock := None)
  }

  /** The handle for a new entry: the last of the recycle bin, or a new one at the end of the list. */
  function DoTake(st: State, t: nat): State
    requires Enabled(st, Take(t))
  {
    var e := st.tasks[t].pc.e;
    if st.recycle != [] then
      var n := |st.recycle| - 1;
      Goto(st, t, Filling(st.recycle[n], e)).(recycle := st.recycle[..n])
    else
      Goto(st, t, Filling(|st.handles|, e)).(handles := st.handles + [EmptyHandle])
  }

  function DoFill(st: State, t: nat): State
    requires Enabled(st, Fill(t))
  {
    var pc := st.tasks[t].pc;
    var hd := st.handles[pc.h];
    Goto(SetHandle(st, pc.h, Handle(hd.flags, pc.e.key, pc.e.value, pc.e.charge, hd.life + 1, false, hd.charged)),
         t, Storing(pc.h, pc.e))
      .(born := st.born[LifeId(pc.h, hd.life + 1) := pc.e])
  }

  /** The flags are overwritten, whatever they are. */
  function DoStore(st: State, t: nat): State
    requires Enabled(st, Store(t))
  {
    var pc := st.tasks[t].pc;
    Goto(SetHandle(st, pc.h, st.handles[pc.h].(flags := Flags(true, false, if pc.e.hold then 1 else 0))), t,
         Stored(pc.h, pc.e))
  }

  function DoDisplace(st: State, t: nat): State
    requires Enabled(st, Displace(t))
  {
    var pc := st.tasks[t].pc;
    if pc.e.key in st.table then
      Goto(st, t, Unsetting(st.table[pc.e.key], Link(pc.h, pc.e))).(table := st.table - {pc.e.key})
    else Goto(st, t, Linking(pc.h, pc.e))
  }

  function DoInsert(st: State, t: nat): State
    requires Enabled(st, Insert(t))
  {
    var pc := st.tasks[t].pc;
    Goto(st, t, if pc.e.hold then Charging(pc.h, pc.e) else Counting(pc.h, pc.e))
      .(table := st.table[pc.e.key := pc.h])
  }

  function DoChargeNew(st: State, t: nat): State
    requires Enabled(st, ChargeNew(t))
  {
    var pc := st.tasks[t].pc;
    Goto(SetHandle(st, pc.h, st.handles[pc.h].(charged := true)), t, Counting(pc.h, pc.e))
      .(pinned := st.pinned + pc.e.charge)
  }

  function DoCount(st: State, t: nat): State
    requires Enabled(st, Count(t))
  {
    var pc := st.tasks[t].pc;
    Goto(st, t, if pc.e.hold then Holding(pc.e.key, pc.h, st.handles[pc.h].life) else Idle)
      .(usage := st.usage + pc.e.charge, lock := None)
  }

  function DoLockErase(st: State, t: nat, k: ClockKey): State
    requires Enabled(st, LockErase(t, k))
  {
    if k in st.table then
      Goto(st, t, Unsetting(st.table[k], Done)).(lock := Some(t), table := st.table - {k})
    else st
  }

  function DoLockClear(st: State, t: nat): State
    requires Enabled(st, LockClear(t))
  {
    Goto(st, t, Clearing(0)).(lock := Some(t), table := map[])
  }

  function DoClearNext(st: State, t: nat): State
    requires Enabled(st, ClearNext(t))
  {
    var i := st.tasks[t].pc.i;
    if i < |st.handles| then Goto(st, t, Unsetting(i, Clear(i + 1))) else Goto(st, t, Idle).(lock := None)
  }

  function DoDelete(st: State, t: nat): State
    requires Enabled(st, Delete(t))
  {
    var g := st.tasks[t].garbage;
    st.(tasks := st.tasks[t := st.tasks[t].(garbage := g[1..])], deleted := st.deleted + multiset{g[0].id})
  }

  function Step(st: State, a: Action): State
    requires Enabled(st, a)
  {
    match a
    case Find(t, k) => DoFind(st, t, k)
    case Load(t) => DoLoad(st, t)
    case Cas(t) => DoCas(st, t)
    case AddPin(t) => DoAddPin(st, t)
    case Compare(t) => DoCompare(st, t)
    case Release(t) => DoRelease(st, t)
    case Mark(t) => DoMark(st, t)
    case Sub(t) => DoSub(st, t)
    case SubPin(t) => DoSubPin(st, t)
    case LockRecycle(t) => DoLockRecycle(st, t)
    case Push(t) => DoPush(st, t)
    case Discharge(t) => DoDischarge(st, t)
    case Unset(t) => DoUnset(st, t)
    case LockInsert(t, e) => DoLockInsert(st, t, e)
    case TryEvict(t, h) => DoTryEvict(st, t, h)
    case EraseEvicted(t) => DoEraseEvicted(st, t)
    case Refuse(t) => DoRefuse(st, t)
    case Take(t) => DoTake(st, t)
    case Fill(t) => DoFill(st, t)
    case Store(t) => DoStore(st, t)
    case Displace(t) => DoDisplace(st, t)
    case Insert(t) => DoInsert(st, t)
    case ChargeNew(t) => DoChargeNew(st, t)
    case Count(t) => DoCount(st, t)
    case LockErase(t, k) => DoLockErase(st, t, k)
    case LockClear(t) => DoLockClear(st, t)
    case ClearNext(t) => DoClearNext(st, t)
    case Delete(t) => DoDelete(st, t)
  }

  ghost predicate StepFrom(run: seq<State>, i: int)
    requires 0 <= i < |run| - 1
  {
    StepOf(run[i], run[i + 1])
  }

  ghost predicate StepOf(st: State, st': State)
  {
    exists a :: Enabled(st, a) && st' == Step(st, a)
  }

  ghost predicate IsRun(run: seq<State>)
  {
    && |run| > 0 && Init(run[0])
    && forall i {:trigger StepFrom(run, i)} :: 0 <= i < |run| - 1 ==> StepFrom(run, i)
  }

  lemma ActionOf(st: State, st': State) returns (a: Action)
    requires StepOf(st, st')
    ensures Enabled(st, a) && st' == Step(st, a)
  {
    a :| Enabled(st, a) && st' == Step(st, a);
  }

  /** The action that leads on from state i of a run. */
  lemma ActionAt(run: seq<State>, i: nat) returns (a: Action)
    requires IsRun(run) && i < |run| - 1
    ensures Enabled(run[i], a) && run[i + 1] == Step(run[i], a)
  {
    assert StepFrom(run, i);
    a := ActionOf(run[i], run[i + 1]);
  }

  // ---------------------------------------------------------------- who holds, owns and owes what

  function B(b: bool): int { if b then 1 else 0 }

  /** The handle an Insert has made visible but not finished accounting for. */
  function InFlight(pc: Pc): Option<(nat, Entry)>
  {
    match pc
    case Stored(h, e) => Some((h, e))
    case Linking(h, e) => Some((h, e))
    case Charging(h, e) => Some((h, e))
    case Counting(h, e) => Some((h, e))
    case Recycling(_, Link(h, e)) => Some((h, e))
    case Discharging(_, Link(h, e)) => Some((h, e))
    case Unsetting(_, Link(h, e)) => Some((h, e))
    case _ => None
  }

  function PcRefs(pc: Pc, h: nat): int
  {
    if Ref?(pc) then B(pc.h == h)
    else
      match InFlight(pc)
      case Some((x, e)) => B(x == h && e.hold)
      case None => 0
  }

  /** A handle out of the cache and unreferenced belongs to exactly one task until it is binned or stored. */
  function PcOwns(pc: Pc, h: nat): int
  {
    match pc
    case Unpinning(_, mine) => B(mine == Some(h))
    case WantRecycle(x) => B(x == h)
    case Recycling(x, _) => B(x == h)
    case Evicting(x, _) => B(x == h)
    case Storing(x, _) => B(x == h)
    case _ => 0
  }

  function PcFills(pc: Pc, h: nat): int { B(pc.Filling? && pc.h == h) }

  /** Tasks that made the first reference to h and have not yet added its charge to pinned_usage_. */
  function PcAddsPin(pc: Pc, h: nat): int
  {
    if pc.Pinning? then B(pc.h == h)
    else if pc.Counting? then 0
    else
      match InFlight(pc)
      case Some((x, e)) => B(x == h && e.hold)
      case None => 0
  }

  /** Charge still to be taken off pinned_usage_. */
  function PcSubsPin(pc: Pc): int { if pc.Unpinning? then pc.c else 0 }

  /** Charge by which usage_ exceeds what it should be because of this operation. */
  function PcPending(pc: Pc): int
  {
    (if pc.Discharging? then pc.c else 0)
    - (match InFlight(pc) case Some((_, e)) => e.charge case None => if pc.Storing? then pc.e.charge else 0)
  }

  function Refs(h: nat): Task -> int { (k: Task) => PcRefs(k.pc, h) }
  function Owns(h: nat): Task -> int { (k: Task) => PcOwns(k.pc, h) }
  function Fills(h: nat): Task -> int { (k: Task) => PcFills(k.pc, h) }
  function AddsPin(h: nat): Task -> int { (k: Task) => PcAddsPin(k.pc, h) }
  function SubsPin(): Task -> int { (k: Task) => PcSubsPin(k.pc) }
  function Pending(): Task -> int { (k: Task) => PcPending(k.pc) }

  function Awaits(id: LifeId): Garbage -> int { (g: Garbage) => B(g.id == id) }
  ghost function GarbageOf(id: LifeId): Task -> int { (k: Task) => Sum(k.garbage, Awaits(id)) }

  function Stock(): Handle -> int { (hd: Handle) => if hd.spare then 0 else hd.charge }
  function ChargedPin(): Handle -> int { (hd: Handle) => if hd.charged then hd.charge else 0 }

  predicate Live(hd: Handle) { hd.flags.inCache || hd.flags.refs > 0 }

  // ---------------------------------------------------------------- the invariant

  function LockPc(st: State): Pc
  {
    if st.lock.Some? && st.lock.value < |st.tasks| then st.tasks[st.lock.value].pc else Idle
  }

  /** Exactly one of: spare, owned by one task, or live. */
  ghost predicate OneState(st: State, h: nat)
    requires h < |st.handles|
  {
    B(st.handles[h].spare) + B(Live(st.handles[h])) + Sum(st.tasks, Owns(h)) == 1
  }

  ghost predicate RefsExact(st: State, h: nat)
    requires h < |st.handles|
  {
    st.handles[h].flags.refs == Sum(st.tasks, Refs(h))
  }

  ghost predicate PinExact(st: State, h: nat)
    requires h < |st.handles|
  {
    B(st.handles[h].charged) + Sum(st.tasks, AddsPin(h)) == B(st.handles[h].flags.refs > 0)
  }

  /** A spare handle is in the recycle bin, once, or has just been taken out of it to be filled. */
  ghost predicate BinExact(st: State, h: nat)
    requires h < |st.handles|
  {
    multiset(st.recycle)[h] + Sum(st.tasks, Fills(h)) == B(st.handles[h].spare)
  }

  ghost predicate HandleOk(st: State, h: nat)
    requires h < |st.handles|
  {
    OneState(st, h) && RefsExact(st, h) && PinExact(st, h) && BinExact(st, h)
  }

  ghost predicate Handles(st: State)
  {
    forall h :: 0 <= h < |st.handles| ==> HandleOk(st, h)
  }

  ghost predicate Totals(st: State)
  {
    && st.pinned == Sum(st.handles, ChargedPin()) + Sum(st.tasks, SubsPin())
    && st.usage == Sum(st.handles, Stock()) + Sum(st.tasks, Pending())
  }

  /** A life begins when the handle is filled and ends, once, when it is recycled; its value is deleted after that. */
  ghost predicate LifeOk(st: State, id: LifeId)
  {
    && (id in st.born ==> id.handle < |st.handles| && 1 <= id.life <= st.handles[id.handle].life)
    && st.recycled[id]
       == B(id in st.born && (id.life < st.handles[id.handle].life || st.handles[id.handle].spare))
    && st.recycled[id] == st.deleted[id] + Sum(st.tasks, GarbageOf(id))
  }

  ghost predicate Lives(st: State)
  {
    && (forall id: LifeId :: LifeOk(st, id))
    && (forall h :: 0 <= h < |st.handles| ==>
          if st.handles[h].life == 0 then st.handles[h].spare
          else LifeId(h, st.handles[h].life) in st.born && Stores(st.handles[h], st.born[LifeId(h, st.handles[h].life)]))
  }

  predicate Stores(hd: Handle, e: Entry) { hd.key == e.key && hd.value == e.value && hd.charge == e.charge }

  predicate Listed(st: State, h: nat)
    requires h < |st.handles|
  {
    st.handles[h].key in st.table && st.table[st.handles[h].key] == h
  }

  predicate NotListed(st: State, h: nat)
  {
    forall k :: k in st.table ==> st.table[k] != h
  }

  /** In-cache handles the mutex holder keeps out of the hash map for the moment. */
  predicate Unlisted(pc: Pc, h: nat)
  {
    match pc
    case Stored(x, _) => x == h
    case Linking(x, _) => x == h
    case Unsetting(x, next) => x == h || (next.Link? && next.h == h) || (next.Clear? && next.i <= h)
    case Recycling(_, next) => (next.Link? && next.h == h) || (next.Clear? && next.i <= h)
    case Discharging(_, next) => (next.Link? && next.h == h) || (next.Clear? && next.i <= h)
    case Clearing(i) => i <= h
    case _ => false
  }

  predicate Table(st: State)
  {
    && (forall k :: k in st.table ==>
          && st.table[k] < |st.handles| && st.handles[st.table[k]].key == k
          && (st.handles[st.table[k]].flags.inCache || (LockPc(st).Evicting? && LockPc(st).h == st.table[k])))
    && (forall h :: 0 <= h < |st.handles| && st.handles[h].flags.inCache ==> Listed(st, h) || Unlisted(LockPc(st), h))
  }

  predicate NextOk(st: State, next: Next)
  {
    match next
    case Done => true
    case Resume(_) => true
    case Clear(_) => st.table == map[]
    case Link(h, e) =>
      && h < |st.handles| && Stores(st.handles[h], e) && st.handles[h].flags.inCache
      && e.key !in st.table && NotListed(st, h)
  }

  predicate PcOk(st: State, pc: Pc)
  {
    match pc
    case Idle => true
    case Found(_, h) => h < |st.handles|
    case Loaded(_, h, _) => h < |st.handles|
    case Pinning(_, h) => h < |st.handles|
    case Verify(_, h) => h < |st.handles|
    case Holding(k, h, life) => h < |st.handles| && st.handles[h].key == k && st.handles[h].life == life
    case Marking(h) => h < |st.handles|
    case Dropping(h, c) => h < |st.handles| && c == st.handles[h].charge
    case Unpinning(_, mine) => mine.Some? ==> mine.value < |st.handles|
    case WantRecycle(h) => h < |st.handles|
    case Recycling(h, next) => h < |st.handles| && NextOk(st, next)
    case Discharging(_, next) => NextOk(st, next)
    case Unsetting(h, next) =>
      h < |st.handles| && NotListed(st, h) && NextOk(st, next) && (next.Link? ==> next.h != h)
    case Sweeping(_) => true
    case Evicting(h, _) => h < |st.handles| && Listed(st, h)
    case Filling(h, _) => h < |st.handles|
    case Storing(h, e) => h < |st.handles| && Stores(st.handles[h], e)
    case Stored(h, e) =>
      h < |st.handles| && Stores(st.handles[h], e) && st.handles[h].flags.inCache && NotListed(st, h)
    case Linking(h, e) => NextOk(st, Link(h, e))
    case Charging(h, e) => h < |st.handles| && Stores(st.handles[h], e) && e.hold
    case Counting(h, e) => h < |st.handles| && Stores(st.handles[h], e)
    case Clearing(_) => st.table == map[]
  }

  predicate TaskOk(st: State, t: nat)
    requires t < |st.tasks|
  {
    && PcOk(st, st.tasks[t].pc)
    && (InMutex(st.tasks[t].pc) <==> st.lock == Some(t))
    && forall i :: 0 <= i < |st.tasks[t].garbage| ==> GarbageOk(st, st.tasks[t].garbage[i])
  }

  predicate GarbageOk(st: State, g: Garbage)
  {
    g.id in st.born && st.born[g.id].key == g.key && st.born[g.id].value == g.value
  }

  predicate Tasks(st: State)
  {
    && (st.lock.Some? ==> st.lock.value < |st.tasks|)
    && (forall i :: 0 <= i < |st.recycle| ==> st.recycle[i] < |st.handles|)
    && forall t :: 0 <= t < |st.tasks| ==> TaskOk(st, t)
  }

  ghost predicate Inv(st: State)
  {
    Handles(st) && Totals(st) && Lives(st) && Table(st) && Tasks(st)
  }
}
