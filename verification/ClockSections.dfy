/**
 What the operations of the CLOCK shard that run under the mutex have achieved when they let go of it, whatever the lock-free
 operations of other tasks do in between.
 */
module ClockSections {
  import opened Options
  import opened Sums
  import opened ClockProtocol
  import opened ClockSafety
  import opened ClockTheorems

  // ---------------------------------------------------------------- the others

  /** What a task under the mutex has to itself. */
  predicate SameUnder(hd: Handle, hd': Handle)
  {
    && hd'.key == hd.key && hd'.value == hd.value && hd'.charge == hd.charge && hd'.life == hd.life
    && hd'.spare == hd.spare && hd'.flags.inCache == hd.flags.inCache
  }

  predicate Still(st: State, st': State, t: nat)
  {
    && t < |st.tasks| == |st'.tasks| && st'.tasks[t] == st.tasks[t]
    && st'.lock == st.lock && st'.table == st.table && st'.recycle == st.recycle && st'.born == st.born
    && |st'.handles| == |st.handles| && forall h :: 0 <= h < |st.handles| ==> SameUnder(st.handles[h], st'.handles[h])
  }

  predicate LookingAction(a: Action) { a.Find? || a.Load? || a.Cas? || a.AddPin? || a.Compare? }

  predicate ReleasingAction(a: Action) { a.Release? || a.Mark? || a.Sub? || a.SubPin? || a.Delete? }

  lemma LookingStill(st: State, a: Action, t: nat)
    requires Enabled(st, a) && LookingAction(a) && t < |st.tasks| && a.t != t
    ensures Still(st, Step(st, a), t)
  {
  }

  lemma ReleasingStill(st: State, a: Action, t: nat)
    requires Enabled(st, a) && ReleasingAction(a) && t < |st.tasks| && a.t != t
    ensures Still(st, Step(st, a), t)
  {
  }

  /** While one task holds the mutex, the others are at lock-free steps. */
  lemma OthersLockFree(st: State, a: Action, t: nat)
    requires Tasks(st) && Enabled(st, a) && st.lock == Some(t) && a.t != t
    ensures LookingAction(a) || ReleasingAction(a)
  {
    assert TaskOk(st, a.t);
  }

  lemma OthersStill(st: State, a: Action, t: nat)
    requires Tasks(st) && Enabled(st, a) && st.lock == Some(t) && a.t != t
    ensures Still(st, Step(st, a), t)
  {
    OthersLockFree(st, a, t);
    if LookingAction(a) {
      LookingStill(st, a, t);
    } else {
      ReleasingStill(st, a, t);
    }
  }

  /** Task t has the mutex from i to j, and lets go of it in step j. */
  ghost predicate Section(run: seq<State>, i: nat, j: nat, t: nat)
  {
    && i <= j && j + 1 < |run| && (forall m :: i <= m <= j ==> run[m].lock == Some(t)) && run[j + 1].lock != Some(t)
  }

  /** State j is the first after i in which task t does not have the mutex. */
  ghost predicate Until(run: seq<State>, i: nat, j: nat, t: nat)
  {
    i < j < |run| && run[j].lock != Some(t) && forall m :: i < m < j ==> run[m].lock == Some(t)
  }

  lemma UntilIsSection(run: seq<State>, i: nat, j: nat, t: nat)
    requires Until(run, i, j, t) && run[i + 1].lock == Some(t)
    ensures i + 1 < j && Section(run, i + 1, j - 1, t)
  {
  }

  lemma StepAt(run: seq<State>, m: nat) returns (a: Action)
    requires IsRun(run) && m + 1 < |run|
    ensures Enabled(run[m], a) && run[m + 1] == Step(run[m], a) && Inv(run[m]) && Inv(run[m + 1])
  {
    EveryStateInv(run, m);
    EveryStateInv(run, m + 1);
    a := ActionAt(run, m);
  }

  // ---------------------------------------------------------------- Erase

  /** The key is out of the table and its handle is not mapped; its in-cache bit is still to be cleared. */
  predicate Unsets(st: State, t: nat, k: ClockKey, h: nat, life: nat)
  {
    && t < |st.tasks| && st.lock == Some(t) && h < |st.handles| && k !in st.table && NotListed(st, h)
    && st.handles[h].life == life && st.handles[h].flags.inCache && st.tasks[t].pc == Unsetting(h, Done)
  }

  /** The in-cache bit was cleared with no reference left: the handle is being recycled. */
  predicate Recycles(st: State, t: nat, k: ClockKey, h: nat, life: nat)
  {
    && t < |st.tasks| && st.lock == Some(t) && h < |st.handles| && k !in st.table && NotListed(st, h)
    && st.handles[h].life == life && !st.handles[h].flags.inCache
    && (st.tasks[t].pc == Recycling(h, Done)
        || (st.tasks[t].pc.Discharging? && st.tasks[t].pc.next == Done && st.handles[h].spare))
  }

  /** The key and its handle are gone from the cache. */
  predicate Gone(st: State, k: ClockKey, h: nat)
  {
    h < |st.handles| && k !in st.table && NotListed(st, h) && !st.handles[h].flags.inCache
  }

  predicate Binned(st: State, h: nat, life: nat)
  {
    h < |st.handles| && st.handles[h].spare && st.handles[h].life == life
  }

  lemma UnsetOwn(st: State, a: Action, t: nat, k: ClockKey, h: nat, life: nat)
    requires Enabled(st, a) && a.t == t && Unsets(st, t, k, h, life)
    ensures var st' := Step(st, a);
            if st.handles[h].flags.refs == 0 then Recycles(st', t, k, h, life) else st'.lock == None && Gone(st', k, h)
  {
  }

  lemma RecycleOwn(st: State, a: Action, t: nat, k: ClockKey, h: nat, life: nat)
    requires Enabled(st, a) && a.t == t && Recycles(st, t, k, h, life)
    ensures var st' := Step(st, a);
            Recycles(st', t, k, h, life) || (st'.lock == None && Gone(st', k, h) && Binned(st', h, life))
  {
  }

  lemma StillUnsets(st: State, st': State, t: nat, k: ClockKey, h: nat, life: nat)
    requires Still(st, st', t)
    ensures Unsets(st, t, k, h, life) ==> Unsets(st', t, k, h, life)
    ensures Recycles(st, t, k, h, life) ==> Recycles(st', t, k, h, life)
  {
  }

  /** How an erase goes on from m to m + 1. */
  ghost predicate EraseMoves(run: seq<State>, m: int, t: nat, k: ClockKey, h: nat, life: nat)
  {
    && 0 <= m && m + 1 < |run|
    && (Unsets(run[m], t, k, h, life) ==>
          || Unsets(run[m + 1], t, k, h, life)
          || if run[m].handles[h].flags.refs == 0 then Recycles(run[m + 1], t, k, h, life)
             else run[m + 1].lock == None && Gone(run[m + 1], k, h))
    && (Recycles(run[m], t, k, h, life) ==>
          || Recycles(run[m + 1], t, k, h, life)
          || (run[m + 1].lock == None && Gone(run[m + 1], k, h) && Binned(run[m + 1], h, life)))
  }

  lemma EraseStep(run: seq<State>, m: nat, t: nat, k: ClockKey, h: nat, life: nat)
    requires IsRun(run) && m + 1 < |run|
    ensures EraseMoves(run, m, t, k, h, life)
  {
    var a := StepAt(run, m);
    if Unsets(run[m], t, k, h, life) || Recycles(run[m], t, k, h, life) {
      if a.t != t {
        OthersStill(run[m], a, t);
        StillUnsets(run[m], run[m + 1], t, k, h, life);
      } else if Unsets(run[m], t, k, h, life) {
        UnsetOwn(run[m], a, t, k, h, life);
      } else {
        RecycleOwn(run[m], a, t, k, h, life);
      }
    }
  }

  ghost predicate ErasesAlong(run: seq<State>, i: nat, j: nat, t: nat, k: ClockKey, h: nat, life: nat)
  {
    forall m {:trigger EraseMoves(run, m, t, k, h, life)} :: i <= m <= j ==> EraseMoves(run, m, t, k, h, life)
  }

  lemma {:induction false} RecycleEnds(run: seq<State>, i: nat, j: nat, t: nat, k: ClockKey, h: nat, life: nat)
    requires Section(run, i, j, t) && ErasesAlong(run, i, j, t, k, h, life) && Recycles(run[i], t, k, h, life)
    ensures Gone(run[j + 1], k, h) && Binned(run[j + 1], h, life)
    decreases j - i
  {
    assert EraseMoves(run, i, t, k, h, life);
    if i < j {
      RecycleEnds(run, i + 1, j, t, k, h, life);
    }
  }

  /** The in-cache bit is cleared in some step m of the section. */
  lemma {:induction false} EraseEnds(run: seq<State>, i: nat, j: nat, t: nat, k: ClockKey, h: nat, life: nat) returns (m: nat)
    requires Section(run, i, j, t) && ErasesAlong(run, i, j, t, k, h, life) && Unsets(run[i], t, k, h, life)
    ensures i <= m <= j && Unsets(run[m], t, k, h, life) && !Unsets(run[m + 1], t, k, h, life)
    ensures Gone(run[j + 1], k, h) && (run[m].handles[h].flags.refs == 0 ==> Binned(run[j + 1], h, life))
    decreases j - i
  {
    assert EraseMoves(run, i, t, k, h, life);
    if Unsets(run[i + 1], t, k, h, life) {
      m := EraseEnds(run, i + 1, j, t, k, h, life);
    } else {
      m := i;
      if i < j {
        RecycleEnds(run, i + 1, j, t, k, h, life);
      }
    }
  }

  lemma EraseBegins(st: State, t: nat, k: ClockKey)
    requires Inv(st) && Enabled(st, LockErase(t, k)) && k in st.table
    ensures var h := st.table[k];
            && h < |st.handles| && st.handles[h].life > 0 && st.handles[h].flags.inCache
            && Unsets(Step(st, LockErase(t, k)), t, k, h, st.handles[h].life)
  {
    var h := st.table[k];
    assert LockPc(st) == Idle;
    LiveIsNotSpare(st, h);
  }

  lemma ErasesAlways(run: seq<State>, i: nat, j: nat, t: nat, k: ClockKey, h: nat, life: nat)
    requires IsRun(run) && j + 1 < |run|
    ensures ErasesAlong(run, i, j, t, k, h, life)
  {
    forall n | i <= n <= j ensures EraseMoves(run, n, t, k, h, life) {
      EraseStep(run, n, t, k, h, life);
    }
  }

  lemma EraseSection(run: seq<State>, i: nat, j: nat, t: nat, k: ClockKey, h: nat, life: nat) returns (m: nat)
    requires IsRun(run) && Section(run, i, j, t) && Unsets(run[i], t, k, h, life)
    ensures i <= m <= j && Unsets(run[m], t, k, h, life) && !Unsets(run[m + 1], t, k, h, life)
    ensures Gone(run[j + 1], k, h) && (run[m].handles[h].flags.refs == 0 ==> Binned(run[j + 1], h, life))
  {
    ErasesAlways(run, i, j, t, k, h, life);
    m := EraseEnds(run, i, j, t, k, h, life);
  }

  lemma BinnedIsRecycled(run: seq<State>, i: nat, h: nat, life: nat)
    requires IsRun(run) && i < |run| && Binned(run[i], h, life) && life > 0
    ensures run[i].recycled[LifeId(h, life)] == 1
  {
    EveryStateInv(run, i);
    RecycledOncePerLife(run, i, LifeId(h, life));
  }

  lemma EraseBeginsAt(run: seq<State>, i: nat, t: nat, k: ClockKey)
    requires IsRun(run) && i < |run| && Enabled(run[i], LockErase(t, k)) && k in run[i].table
    ensures var h := run[i].table[k];
            && h < |run[i].handles| && run[i].handles[h].life > 0
            && Unsets(Step(run[i], LockErase(t, k)), t, k, h, run[i].handles[h].life)
  {
    EveryStateInv(run, i);
    EraseBegins(run[i], t, k);
  }

  lemma EraseOutcome(run: seq<State>, i: nat, j: nat, t: nat, k: ClockKey, h: nat, life: nat) returns (m: nat)
    requires IsRun(run) && Section(run, i, j, t) && Unsets(run[i], t, k, h, life) && life > 0
    ensures Gone(run[j + 1], k, h) && i <= m <= j && h < |run[m].handles| && run[m].handles[h].flags.inCache
    ensures run[m].handles[h].flags.refs == 0 ==> run[j + 1].recycled[LifeId(h, life)] == 1
  {
    m := EraseSection(run, i, j, t, k, h, life);
    if Binned(run[j + 1], h, life) {
      BinnedIsRecycled(run, j + 1, h, life);
    }
  }

  /**
   Erase of a mapped key: when it lets go of the mutex the key is not in the table, its handle is out of the cache and not
   mapped, and if there was no reference when the in-cache bit was cleared, in step m, that life of the handle is recycled.
   */
  lemma EraseTakesOut(run: seq<State>, i: nat, j: nat, t: nat, k: ClockKey) returns (m: nat)
    requires IsRun(run) && i + 1 < |run| && Enabled(run[i], LockErase(t, k)) && run[i + 1] == Step(run[i], LockErase(t, k))
    requires k in run[i].table && Until(run, i, j, t)
    ensures run[i].table[k] < |run[i].handles| && Gone(run[j], k, run[i].table[k])
    ensures var h := run[i].table[k];
            && i < m < j && h < |run[m].handles| && run[m].handles[h].flags.inCache
            && (run[m].handles[h].flags.refs == 0 ==> run[j].recycled[LifeId(h, run[i].handles[h].life)] == 1)
  {
    EraseBeginsAt(run, i, t, k);
    UntilIsSection(run, i, j, t);
    m := EraseOutcome(run, i + 1, j - 1, t, k, run[i].table[k], run[i].handles[run[i].table[k]].life);
  }

  /** Erase of a key that is not mapped changes nothing. */
  lemma EraseOfNothing(st: State, t: nat, k: ClockKey)
    requires Enabled(st, LockErase(t, k)) && k !in st.table
    ensures Step(st, LockErase(t, k)) == st
  {
  }

  // ---------------------------------------------------------------- only Insert puts a key into the table

  lemma TableGrows(st: State, a: Action, k: ClockKey)
    requires Enabled(st, a) && k !in st.table && k in Step(st, a).table
    ensures a.Insert? && st.tasks[a.t].pc.Linking? && st.tasks[a.t].pc.e.key == k
  {
  }

  /** Some task puts key k into the table in step m. */
  ghost predicate Links(run: seq<State>, m: int, t: nat, k: ClockKey)
  {
    && 0 <= m && m + 1 < |run| && t < |run[m].tasks| && run[m].tasks[t].pc.Linking? && run[m].tasks[t].pc.e.key == k
    && Enabled(run[m], Insert(t)) && run[m + 1] == Step(run[m], Insert(t))
  }

  lemma LinksOrNot(run: seq<State>, m: nat, k: ClockKey) returns (t: nat)
    requires IsRun(run) && m + 1 < |run| && k !in run[m].table
    ensures k in run[m + 1].table ==> Links(run, m, t, k)
  {
    var a := StepAt(run, m);
    t := a.t;
    if k in run[m + 1].table {
      TableGrows(run[m], a, k);
    }
  }

  /** A key that has left the table comes back only by another Insert of it. */
  lemma {:induction false} BackOnlyByInsert(run: seq<State>, i: nat, j: nat, k: ClockKey) returns (m: nat, t: nat)
    requires IsRun(run) && i <= j < |run| && k !in run[i].table && k in run[j].table
    ensures i <= m < j && Links(run, m, t, k)
    decreases j - i
  {
    var u := LinksOrNot(run, i, k);
    if k in run[i + 1].table {
      m, t := i, u;
    } else {
      m, t := BackOnlyByInsert(run, i + 1, j, k);
    }
  }

  // ---------------------------------------------------------------- EraseUnRefEntries

  predicate ClearPc(pc: Pc)
  {
    || pc.Clearing?
    || ((pc.Unsetting? || pc.Recycling? || pc.Discharging?) && pc.next.Clear?)
  }

  predicate Clears(st: State, t: nat)
  {
    t < |st.tasks| && st.lock == Some(t) && st.table == map[] && ClearPc(st.tasks[t].pc)
  }

  lemma ClearActions(st: State, a: Action, t: nat)
    requires Enabled(st, a) && a.t == t && Clears(st, t)
    ensures a.ClearNext? || a.Push? || a.Discharge? || a.Unset?
  {
  }

  lemma ClearNextOwn(st: State, t: nat)
    requires Enabled(st, ClearNext(t)) && Clears(st, t)
    ensures var st' := Step(st, ClearNext(t)); Clears(st', t) || (st'.lock == None && st'.table == map[])
  {
  }

  lemma ClearOneOwn(st: State, a: Action, t: nat)
    requires Enabled(st, a) && a.t == t && Clears(st, t) && (a.Push? || a.Discharge? || a.Unset?)
    ensures Clears(Step(st, a), t)
  {
  }

  lemma ClearOwn(st: State, a: Action, t: nat)
    requires Enabled(st, a) && a.t == t && Clears(st, t)
    ensures Clears(Step(st, a), t) || (Step(st, a).lock == None && Step(st, a).table == map[])
  {
    ClearActions(st, a, t);
    if a.ClearNext? {
      ClearNextOwn(st, t);
    } else {
      ClearOneOwn(st, a, t);
    }
  }

  ghost predicate ClearMoves(run: seq<State>, m: int, t: nat)
  {
    && 0 <= m && m + 1 < |run|
    && (Clears(run[m], t) ==> Clears(run[m + 1], t) || (run[m + 1].lock == None && run[m + 1].table == map[]))
  }

  lemma ClearStep(run: seq<State>, m: nat, t: nat)
    requires IsRun(run) && m + 1 < |run|
    ensures ClearMoves(run, m, t)
  {
    var a := StepAt(run, m);
    if Clears(run[m], t) {
      if a.t != t {
        OthersStill(run[m], a, t);
      } else {
        ClearOwn(run[m], a, t);
      }
    }
  }

  lemma {:induction false} ClearEnds(run: seq<State>, i: nat, j: nat, t: nat)
    requires Section(run, i, j, t) && Clears(run[i], t)
    requires forall m {:trigger ClearMoves(run, m, t)} :: i <= m <= j ==> ClearMoves(run, m, t)
    ensures run[j + 1].lock == None && run[j + 1].table == map[]
    decreases j - i
  {
    assert ClearMoves(run, i, t);
    if i < j {
      ClearEnds(run, i + 1, j, t);
    }
  }

  lemma ClearSection(run: seq<State>, i: nat, j: nat, t: nat)
    requires IsRun(run) && Section(run, i, j, t) && Clears(run[i], t)
    ensures run[j + 1].lock == None && run[j + 1].table == map[]
  {
    forall m | i <= m <= j ensures ClearMoves(run, m, t) {
      ClearStep(run, m, t);
    }
    ClearEnds(run, i, j, t);
  }

  /** Nothing is mapped, and no handle is in the cache. */
  predicate Emptied(st: State)
  {
    st.table == map[] && forall h :: 0 <= h < |st.handles| ==> !st.handles[h].flags.inCache
  }

  lemma EmptyTable(st: State)
    requires Table(st) && st.lock == None && st.table == map[]
    ensures Emptied(st)
  {
    assert LockPc(st) == Idle;
  }

  lemma ClearBegins(st: State, t: nat)
    requires Enabled(st, LockClear(t))
    ensures Clears(Step(st, LockClear(t)), t)
  {
  }

  lemma ClearOutcome(run: seq<State>, i: nat, j: nat, t: nat)
    requires IsRun(run) && Section(run, i, j, t) && Clears(run[i], t)
    ensures Emptied(run[j + 1])
  {
    ClearSection(run, i, j, t);
    EveryStateInv(run, j + 1);
    EmptyTable(run[j + 1]);
  }

  /** EraseUnRefEntries: when it lets go of the mutex the table is empty and no handle is in the cache. */
  lemma ClearEmpties(run: seq<State>, i: nat, j: nat, t: nat)
    requires IsRun(run) && i + 1 < |run| && Enabled(run[i], LockClear(t)) && run[i + 1] == Step(run[i], LockClear(t))
    requires Until(run, i, j, t)
    ensures Emptied(run[j])
  {
    ClearBegins(run[i], t);
    UntilIsSection(run, i, j, t);
    ClearOutcome(run, i + 1, j - 1, t);
  }

  // ---------------------------------------------------------------- Insert

  /** Making room and taking a handle: nothing has been stored yet. */
  predicate Prepares(st: State, t: nat, e: Entry, born: map<LifeId, Entry>)
  {
    && t < |st.tasks| && st.lock == Some(t) && st.born == born
    && match st.tasks[t].pc
       case Sweeping(x) => x == e
       case Evicting(_, x) => x == e
       case Recycling(_, Resume(x)) => x == e
       case Discharging(_, Resume(x)) => x == e
       case Filling(_, x) => x == e
       case _ => false
  }

  /** The handle the entry has been put into, as long as it is not mapped. */
  function FilledHandle(pc: Pc): Option<(nat, Entry)>
  {
    match pc
    case Storing(h, e) => Some((h, e))
    case Stored(h, e) => Some((h, e))
    case Linking(h, e) => Some((h, e))
    case Recycling(_, Link(h, e)) => Some((h, e))
    case Discharging(_, Link(h, e)) => Some((h, e))
    case Unsetting(_, Link(h, e)) => Some((h, e))
    case _ => None
  }

  /** The handle lives a life that had not begun when the insertion did. */
  predicate NewLife(st: State, h: nat, born: map<LifeId, Entry>)
  {
    h < |st.handles| && LifeId(h, st.handles[h].life) !in born
  }

  predicate Fills(st: State, t: nat, e: Entry, born: map<LifeId, Entry>)
  {
    && t < |st.tasks| && st.lock == Some(t)
    && var filled := FilledHandle(st.tasks[t].pc); filled.Some? && filled.value.1 == e && NewLife(st, filled.value.0, born)
  }

  predicate Mapped(st: State, e: Entry, born: map<LifeId, Entry>)
  {
    && e.key in st.table && NewLife(st, st.table[e.key], born) && st.handles[st.table[e.key]].flags.inCache
  }

  predicate Accounts(st: State, t: nat, e: Entry, born: map<LifeId, Entry>)
  {
    && t < |st.tasks| && st.lock == Some(t) && Mapped(st, e, born)
    && (st.tasks[t].pc == Charging(st.table[e.key], e) || st.tasks[t].pc == Counting(st.table[e.key], e))
  }

  /** The entry is mapped and in the cache, in a new life of a handle; the client holds it if it wanted to. */
  predicate Stays(st: State, t: nat, e: Entry, born: map<LifeId, Entry>)
  {
    && t < |st.tasks| && Mapped(st, e, born) && Stores(st.handles[st.table[e.key]], e)
    && st.tasks[t].pc
       == if e.hold then Holding(e.key, st.table[e.key], st.handles[st.table[e.key]].life) else Idle
  }

  /** Nothing of the entry has been stored. */
  predicate TurnedAway(st: State, t: nat, born: map<LifeId, Entry>)
  {
    t < |st.tasks| && st.tasks[t].pc == Idle && st.born == born
  }

  lemma FillBegins(st: State, t: nat, e: Entry, born: map<LifeId, Entry>)
    requires Lives(st) && Enabled(st, Fill(t)) && Prepares(st, t, e, born)
    ensures Fills(Step(st, Fill(t)), t, e, born)
  {
    var h := st.tasks[t].pc.h;
    assert LifeOk(st, LifeId(h, st.handles[h].life + 1));
  }

  lemma PrepareOwn(st: State, a: Action, t: nat, e: Entry, born: map<LifeId, Entry>)
    requires Enabled(st, a) && a.t == t && !a.Fill? && Prepares(st, t, e, born)
    ensures Prepares(Step(st, a), t, e, born)
            || (a == Refuse(t) && Step(st, a).lock == None && TurnedAway(Step(st, a), t, born))
  {
  }

  lemma LinkOwn(st: State, t: nat, e: Entry, born: map<LifeId, Entry>)
    requires Enabled(st, Insert(t)) && PcOk(st, st.tasks[t].pc) && Fills(st, t, e, born)
    ensures Accounts(Step(st, Insert(t)), t, e, born)
  {
  }

  lemma StoreOwn(st: State, a: Action, t: nat, e: Entry, born: map<LifeId, Entry>)
    requires Enabled(st, a) && a.t == t && (a.Store? || a.Displace?) && Fills(st, t, e, born)
    ensures Fills(Step(st, a), t, e, born)
  {
  }

  lemma DisplacedOwn(st: State, a: Action, t: nat, e: Entry, born: map<LifeId, Entry>)
    requires Enabled(st, a) && a.t == t && (a.Unset? || a.Push? || a.Discharge?) && Fills(st, t, e, born)
    ensures Fills(Step(st, a), t, e, born)
  {
  }

  lemma FillActions(st: State, a: Action, t: nat, e: Entry, born: map<LifeId, Entry>)
    requires Enabled(st, a) && a.t == t && Fills(st, t, e, born)
    ensures a.Store? || a.Displace? || a.Unset? || a.Push? || a.Discharge? || a.Insert?
  {
  }

  lemma FillOwn(st: State, a: Action, t: nat, e: Entry, born: map<LifeId, Entry>)
    requires Enabled(st, a) && a.t == t && !a.Insert? && Fills(st, t, e, born)
    ensures Fills(Step(st, a), t, e, born)
  {
    FillActions(st, a, t, e, born);
    if a.Store? || a.Displace? {
      StoreOwn(st, a, t, e, born);
    } else {
      DisplacedOwn(st, a, t, e, born);
    }
  }

  lemma AccountOwn(st: State, a: Action, t: nat, e: Entry, born: map<LifeId, Entry>)
    requires Enabled(st, a) && a.t == t && Accounts(st, t, e, born) && PcOk(st, st.tasks[t].pc)
    ensures Accounts(Step(st, a), t, e, born) || (Step(st, a).lock == None && Stays(Step(st, a), t, e, born))
  {
  }

  lemma InsertStill(st: State, st': State, t: nat, e: Entry, born: map<LifeId, Entry>)
    requires Still(st, st', t)
    ensures Prepares(st, t, e, born) ==> Prepares(st', t, e, born)
    ensures Fills(st, t, e, born) ==> Fills(st', t, e, born)
    ensures Accounts(st, t, e, born) ==> Accounts(st', t, e, born)
  {
  }

  /** Somewhere in the mutex section of an Insert. */
  predicate Inserts(st: State, t: nat, e: Entry, born: map<LifeId, Entry>)
  {
    Prepares(st, t, e, born) || Fills(st, t, e, born) || Accounts(st, t, e, born)
  }

  /** How an insertion ends: with its entry in the cache, or refused for lack of room, with nothing stored. */
  predicate Settles(st: State, a: Action, st': State, t: nat, e: Entry, born: map<LifeId, Entry>)
  {
    Stays(st', t, e, born) || (a == Refuse(t) && TurnedAway(st', t, born))
  }

  ghost predicate RefusedAt(run: seq<State>, m: int, t: nat)
  {
    0 <= m && m + 1 < |run| && Enabled(run[m], Refuse(t)) && run[m + 1] == Step(run[m], Refuse(t))
  }

  ghost predicate Settled(run: seq<State>, m: int, t: nat, e: Entry, born: map<LifeId, Entry>)
    requires 0 <= m && m + 1 < |run|
  {
    Stays(run[m + 1], t, e, born) || (RefusedAt(run, m, t) && TurnedAway(run[m + 1], t, born))
  }

  lemma FilledOwn(st: State, a: Action, t: nat, e: Entry, born: map<LifeId, Entry>)
    requires Enabled(st, a) && a.t == t && Fills(st, t, e, born) && PcOk(st, st.tasks[t].pc)
    ensures Fills(Step(st, a), t, e, born) || Accounts(Step(st, a), t, e, born)
  {
    if a.Insert? {
      LinkOwn(st, t, e, born);
    } else {
      FillOwn(st, a, t, e, born);
    }
  }

  lemma PreparedOwn(st: State, a: Action, t: nat, e: Entry, born: map<LifeId, Entry>)
    requires Lives(st) && Enabled(st, a) && a.t == t && Prepares(st, t, e, born)
    ensures Prepares(Step(st, a), t, e, born) || Fills(Step(st, a), t, e, born)
            || (a == Refuse(t) && Step(st, a).lock == None && TurnedAway(Step(st, a), t, born))
  {
    if a.Fill? {
      FillBegins(st, t, e, born);
    } else {
      PrepareOwn(st, a, t, e, born);
    }
  }

  lemma InsertOwn(st: State, a: Action, t: nat, e: Entry, born: map<LifeId, Entry>)
    requires Inv(st) && Enabled(st, a) && a.t == t && Inserts(st, t, e, born)
    ensures Inserts(Step(st, a), t, e, born) || (Step(st, a).lock == None && Settles(st, a, Step(st, a), t, e, born))
  {
    assert TaskOk(st, t);
    if Prepares(st, t, e, born) {
      PreparedOwn(st, a, t, e, born);
    } else if Fills(st, t, e, born) {
      FilledOwn(st, a, t, e, born);
    } else {
      AccountOwn(st, a, t, e, born);
    }
  }

  ghost predicate InsertMoves(run: seq<State>, m: int, t: nat, e: Entry, born: map<LifeId, Entry>)
  {
    && 0 <= m && m + 1 < |run|
    && (Inserts(run[m], t, e, born) ==>
          Inserts(run[m + 1], t, e, born) || (run[m + 1].lock == None && Settled(run, m, t, e, born)))
  }

  lemma InsertStep(run: seq<State>, m: nat, t: nat, e: Entry, born: map<LifeId, Entry>)
    requires IsRun(run) && m + 1 < |run|
    ensures InsertMoves(run, m, t, e, born)
  {
    var a := StepAt(run, m);
    if Inserts(run[m], t, e, born) {
      if a.t != t {
        OthersStill(run[m], a, t);
        InsertStill(run[m], run[m + 1], t, e, born);
      } else {
        InsertOwn(run[m], a, t, e, born);
      }
    }
  }

  ghost predicate InsertsAlong(run: seq<State>, i: nat, j: nat, t: nat, e: Entry, born: map<LifeId, Entry>)
  {
    forall m {:trigger InsertMoves(run, m, t, e, born)} :: i <= m <= j ==> InsertMoves(run, m, t, e, born)
  }

  lemma {:induction false} InsertEnds(run: seq<State>, i: nat, j: nat, t: nat, e: Entry, born: map<LifeId, Entry>)
    requires Section(run, i, j, t) && Inserts(run[i], t, e, born) && InsertsAlong(run, i, j, t, e, born)
    ensures Settled(run, j, t, e, born)
    decreases j - i
  {
    assert InsertMoves(run, i, t, e, born);
    if i < j {
      InsertEnds(run, i + 1, j, t, e, born);
    }
  }

  lemma InsertsAlways(run: seq<State>, i: nat, j: nat, t: nat, e: Entry, born: map<LifeId, Entry>)
    requires IsRun(run) && j + 1 < |run|
    ensures InsertsAlong(run, i, j, t, e, born)
  {
    forall m | i <= m <= j ensures InsertMoves(run, m, t, e, born) {
      InsertStep(run, m, t, e, born);
    }
  }

  lemma InsertBegins(st: State, t: nat, e: Entry)
    requires Enabled(st, LockInsert(t, e))
    ensures Prepares(Step(st, LockInsert(t, e)), t, e, st.born)
  {
  }

  lemma InsertSection(run: seq<State>, i: nat, j: nat, t: nat, e: Entry, born: map<LifeId, Entry>)
    requires IsRun(run) && Section(run, i, j, t) && Prepares(run[i], t, e, born)
    ensures Settled(run, j, t, e, born)
  {
    InsertsAlways(run, i, j, t, e, born);
    InsertEnds(run, i, j, t, e, born);
  }

  /**
   Insert: when it lets go of the mutex, its key is mapped to a handle in a life that began meanwhile, in the cache, with the
   entry's value and charge, and the client holds it if it wanted to; unless it was refused for lack of room, with nothing stored.
   */
  lemma InsertPutsIn(run: seq<State>, i: nat, j: nat, t: nat, e: Entry)
    requires IsRun(run) && i + 1 < |run| && Enabled(run[i], LockInsert(t, e)) && run[i + 1] == Step(run[i], LockInsert(t, e))
    requires Until(run, i, j, t)
    ensures Stays(run[j], t, e, run[i].born) || (RefusedAt(run, j - 1, t) && TurnedAway(run[j], t, run[i].born))
  {
    InsertBegins(run[i], t, e);
    UntilIsSection(run, i, j, t);
    InsertSection(run, i + 1, j - 1, t, e, run[i].born);
  }

  // ---------------------------------------------------------------- sections end

  /** How many steps of its own a mutex section of a shard of n handles can still take, not counting the sweep. */
  function StepsLeft(pc: Pc, n: nat): int
  {
    match pc
    case Recycling(_, next) => NextLeft(next, n) + 2
    case Discharging(_, next) => NextLeft(next, n) + 1
    case Unsetting(_, next) => NextLeft(next, n) + 3
    case Sweeping(_) => 10
    case Evicting(_, _) => 13
    case Filling(_, _) => 9
    case Storing(_, _) => 8
    case Stored(_, _) => 7
    case Linking(_, _) => 3
    case Charging(_, _) => 2
    case Counting(_, _) => 1
    case Clearing(i) => 1 + 4 * (n - i)
    case _ => 0
  }

  function NextLeft(next: Next, n: nat): int
  {
    match next
    case Done => 0
    case Resume(_) => 10
    case Clear(i) => 1 + 4 * (n - i)
    case Link(_, _) => 3
  }

  /** A clearing section goes through the handles, of which there stay as many as there are. */
  predicate InRange(pc: Pc, n: nat)
  {
    match pc
    case Recycling(_, Clear(i)) => i <= n
    case Discharging(_, Clear(i)) => i <= n
    case Unsetting(_, Clear(i)) => i <= n
    case Clearing(i) => i <= n
    case _ => true
  }

  /** The section of task t is nearer its end in st' than in st, and over exactly if it is at its end. */
  predicate Nearer(st: State, st': State, t: nat)
  {
    && t < |st.tasks| == |st'.tasks| && InRange(st'.tasks[t].pc, |st'.handles|)
    && 0 <= StepsLeft(st'.tasks[t].pc, |st'.handles|) < StepsLeft(st.tasks[t].pc, |st.handles|)
    && (StepsLeft(st'.tasks[t].pc, |st'.handles|) == 0 <==> !InMutex(st'.tasks[t].pc))
  }

  lemma UnsetNears(st: State, t: nat)
    requires Enabled(st, Unset(t)) && InRange(st.tasks[t].pc, |st.handles|)
    ensures Nearer(st, Step(st, Unset(t)), t)
  {
  }

  lemma PushNears(st: State, t: nat)
    requires Enabled(st, Push(t)) && InRange(st.tasks[t].pc, |st.handles|)
    ensures Nearer(st, Step(st, Push(t)), t)
  {
  }

  lemma DischargeNears(st: State, t: nat)
    requires Enabled(st, Discharge(t)) && InRange(st.tasks[t].pc, |st.handles|)
    ensures Nearer(st, Step(st, Discharge(t)), t)
  {
  }

  lemma SweepingNears(st: State, a: Action)
    requires Enabled(st, a) && (a.EraseEvicted? || a.Refuse? || a.Take?)
    ensures Nearer(st, Step(st, a), a.t)
  {
  }

  lemma FillingNears(st: State, a: Action)
    requires Enabled(st, a) && (a.Fill? || a.Store?)
    ensures Nearer(st, Step(st, a), a.t)
  {
  }

  lemma DisplaceNears(st: State, t: nat)
    requires Enabled(st, Displace(t))
    ensures Nearer(st, Step(st, Displace(t)), t)
  {
  }

  lemma AccountingNears(st: State, a: Action)
    requires Enabled(st, a) && (a.Insert? || a.ChargeNew? || a.Count?)
    ensures Nearer(st, Step(st, a), a.t)
  {
  }

  lemma ClearingNears(st: State, t: nat)
    requires Enabled(st, ClearNext(t)) && InRange(st.tasks[t].pc, |st.handles|)
    ensures Nearer(st, Step(st, ClearNext(t)), t)
  {
  }

  predicate RecyclingAction(a: Action) { a.Push? || a.Discharge? || a.Unset? }

  predicate PreparingAction(a: Action) { a.EraseEvicted? || a.Refuse? || a.Take? || a.Fill? || a.Store? }

  predicate PublishingAction(a: Action) { a.Displace? || a.Insert? || a.ChargeNew? || a.Count? }

  lemma SectionActions(st: State, a: Action)
    requires Enabled(st, a) && InMutex(st.tasks[a.t].pc) && !a.TryEvict?
    ensures RecyclingAction(a) || PreparingAction(a) || PublishingAction(a) || a.ClearNext?
  {
  }

  lemma StepNears(st: State, a: Action)
    requires Enabled(st, a) && InMutex(st.tasks[a.t].pc) && !a.TryEvict? && InRange(st.tasks[a.t].pc, |st.handles|)
    ensures Nearer(st, Step(st, a), a.t)
  {
    SectionActions(st, a);
    if a.Unset? {
      UnsetNears(st, a.t);
    } else if a.Push? {
      PushNears(st, a.t);
    } else if a.Discharge? {
      DischargeNears(st, a.t);
    } else if a.Fill? || a.Store? {
      FillingNears(st, a);
    } else if PreparingAction(a) {
      SweepingNears(st, a);
    } else if a.Displace? {
      DisplaceNears(st, a.t);
    } else if PublishingAction(a) {
      AccountingNears(st, a);
    } else {
      ClearingNears(st, a.t);
    }
  }

  /** The steps that take the mutex, and the attempts to evict. */
  predicate LockingAction(a: Action) { a.LockRecycle? || a.LockInsert? || a.LockErase? || a.LockClear? || a.TryEvict? }

  lemma LookingInRange(st: State, a: Action)
    requires Enabled(st, a) && LookingAction(a)
    ensures a.t < |Step(st, a).tasks| && InRange(Step(st, a).tasks[a.t].pc, |Step(st, a).handles|)
  {
  }

  lemma ReleasingInRange(st: State, a: Action)
    requires Enabled(st, a) && ReleasingAction(a) && InRange(st.tasks[a.t].pc, |st.handles|)
    ensures a.t < |Step(st, a).tasks| && InRange(Step(st, a).tasks[a.t].pc, |Step(st, a).handles|)
  {
  }

  lemma LockingInRange(st: State, a: Action)
    requires Enabled(st, a) && LockingAction(a)
    ensures a.t < |Step(st, a).tasks| && InRange(Step(st, a).tasks[a.t].pc, |Step(st, a).handles|)
  {
  }

  lemma OutsideActions(st: State, a: Action)
    requires Enabled(st, a) && (!InMutex(st.tasks[a.t].pc) || a.TryEvict?)
    ensures LookingAction(a) || ReleasingAction(a) || LockingAction(a)
  {
  }

  lemma OutsideInRange(st: State, a: Action)
    requires Enabled(st, a) && (!InMutex(st.tasks[a.t].pc) || a.TryEvict?) && InRange(st.tasks[a.t].pc, |st.handles|)
    ensures a.t < |Step(st, a).tasks| && InRange(Step(st, a).tasks[a.t].pc, |Step(st, a).handles|)
  {
    OutsideActions(st, a);
    if LookingAction(a) {
      LookingInRange(st, a);
    } else if ReleasingAction(a) {
      ReleasingInRange(st, a);
    } else {
      LockingInRange(st, a);
    }
  }

  lemma KeepInRange(st: State, a: Action, t: nat)
    requires Enabled(st, a) && t < |st.tasks| && InRange(st.tasks[t].pc, |st.handles|)
    ensures t < |Step(st, a).tasks| && InRange(Step(st, a).tasks[t].pc, |Step(st, a).handles|)
  {
    FramedStep(st, a);
    if a.t == t {
      if InMutex(st.tasks[t].pc) && !a.TryEvict? {
        StepNears(st, a);
      } else {
        OutsideInRange(st, a);
      }
    }
  }

  lemma {:induction false} EveryStateInRange(run: seq<State>, i: nat, t: nat)
    requires IsRun(run) && i < |run| && t < |run[i].tasks|
    ensures InRange(run[i].tasks[t].pc, |run[i].handles|)
  {
    if i > 0 {
      var a := StepAt(run, i - 1);
      FramedStep(run[i - 1], a);
      EveryStateInRange(run, i - 1, t);
      KeepInRange(run[i - 1], a, t);
    }
  }

  /**
   In every run each step of a mutex section but the attempts to evict brings it nearer its end: an erase ends within three
   steps of its own, a clearing within four for each handle and one, an insertion within ten once it stops sweeping.
   */
  lemma SectionsEnd(run: seq<State>, i: nat, a: Action)
    requires IsRun(run) && i < |run| && Enabled(run[i], a) && InMutex(run[i].tasks[a.t].pc) && !a.TryEvict?
    ensures Nearer(run[i], Step(run[i], a), a.t)
  {
    EveryStateInRange(run, i, a.t);
    StepNears(run[i], a);
  }
}
