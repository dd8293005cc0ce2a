/** What the SuperVersion protocol guarantees in every run, for any number of threads and any interleaving. */
module SuperVersionTheorems {
  import opened Options
  import opened Sums
  import opened SuperVersionProtocol
  import opened SuperVersionSafety

  lemma KeepInv(st: State, st': State)
    requires Inv(st) && StepOf(st, st')
    ensures Inv(st')
  {
    var a := ActionOf(st, st');
    KeepStep(st, a);
  }

  lemma KeepInvAt(run: seq<State>, i: nat)
    requires IsRun(run) && i < |run| - 1 && Inv(run[i])
    ensures Inv(run[i + 1])
  {
    assert StepFrom(run, i);
    KeepInv(run[i], run[i + 1]);
  }

  lemma {:induction false} EveryStateInv(run: seq<State>, i: nat)
    requires IsRun(run) && i < |run|
    ensures Inv(run[i])
  {
    if i == 0 {
      InitInv(run[0]);
    } else {
      EveryStateInv(run, i - 1);
      KeepInvAt(run, i - 1);
    }
  }

  // ---------------------------------------------------------------- counts and cleanup

  /** Each count is exactly the installed (or replaced) reference plus slots plus in-flight and outside holders;
      while anybody holds a SuperVersion it is not cleaned up. */
  lemma CountsAreExact(run: seq<State>, i: nat, s: nat)
    requires IsRun(run) && i < |run| && s < |run[i].svs|
    ensures run[i].svs[s].refs == Holders(run[i], s) >= 0
    ensures Holders(run[i], s) > 0 ==> run[i].svs[s].cleanups == 0
    ensures run[i].svs[s].cleanups <= 1
  {
    EveryStateInv(run, i);
    NonNegative(run[i]);
    assert run[i].svs[s].refs == Holders(run[i], s);
    assert run[i].svs[s].cleanups + Owed(run[i], s) == if run[i].svs[s].refs == 0 then 1 else 0;
  }

  lemma CleanupsGrowInJob(st: State, s: nat)
    requires JobEnabled(st) && s < |st.svs|
    ensures s < |NextJob(st).svs| && NextJob(st).svs[s].cleanups >= st.svs[s].cleanups
  {
  }

  lemma CleanupsStay(st: State, a: Action, s: nat)
    requires Enabled(st, a) && !a.JobStep? && s < |st.svs|
    ensures s < |Next(st, a).svs| && Next(st, a).svs[s].cleanups == st.svs[s].cleanups
  {
  }

  lemma CleanupsGrow(st: State, a: Action, s: nat)
    requires Enabled(st, a) && s < |st.svs|
    ensures s < |Next(st, a).svs| && Next(st, a).svs[s].cleanups >= st.svs[s].cleanups
  {
    if a.JobStep? {
      CleanupsGrowInJob(st, s);
    } else {
      CleanupsStay(st, a, s);
    }
  }

  /** Once cleaned up, a SuperVersion is never referenced and never cleaned up again. */
  lemma {:induction false} CleanedStaysDead(run: seq<State>, i: nat, j: nat, s: nat)
    requires IsRun(run) && i <= j < |run| && s < |run[i].svs| && run[i].svs[s].cleanups > 0
    ensures s < |run[j].svs| && run[j].svs[s].cleanups == 1 && Holders(run[j], s) == 0
    decreases j - i
  {
    if i == j {
      CountsAreExact(run, i, s);
    } else {
      var a := ActionAt(run, i);
      CleanupsGrow(run[i], a, s);
      CleanedStaysDead(run, i + 1, j, s);
    }
  }

  // ---------------------------------------------------------------- the source's assertions

  /** The assertions the source makes at each step. */
  predicate AssertionsHold(st: State, a: Action)
    requires Enabled(st, a)
  {
    match a
    case Swap(t) => st.threads[t].slot != InUse
    case DropStale(t) => st.svs[st.threads[t].pc.sv].refs > 0
    case Return(t) => st.threads[t].slot == InUse || st.threads[t].slot == Obsolete
    case DropExtra(t) => st.svs[st.threads[t].pc.sv].refs > 1
    case Exit(t) => st.threads[t].slot.Cached? ==> st.svs[st.threads[t].slot.sv].refs > 1
    case DropPin(s) => st.svs[s].refs > 0
    case JobStep => JobAssertionsHold(st)
    case _ => true
  }

  predicate JobAssertionsHold(st: State)
    requires JobEnabled(st)
  {
    match st.job
    case Drain(_, ptrs) =>
      ptrs != [] ==> ptrs[0] != Obsolete && (ptrs[0].Cached? ==> st.svs[ptrs[0].sv].refs > 1)
    case UnrefOld(prev) => st.svs[prev].refs > 0
    case CleanUp(sv, _) => st.svs[sv].refs == 0
    case UnrefCfd(_) => st.refs > 0 && (st.refs == 1 ==> st.current.None?)
    case Reclaim(_, i, _) =>
      i < |st.threads| ==>
        st.threads[i].slot != InUse && (st.threads[i].slot.Cached? ==> st.svs[st.threads[i].slot.sv].refs > 1)
    case UnrefSuper(sv, _) => st.svs[sv].refs > 0
    case DeleteCfd(_) => st.refs == 0 && st.current.None?
    case _ => true
  }

  lemma JobAssertions(st: State)
    requires Inv(st) && JobEnabled(st)
    ensures JobAssertionsHold(st)
  {
    NonNegative(st);
    if st.current.Some? {
      CurrentAlive(st);
    }
    match st.job
    case Drain(prev, ptrs) =>
      if ptrs != [] && ptrs[0].Cached? {
        ScrapedNotLast(st);
      }
    case UnrefOld(prev) => assert st.svs[prev].refs == Holders(st, prev);
    case UnrefSuper(sv, _) => assert st.svs[sv].refs == Holders(st, sv);
    case CleanUp(sv, _) => assert st.svs[sv].cleanups + Owed(st, sv) == if st.svs[sv].refs == 0 then 1 else 0;
    case Reclaim(_, i, _) =>
      if i < |st.threads| {
        assert ThreadOk(st, i);
        ThreadShare(st.threads, i, 0);
        if st.threads[i].slot.Cached? {
          SlotNotLast(st, i);
        }
      }
    case _ =>
  }

  lemma ThreadAssertions(st: State, a: Action)
    requires Inv(st) && Enabled(st, a) && !a.JobStep?
    ensures AssertionsHold(st, a)
  {
    match a
    case Swap(t) => assert ThreadOk(st, t);
    case DropStale(t) => HolderSees(st, st.threads[t].pc.sv, t);
    case Return(t) => assert ThreadOk(st, t);
    case DropExtra(t) => HolderSees(st, st.threads[t].pc.sv, t);
    case Exit(t) =>
      if st.threads[t].slot.Cached? {
        SlotNotLast(st, t);
      }
    case DropPin(s) =>
      NonNegative(st);
      assert st.svs[s].refs == Holders(st, s);
    case _ =>
  }

  /** Get never swaps out kSVInUse, a failed compare-and-swap sees kSVObsolete, no slot ever held the last reference,
      no count underflows, Cleanup runs at count zero, and the column family dies without a SuperVersion. */
  lemma EveryAssertionHolds(run: seq<State>, i: nat, a: Action)
    requires IsRun(run) && i < |run| && Enabled(run[i], a)
    ensures AssertionsHold(run[i], a)
  {
    EveryStateInv(run, i);
    if a.JobStep? {
      JobAssertions(run[i]);
    } else {
      ThreadAssertions(run[i], a);
    }
  }

  /** A slot holds kSVObsolete, kSVInUse while its thread reads, the installed SuperVersion, or the one being replaced
      or torn down until the slot is scraped; and what it caches has another holder. */
  lemma SlotContents(run: seq<State>, i: nat, t: nat)
    requires IsRun(run) && i < |run| && t < |run[i].threads|
    ensures match run[i].threads[t].slot
            case Obsolete => true
            case InUse => !run[i].threads[t].pc.Idle? && !run[i].threads[t].pc.Ready?
            case Cached(s) =>
              && Cacheable(run[i], t, s) && s < |run[i].svs| && run[i].svs[s].refs >= 2 && run[i].svs[s].cleanups == 0
  {
    var st := run[i];
    EveryStateInv(run, i);
    assert ThreadOk(st, t);
    if st.threads[t].slot.Cached? {
      SlotNotLast(st, t);
      CountsAreExact(run, i, st.threads[t].slot.sv);
    }
  }

  // ---------------------------------------------------------------- which SuperVersion a reader gets

  /** The lock-free path returns the installed SuperVersion, or the one an installer has replaced without having
      advanced the version number yet. */
  lemma FastPathIsCurrent(run: seq<State>, i: nat, t: nat)
    requires IsRun(run) && i < |run| && Enabled(run[i], Check(t))
    requires Next(run[i], Check(t)).threads[t].pc.Reading?
    ensures var s := run[i].threads[t].pc.ptr.sv;
            if run[i].job.Bump? then run[i].job.was == Some(s) else run[i].current == Some(s)
  {
    var st := run[i];
    EveryStateInv(run, i);
    assert ThreadOk(st, t);
    ReaderKeepsPublished(st, t);
  }

  /** The new SuperVersion is stored, and its number is not. */
  predicate Unstamped(st: State) { st.job.Bump? || st.job.Stamp? }

  /** Until it has its number, a new SuperVersion is referenced by its installer alone. */
  predicate Unshared(st: State)
  {
    Unstamped(st) ==> |st.svs| > 0 && st.svs[|st.svs| - 1].refs == 1
  }

  lemma NobodyElse(st: State, t: nat)
    requires Inv(st) && Unstamped(st) && Unshared(st) && t < |st.threads|
    ensures ThreadHolds(|st.svs| - 1)(st.threads[t]) == 0
  {
    NonNegative(st);
    ThreadShare(st.threads, t, |st.svs| - 1);
    assert st.svs[|st.svs| - 1].refs == Holders(st, |st.svs| - 1);
  }

  /** Only Install begins the numbering, and only the installer ends it. */
  lemma NumberingBegins(st: State, a: Action)
    requires Enabled(st, a) && !Unstamped(st) && Unstamped(Next(st, a))
    ensures a == Install
  {
  }

  lemma NumberingUnshared(st: State)
    requires Inv(st) && Unshared(st) && Unstamped(st)
    ensures JobEnabled(st) && Unshared(NextJob(st))
  {
  }

  /** The steps that drop or add a reference to a SuperVersion a thread holds. */
  predicate Counts(a: Action) { a.DropStale? || a.ExtraRef? || a.DropExtra? || a.Exit? }

  lemma CountsElsewhere(st: State, a: Action)
    requires Unshared(st) && Unstamped(st) && Enabled(st, a) && Counts(a)
    requires ThreadHolds(|st.svs| - 1)(st.threads[a.t]) == 0
    ensures Unshared(Next(st, a))
  {
  }

  lemma PinElsewhere(st: State, s: nat)
    requires Unshared(st) && Unstamped(st) && Enabled(st, DropPin(s)) && st.svs[|st.svs| - 1].pins == 0
    ensures Unshared(Next(st, DropPin(s)))
  {
  }

  lemma NoPins(st: State)
    requires Inv(st) && Unstamped(st) && Unshared(st)
    ensures st.svs[|st.svs| - 1].pins == 0
  {
    NonNegative(st);
    assert st.svs[|st.svs| - 1].refs == Holders(st, |st.svs| - 1);
  }

  lemma NothingCounted(st: State, a: Action)
    requires Unshared(st) && Unstamped(st) && Enabled(st, a) && !Counts(a) && !a.DropPin? && !a.JobStep?
    ensures Unshared(Next(st, a))
  {
  }

  lemma KeepUnshared(st: State, a: Action)
    requires Inv(st) && Unshared(st) && Enabled(st, a)
    ensures Unshared(Next(st, a))
  {
    if !Unstamped(st) {
      if Unstamped(Next(st, a)) {
        NumberingBegins(st, a);
      }
    } else if a.JobStep? {
      NumberingUnshared(st);
    } else if a.DropPin? {
      NoPins(st);
      PinElsewhere(st, a.s);
    } else if Counts(a) {
      NobodyElse(st, a.t);
      CountsElsewhere(st, a);
    } else {
      NothingCounted(st, a);
    }
  }

  lemma {:induction false} EveryStateUnshared(run: seq<State>, i: nat)
    requires IsRun(run) && i < |run|
    ensures Unshared(run[i])
  {
    if i > 0 {
      EveryStateUnshared(run, i - 1);
      EveryStateInv(run, i - 1);
      var a := ActionAt(run, i - 1);
      KeepUnshared(run[i - 1], a);
    }
  }

  /** What a reader holds is obsolete exactly when its version number is not the column family's, or a newer one is just
      being numbered. */
  lemma ObsoleteByNumberIff(run: seq<State>, i: nat, t: nat)
    requires IsRun(run) && i < |run| && t < |run[i].threads| && run[i].threads[t].pc.Reading?
    ensures run[i].threads[t].pc.sv < |run[i].svs|
    ensures run[i].current != Some(run[i].threads[t].pc.sv)
            <==> Unstamped(run[i]) || run[i].svs[run[i].threads[t].pc.sv].number != run[i].number
  {
    EveryStateInv(run, i);
    EveryStateUnshared(run, i);
    assert ThreadOk(run[i], t);
    ReaderKeepsPublished(run[i], t);
    if Unstamped(run[i]) {
      NobodyElse(run[i], t);
    }
  }

  // ---------------------------------------------------------------- which refused readers are behind

  /** A number beyond that of SuperVersion s has been given out. */
  predicate Past(st: State, s: nat) { s + 1 < st.number }

  lemma PastIsObsolete(st: State, s: nat)
    requires Inv(st) && Past(st, s)
    ensures st.current != Some(s)
  {
  }

  /** On its way from the slot to the caller, or with the caller. */
  predicate Carries(th: Thread, s: nat)
  {
    th.pc == Swapped(Cached(s)) || (th.pc.Reading? && th.pc.sv == s)
  }

  /** If the slot has been scraped since, the SuperVersion is past. */
  predicate ScrapedIsPast(st: State, t: nat, s: nat)
    requires t < |st.threads|
  {
    st.threads[t].slot == Obsolete ==> Past(st, s)
  }

  /** A slot in use is scraped by the installer that replaces what its reader carries. */
  lemma ScrapePast(st: State, t: nat, s: nat)
    requires Inv(st) && t < |st.threads| && Carries(st.threads[t], s) && ScrapedIsPast(st, t, s)
    requires st.job != Unlocked && JobEnabled(st) && |NextJob(st).threads| == |st.threads|
    requires Carries(NextJob(st).threads[t], s)
    ensures ScrapedIsPast(NextJob(st), t, s)
  {
    assert ThreadOk(st, t);
    ReaderKeepsPublished(st, t);
  }

  lemma ThreadsStay(st: State, a: Action)
    requires Enabled(st, a)
    ensures |Next(st, a).threads| == |st.threads| && |Next(st, a).svs| >= |st.svs| && Next(st, a).number >= st.number
  {
  }

  /** Nobody but the mutex holder takes the slot of a reader. */
  lemma NotScraped(st: State, a: Action, t: nat, s: nat)
    requires Enabled(st, a) && !a.JobStep? && t < |st.threads| == |Next(st, a).threads|
    requires Carries(st.threads[t], s) && Carries(Next(st, a).threads[t], s) && ScrapedIsPast(st, t, s)
    ensures ScrapedIsPast(Next(st, a), t, s)
  {
  }

  lemma KeepScrapedIsPast(st: State, a: Action, t: nat, s: nat)
    requires Inv(st) && Enabled(st, a) && t < |st.threads| == |Next(st, a).threads|
    requires Carries(st.threads[t], s) && Carries(Next(st, a).threads[t], s) && ScrapedIsPast(st, t, s)
    ensures ScrapedIsPast(Next(st, a), t, s)
  {
    if a.JobStep? {
      ScrapePast(st, t, s);
    } else {
      NotScraped(st, a, t, s);
    }
  }

  ghost predicate CarriesAlong(run: seq<State>, i: nat, j: nat, t: nat, s: nat)
    requires i <= j < |run|
  {
    forall k :: i <= k <= j ==> t < |run[k].threads| && Carries(run[k].threads[t], s)
  }

  lemma {:induction false} ScrapedAlong(run: seq<State>, i: nat, j: nat, t: nat, s: nat)
    requires IsRun(run) && i <= j < |run| && CarriesAlong(run, i, j, t, s) && ScrapedIsPast(run[i], t, s)
    ensures ScrapedIsPast(run[j], t, s)
    decreases j
  {
    if i < j {
      ScrapedAlong(run, i, j - 1, t, s);
      EveryStateInv(run, j - 1);
      var a := ActionAt(run, j - 1);
      ThreadsStay(run[j - 1], a);
      KeepScrapedIsPast(run[j - 1], a, t, s);
    }
  }

  /**
   A reader on the lock-free path: it swapped SuperVersion s out of its slot in step i and has carried it since. If it is
   refused, what it holds is obsolete.
   */
  lemma FastRefusedIsObsolete(run: seq<State>, i: nat, j: nat, t: nat, s: nat)
    requires IsRun(run) && i < j < |run| && t < |run[i].threads|
    requires run[i].threads[t].slot == Cached(s) && Enabled(run[i], Swap(t)) && run[i + 1] == Next(run[i], Swap(t))
    requires CarriesAlong(run, i + 1, j, t, s) && run[j].threads[t].pc.Reading? && run[j].threads[t].slot == Obsolete
    ensures run[j].current != Some(s)
  {
    ScrapedIsObsolete(run, i + 1, j, t, s);
  }

  lemma BeginsSwapped(st: State, a: Action, t: nat)
    requires Enabled(st, a) && t < |st.threads| == |Next(st, a).threads|
    requires Next(st, a).threads[t].pc.Swapped? && st.threads[t].pc != Next(st, a).threads[t].pc
    ensures Next(st, a).threads[t].slot == InUse
  {
  }

  lemma {:induction false} SwappedIsPast(run: seq<State>, i: nat, t: nat, s: nat)
    requires IsRun(run) && i < |run| && t < |run[i].threads| && run[i].threads[t].pc == Swapped(Cached(s))
    ensures ScrapedIsPast(run[i], t, s)
  {
    if i > 0 {
      var a := ActionAt(run, i - 1);
      ThreadsStay(run[i - 1], a);
      if run[i - 1].threads[t].pc == Swapped(Cached(s)) {
        SwappedIsPast(run, i - 1, t, s);
        EveryStateInv(run, i - 1);
        KeepScrapedIsPast(run[i - 1], a, t, s);
      } else {
        BeginsSwapped(run[i - 1], a, t);
      }
    }
  }

  /** Reading begins with a successful comparison of numbers, or under the mutex with what is installed. */
  lemma BeginsReading(st: State, a: Action, t: nat, s: nat)
    requires Enabled(st, a) && t < |st.threads| == |Next(st, a).threads|
    requires !st.threads[t].pc.Reading? && Next(st, a).threads[t].pc == Reading(s, false)
    ensures Next(st, a).threads[t].slot == st.threads[t].slot
    ensures || (st.threads[t].pc == Swapped(Cached(s)) && s < |st.svs| && st.svs[s].number == st.number)
            || (st.job == TakeCurrent(t) && st.current == Some(s) && |Next(st, a).svs| == |st.svs|)
  {
  }

  lemma ComparedInUse(st: State, t: nat, s: nat)
    requires Inv(st) && t < |st.threads| && st.threads[t].pc == Swapped(Cached(s)) && ScrapedIsPast(st, t, s)
    requires s < |st.svs| && st.svs[s].number == st.number
    ensures st.threads[t].slot == InUse
  {
    assert ThreadOk(st, t);
  }

  lemma TakenUnderMutex(st: State, t: nat, s: nat)
    requires Inv(st) && t < |st.threads| && st.job == TakeCurrent(t) && st.current == Some(s)
    ensures st.threads[t].pc == InMutex && s == |st.svs| - 1
  {
    assert ThreadOk(st, t);
  }

  /** Where a reader begins to read s in step i, its slot is in use, or s is installed. */
  lemma InUseOrInstalled(run: seq<State>, i: nat, t: nat, s: nat)
    requires IsRun(run) && i + 1 < |run| && t < |run[i].threads| && t < |run[i + 1].threads|
    requires !run[i].threads[t].pc.Reading? && run[i + 1].threads[t].pc == Reading(s, false)
    ensures run[i + 1].threads[t].slot == InUse || s == |run[i + 1].svs| - 1
    ensures run[i].threads[t].pc.Swapped? ==> run[i + 1].threads[t].slot == InUse
  {
    var a := ActionAt(run, i);
    ThreadsStay(run[i], a);
    BeginsReading(run[i], a, t, s);
    EveryStateInv(run, i);
    if run[i].threads[t].pc == Swapped(Cached(s)) && s < |run[i].svs| && run[i].svs[s].number == run[i].number {
      SwappedIsPast(run, i, t, s);
      ComparedInUse(run[i], t, s);
    } else {
      TakenUnderMutex(run[i], t, s);
    }
  }

  lemma {:induction false} SuperVersionsGrow(run: seq<State>, i: nat, j: nat)
    requires IsRun(run) && i <= j < |run|
    ensures |run[i].svs| <= |run[j].svs|
    decreases j
  {
    if i < j {
      SuperVersionsGrow(run, i, j - 1);
      var a := ActionAt(run, j - 1);
      ThreadsStay(run[j - 1], a);
    }
  }

  /** While someone reads, the newest SuperVersion is installed. */
  lemma NewestInstalled(run: seq<State>, i: nat, t: nat)
    requires IsRun(run) && i < |run| && t < |run[i].threads| && run[i].threads[t].pc.Reading?
    ensures |run[i].svs| > 0 && run[i].current == Some(|run[i].svs| - 1) && run[i].threads[t].pc.sv < |run[i].svs|
    ensures run[i].threads[t].slot == InUse || run[i].threads[t].slot == Obsolete
  {
    EveryStateInv(run, i);
    assert ThreadOk(run[i], t);
    ReaderKeepsPublished(run[i], t);
  }

  lemma ScrapedIsObsolete(run: seq<State>, i: nat, j: nat, t: nat, s: nat)
    requires IsRun(run) && i <= j < |run| && CarriesAlong(run, i, j, t, s)
    requires run[i].threads[t].slot == InUse && run[j].threads[t].slot == Obsolete
    ensures run[j].current != Some(s)
  {
    ScrapedAlong(run, i, j, t, s);
    EveryStateInv(run, j);
    PastIsObsolete(run[j], s);
  }

  /** The newest SuperVersion stays installed until another one is. */
  lemma InstalledSinceIff(run: seq<State>, i: nat, j: nat, t: nat, s: nat)
    requires IsRun(run) && i <= j < |run| && t < |run[j].threads| && run[j].threads[t].pc.Reading? && s == |run[i].svs| - 1
    ensures run[j].current != Some(s) <==> |run[j].svs| > |run[i].svs|
  {
    SuperVersionsGrow(run, i, j);
    NewestInstalled(run, j, t);
  }

  /**
   A reader that began to read s in step i, by either path, and is refused at j: what it holds is obsolete exactly if its
   slot was in use when it began, or a SuperVersion has been installed since. On the lock-free path the slot always is in use;
   only the path through the mutex can begin with a slot that is scraped already.
   */
  lemma RefusedIsObsoleteIff(run: seq<State>, i: nat, j: nat, t: nat, s: nat)
    requires IsRun(run) && i < j < |run| && t < |run[i].threads| && CarriesAlong(run, i + 1, j, t, s)
    requires !run[i].threads[t].pc.Reading? && run[i + 1].threads[t].pc == Reading(s, false)
    requires run[j].threads[t].pc.Reading? && run[j].threads[t].slot == Obsolete
    ensures run[j].current != Some(s) <==> run[i + 1].threads[t].slot == InUse || |run[j].svs| > |run[i + 1].svs|
    ensures run[i].threads[t].pc.Swapped? ==> run[i + 1].threads[t].slot == InUse
  {
    InUseOrInstalled(run, i, t, s);
    if run[i + 1].threads[t].slot == InUse {
      ScrapedIsObsolete(run, i + 1, j, t, s);
    } else {
      InstalledSinceIff(run, i + 1, j, t, s);
    }
  }

  lemma ExtendRun(run: seq<State>, a: Action)
    requires IsRun(run) && Enabled(run[|run| - 1], a)
    ensures IsRun(run + [Next(run[|run| - 1], a)])
  {
    var longer := run + [Next(run[|run| - 1], a)];
    forall i | 0 <= i < |longer| - 1 ensures StepFrom(longer, i) {
      if i < |run| - 1 {
        assert StepFrom(run, i);
      } else {
        assert StepOf(run[i], longer[i + 1]);
      }
    }
  }

  lemma Then(run: seq<State>, st: State, a: Action) returns (run': seq<State>, st': State)
    requires IsRun(run) && st == run[|run| - 1] && Enabled(st, a)
    ensures IsRun(run') && st' == run'[|run'| - 1] && st' == Next(st, a)
  {
    ExtendRun(run, a);
    run', st' := run + [Next(st, a)], Next(st, a);
  }

  lemma FirstInstall() returns (run: seq<State>, st: State)
    ensures IsRun(run) && st == run[|run| - 1]
    ensures st == State([SuperVersion(1, 1, 0, 0, 0)], 2, Some(0), 1, 0, 1, [Thread(Idle, Obsolete)], Unlocked)
  {
    st := State([], 1, None, 0, 0, 1, [Thread(Idle, Obsolete)], Unlocked);
    run := [st];
    run, st := Then(run, st, Install);
    run, st := Then(run, st, JobStep);
    run, st := Then(run, st, JobStep);
  }

  lemma ReaderWaits() returns (run: seq<State>, st: State)
    ensures IsRun(run) && st == run[|run| - 1]
    ensures st == State([SuperVersion(1, 1, 0, 0, 0)], 3, Some(0), 1, 0, 1, [Thread(MustLock, InUse)], Unlocked)
  {
    run, st := FirstInstall();
    run, st := Then(run, st, RefCfd);
    run, st := Then(run, st, Adopt(0));
    run, st := Then(run, st, Swap(0));
    run, st := Then(run, st, Check(0));
  }

  lemma SlotScraped() returns (run: seq<State>, st: State)
    ensures IsRun(run) && st == run[|run| - 1]
    ensures st == State([SuperVersion(1, 1, 0, 0, 0), SuperVersion(1, 2, 0, 0, 0)], 4, Some(1), 2, 0, 1,
                        [Thread(MustLock, Obsolete)], Drain(0, [InUse]))
  {
    run, st := ReaderWaits();
    run, st := Then(run, st, Install);
    run, st := Then(run, st, JobStep);
    run, st := Then(run, st, JobStep);
    assert st.svs == [SuperVersion(1, 1, 0, 0, 0), SuperVersion(1, 2, 0, 0, 0)];
    run, st := Then(run, st, JobStep);
    assert st.threads == [Thread(MustLock, Obsolete)] && st.job.ptrs == [InUse];
    run, st := Then(run, st, JobStep);
  }

  lemma OldReleased() returns (run: seq<State>, st: State)
    ensures IsRun(run) && st == run[|run| - 1]
    ensures st == State([SuperVersion(0, 1, 0, 0, 1), SuperVersion(1, 2, 0, 0, 0)], 3, Some(1), 2, 0, 1,
                        [Thread(MustLock, Obsolete)], Unlocked)
  {
    run, st := SlotScraped();
    run, st := Then(run, st, JobStep);
    run, st := Then(run, st, JobStep);
    run, st := Then(run, st, JobStep);
    run, st := Then(run, st, JobStep);
    run, st := Then(run, st, JobStep);
  }

  /** A run in which a reader is refused although it holds the installed SuperVersion: it waited for the mutex, its
      slot already kSVInUse, while an installer scraped the slot, and then took the new SuperVersion. */
  lemma RefusedWhileCurrent() returns (run: seq<State>)
    ensures IsRun(run)
    ensures var st := run[|run| - 1];
            && |st.threads| == 1 && st.threads[0] == Thread(Reading(1, false), Obsolete) && st.current == Some(1)
            && Enabled(st, Return(0)) && Next(st, Return(0)).threads[0] == Thread(Ready, Obsolete)
  {
    var st;
    run, st := OldReleased();
    run, st := Then(run, st, LockForGet(0));
    run, st := Then(run, st, JobStep);
  }

  // ---------------------------------------------------------------- the ownership cycle

  /** No outside holder of the column family or of any SuperVersion remains. */
  predicate Clientless(st: State)
  {
    && st.handles == 0
    && (forall t :: 0 <= t < |st.threads| ==> st.threads[t].pc.Idle?)
    && (forall s :: 0 <= s < |st.svs| ==> st.svs[s].pins == 0)
  }

  /** Both are gone: the column family deleted once, every SuperVersion cleaned up once, no slot caching anything. */
  predicate TornDown(st: State)
  {
    && st.deletions == 1 && st.refs == 0 && st.current.None?
    && (forall s :: 0 <= s < |st.svs| ==> st.svs[s].cleanups == 1 && st.svs[s].refs == 0)
    && (forall t :: 0 <= t < |st.threads| ==> !st.threads[t].slot.Cached?)
  }

  /** Never earlier: a client of the column family keeps it alive, a client of a SuperVersion keeps that alive, and
      nothing is deleted twice. */
  lemma NotTornDownEarly(run: seq<State>, i: nat)
    requires IsRun(run) && i < |run|
    ensures run[i].deletions <= 1
    ensures Outside(run[i]) > 0 ==> run[i].deletions == 0
    ensures forall s :: 0 <= s < |run[i].svs| && run[i].svs[s].pins > 0 ==>
              run[i].svs[s].cleanups == 0 && run[i].deletions == 0
  {
    var st := run[i];
    EveryStateInv(run, i);
    NonNegative(st);
    forall s | 0 <= s < |st.svs| && st.svs[s].pins > 0
      ensures st.svs[s].cleanups == 0 && st.deletions == 0
    {
      CountsAreExact(run, i, s);
      SumAtLeast(st.svs, s, Uncleaned());
    }
  }

  function Unclaimed(): SuperVersion -> int
  {
    (sv: SuperVersion) => sv.unclaimed
  }

  function Rank(st: State): int
  {
    var n := |st.threads|;
    match st.job
    case Unlocked => 0
    case Bump(_) => 8 + 2 * n
    case Stamp(_) => 7 + 2 * n
    case Scrape(_, i, ptrs) => 6 + 2 * (n - i) + |ptrs|
    case Drain(_, ptrs) => 5 + |ptrs|
    case UnrefOld(_) => 4
    case TakeCurrent(_) => 0
    case CleanUp(_, _) => 3
    case UnrefCfd(_) => 2
    case BreakCycle(_) => 1
    case Reclaim(_, i, _) => 5 + n - i
    case UnrefSuper(_, _) => 4
    case DeleteCfd(_) => 1
  }

  /** An upper bound on the steps a teardown can still take. */
  ghost function Work(st: State): int
  {
    4 * Sum(st.svs, Unclaimed()) + JobWork(st)
  }

  /** The holder of the mutex on behalf of a reader is a client. */
  lemma NoGetter(st: State)
    requires Inv(st) && Clientless(st)
    ensures JobOwner(st.job) == Nobody && Work(st) >= 0
  {
    if JobOwner(st.job).Getter? {
      assert ThreadOk(st, JobOwner(st.job).t);
    }
    SumNonNegative(st.svs, Unclaimed());
  }

  lemma {:induction false} UnclaimedSame(a: seq<SuperVersion>, b: seq<SuperVersion>)
    requires |a| == |b| && forall s :: 0 <= s < |a| ==> a[s].unclaimed == b[s].unclaimed
    ensures Sum(a, Unclaimed()) == Sum(b, Unclaimed())
  {
    if a != [] {
      UnclaimedSame(a[1..], b[1..]);
    }
  }

  lemma JobClientless(st: State)
    requires Clientless(st) && JobEnabled(st) && JobOwner(st.job) == Nobody
    ensures Clientless(NextJob(st)) && |NextJob(st).threads| == |st.threads| && |NextJob(st).svs| == |st.svs|
    ensures forall s :: 0 <= s < |st.svs| ==> NextJob(st).svs[s].unclaimed == st.svs[s].unclaimed
  {
  }

  /** What is left of the mutex section, and of the cycle still to be broken. */
  function JobWork(st: State): int { (if st.current.Some? then |st.threads| + 6 else 0) + Rank(st) }

  lemma JobWorkShrinks(st: State)
    requires JobInRange(st) && JobEnabled(st) && !st.job.TakeCurrent?
    ensures JobWork(NextJob(st)) < JobWork(st)
  {
  }

  lemma TeardownJob(st: State)
    requires Shape(st) && Clientless(st) && JobEnabled(st) && JobOwner(st.job) == Nobody
    ensures Clientless(NextJob(st)) && Work(NextJob(st)) < Work(st)
  {
    JobClientless(st);
    UnclaimedSame(st.svs, NextJob(st).svs);
    JobWorkShrinks(st);
  }

  lemma ClientlessActions(st: State, a: Action)
    requires Clientless(st) && Enabled(st, a)
    ensures a.LockForPin? || a.JobStep? || a.Exit?
  {
  }

  lemma TeardownPin(st: State, s: nat)
    requires Clientless(st) && Enabled(st, LockForPin(s))
    ensures Clientless(Next(st, LockForPin(s))) && Work(Next(st, LockForPin(s))) < Work(st)
  {
    SumUpdate(st.svs, s, Next(st, LockForPin(s)).svs[s], Unclaimed());
  }

  lemma TeardownExit(st: State, t: nat)
    requires Clientless(st) && Enabled(st, Exit(t))
    ensures Clientless(Next(st, Exit(t))) && Work(Next(st, Exit(t))) == Work(st)
  {
    UnclaimedSame(st.svs, Next(st, Exit(t)).svs);
  }

  /** Without clients every step but a thread's exit brings the teardown nearer its end. */
  lemma TeardownProgress(st: State, a: Action)
    requires Inv(st) && Clientless(st) && Enabled(st, a)
    ensures Clientless(Next(st, a))
    ensures if a.Exit? then Work(Next(st, a)) == Work(st) else Work(Next(st, a)) < Work(st)
  {
    NoGetter(st);
    ClientlessActions(st, a);
    if a.LockForPin? {
      TeardownPin(st, a.s);
    } else if a.JobStep? {
      TeardownJob(st);
    } else {
      TeardownExit(st, a.t);
    }
  }

  /** Steps in state st other than a thread's exit. */
  ghost predicate CanProceed(st: State)
  {
    exists a: Action :: Enabled(st, a) && !a.Exit?
  }

  /** Without clients, either the teardown can go on or it is complete. */
  lemma TeardownComplete(st: State)
    requires Inv(st) && Clientless(st)
    ensures CanProceed(st) || TornDown(st)
  {
    NoGetter(st);
    NonNegative(st);
    if st.job != Unlocked {
      KeepJob(st);
      assert Enabled(st, JobStep);
    } else if s :| 0 <= s < |st.svs| && st.svs[s].unclaimed > 0 {
      assert Enabled(st, LockForPin(s));
    } else {
      Settlement(st);
    }
  }

  lemma UncleanedAtMostOne(svs: seq<SuperVersion>, c: nat)
    requires forall s :: 0 <= s < |svs| && s != c ==> svs[s].cleanups == 1
    ensures Sum(svs, Uncleaned()) <= 1
  {
    if c < |svs| {
      SumSplit(svs, c, Uncleaned());
      SumZero(svs[..c], Uncleaned());
      SumZero(svs[c + 1..], Uncleaned());
    } else {
      SumZero(svs, Uncleaned());
    }
  }

  lemma Settlement(st: State)
    requires Inv(st) && Clientless(st) && st.job == Unlocked
    requires forall s :: 0 <= s < |st.svs| ==> st.svs[s].unclaimed == 0
    ensures TornDown(st)
  {
    SumZero(st.threads, HoldsCfd());
    forall s | 0 <= s < |st.svs| && st.current != Some(s)
      ensures st.svs[s].refs == 0 && st.svs[s].cleanups == 1
    {
      UnheldIsClean(st, s);
    }
    UncleanedAtMostOne(st.svs, if st.current.Some? then st.current.value else 0);
    assert st.current.None?;
    SumZero(st.svs, Uncleaned());
    forall t | 0 <= t < |st.threads| ensures !st.threads[t].slot.Cached? {
      assert ThreadOk(st, t);
    }
  }

  lemma UnheldIsClean(st: State, s: nat)
    requires Inv(st) && Clientless(st) && st.job == Unlocked && s < |st.svs| && st.current != Some(s)
    requires st.svs[s].unclaimed == 0
    ensures st.svs[s].refs == 0 && st.svs[s].cleanups == 1
  {
    forall i | 0 <= i < |st.threads|
      ensures ThreadHolds(s)(st.threads[i]) == 0 && CleansUp(s)(st.threads[i]) == 0
    {
      assert ThreadOk(st, i);
    }
    SumZero(st.threads, ThreadHolds(s));
    SumZero(st.threads, CleansUp(s));
    assert st.svs[s].refs == Holders(st, s);
    assert st.svs[s].cleanups + Owed(st, s) == if st.svs[s].refs == 0 then 1 else 0;
  }

  /** One more step of an unfinished teardown. */
  lemma TeardownStep(run: seq<State>) returns (longer: seq<State>)
    requires IsRun(run) && Clientless(run[|run| - 1]) && !TornDown(run[|run| - 1])
    ensures |longer| == |run| + 1 && longer[..|run|] == run && IsRun(longer)
    ensures Clientless(longer[|run|]) && 0 <= Work(longer[|run|]) < Work(run[|run| - 1])
  {
    var st := run[|run| - 1];
    EveryStateInv(run, |run| - 1);
    TeardownComplete(st);
    var a :| Enabled(st, a) && !a.Exit?;
    TeardownProgress(st, a);
    ExtendRun(run, a);
    longer := run + [Next(st, a)];
    EveryStateInv(longer, |run|);
    NoGetter(longer[|run|]);
  }

  lemma WorkNonNegative(run: seq<State>)
    requires IsRun(run) && Clientless(run[|run| - 1])
    ensures Work(run[|run| - 1]) >= 0
  {
    EveryStateInv(run, |run| - 1);
    NoGetter(run[|run| - 1]);
  }

  /** The cycle is always broken: from any reachable state without clients the teardown runs to its end in at most
      Work(st) steps, and then both are deleted, exactly once. */
  lemma {:induction false} CycleAlwaysBroken(run: seq<State>) returns (rest: seq<State>)
    requires IsRun(run) && Clientless(run[|run| - 1])
    ensures |rest| <= Work(run[|run| - 1])
    ensures IsRun(run + rest) && TornDown((run + rest)[|run + rest| - 1])
    decreases Work(run[|run| - 1])
  {
    if TornDown(run[|run| - 1]) {
      WorkNonNegative(run);
      rest := [];
      assert run + rest == run;
    } else {
      var longer := TeardownStep(run);
      var tail := CycleAlwaysBroken(longer);
      rest := [longer[|run|]] + tail;
      assert run + rest == longer + tail;
    }
  }

  // ---------------------------------------------------------------- every schedule of the teardown

  /** The actions that are not a thread's exit. */
  function Proceeding(acts: seq<Action>): nat
  {
    if acts == [] then 0
    else Proceeding(acts[..|acts| - 1]) + if acts[|acts| - 1].Exit? then 0 else 1
  }

  /** These actions lead from each state to the next. */
  ghost predicate Schedule(states: seq<State>, acts: seq<Action>)
  {
    && |states| == |acts| + 1
    && forall k :: 0 <= k < |acts| ==> Enabled(states[k], acts[k]) && states[k + 1] == Next(states[k], acts[k])
  }

  lemma {:induction false} WorkLeft(states: seq<State>, acts: seq<Action>)
    requires Schedule(states, acts) && Inv(states[0]) && Clientless(states[0])
    ensures var last := states[|acts|];
            Inv(last) && Clientless(last) && Proceeding(acts) + Work(last) <= Work(states[0])
  {
    if acts != [] {
      var n := |acts| - 1;
      WorkLeft(states[..n + 1], acts[..n]);
      assert Enabled(states[n], acts[n]) && states[n + 1] == Next(states[n], acts[n]);
      KeepStep(states[n], acts[n]);
      TeardownProgress(states[n], acts[n]);
    }
  }

  /**
   Whatever the schedule: from a reachable state without clients there are at most Work(st) steps other than exits, and where
   no other step is left the teardown is complete.
   */
  lemma EveryTeardownEnds(run: seq<State>, states: seq<State>, acts: seq<Action>)
    requires IsRun(run) && Clientless(run[|run| - 1]) && Schedule(states, acts) && states[0] == run[|run| - 1]
    ensures Proceeding(acts) <= Work(states[0])
    ensures CanProceed(states[|acts|]) || TornDown(states[|acts|])
  {
    EveryStateInv(run, |run| - 1);
    WorkLeft(states, acts);
    NoGetter(states[|acts|]);
    TeardownComplete(states[|acts|]);
  }
}
