/** Every step of the SuperVersion protocol keeps its invariant. */
module SuperVersionSafety {
  import opened Options
  import opened Sums
  import opened SuperVersionProtocol

  lemma InitInv(st: State)
    requires Init(st)
    ensures Inv(st)
  {
    SumZero(st.threads, HoldsCfd());
  }

  /** Each group of holders is non-negative, and a thread's share is part of the whole. */
  lemma ThreadShare(threads: seq<Thread>, t: nat, s: nat)
    requires t < |threads|
    ensures 0 <= ThreadHolds(s)(threads[t]) <= Sum(threads, ThreadHolds(s))
    ensures 0 <= CleansUp(s)(threads[t]) <= Sum(threads, CleansUp(s))
    ensures 0 <= HoldsCfd()(threads[t]) <= Sum(threads, HoldsCfd())
  {
    SumAtLeast(threads, t, ThreadHolds(s));
    SumAtLeast(threads, t, CleansUp(s));
    SumAtLeast(threads, t, HoldsCfd());
  }

  lemma NonNegative(st: State)
    requires Shape(st)
    ensures forall s: nat :: JobRefs(st.job, s) >= 0
    ensures forall s: nat :: Sum(st.threads, ThreadHolds(s)) >= 0
    ensures forall s: nat :: Sum(st.threads, CleansUp(s)) >= 0
    ensures Sum(st.threads, HoldsCfd()) >= 0
    ensures Sum(st.svs, Uncleaned()) >= 0
  {
    forall s: nat
      ensures JobRefs(st.job, s) >= 0
      ensures Sum(st.threads, ThreadHolds(s)) >= 0
      ensures Sum(st.threads, CleansUp(s)) >= 0
    {
      if st.job.Scrape? || st.job.Drain? {
        SumNonNegative(st.job.ptrs, PtrHolds(s));
      }
      SumNonNegative(st.threads, ThreadHolds(s));
      SumNonNegative(st.threads, CleansUp(s));
    }
    SumNonNegative(st.threads, HoldsCfd());
    SumNonNegative(st.svs, Uncleaned());
  }

  /** The installed SuperVersion has a reference, is not cleaned and counts in the column family. */
  lemma CurrentAlive(st: State)
    requires Inv(st) && st.current.Some?
    ensures st.svs[st.current.value].refs >= 1 && st.svs[st.current.value].cleanups == 0
    ensures Sum(st.svs, Uncleaned()) >= 1
  {
    NonNegative(st);
    assert st.svs[st.current.value].refs == Holders(st, st.current.value);
    SumAtLeast(st.svs, st.current.value, Uncleaned());
  }

  /** Threads other than t stay well formed when their own state does not change. */
  lemma OthersOk(st: State, st': State, t: nat)
    requires Shape(st)
    requires |st'.threads| == |st.threads| && |st.svs| <= |st'.svs| && st.number <= st'.number
    requires forall i :: 0 <= i < |st.threads| && i != t ==> st'.threads[i] == st.threads[i]
    requires forall i: nat, s: nat ::
      i != t && i < |st.threads| && s < |st.svs| && Cacheable(st, i, s) ==> Cacheable(st', i, s)
    requires forall i: nat :: i != t ==> (JobOwner(st.job) == Getter(i) <==> JobOwner(st'.job) == Getter(i))
    ensures forall i :: 0 <= i < |st'.threads| && i != t ==> ThreadOk(st', i)
  {
    forall i | 0 <= i < |st'.threads| && i != t ensures ThreadOk(st', i) {
      assert ThreadOk(st, i);
    }
  }

  // ---------------------------------------------------------------- bookkeeping, one conjunct at a time

  function Mine(th: Thread, s: nat): int { ThreadHolds(s)(th) }

  ghost function InstalledOrJob(st: State, s: nat): int
  {
    (if st.current == Some(s) then 1 else 0) + JobRefs(st.job, s)
  }

  /** Reference counts stay exact when thread t changes and the books balance for every SuperVersion. */
  lemma RefsKept(st: State, st': State, t: nat)
    requires RefsExact(st) && t < |st.threads| == |st'.threads| && |st.svs| == |st'.svs|
    requires st'.threads == st.threads[t := st'.threads[t]]
    requires forall s :: 0 <= s < |st.svs| ==>
      st'.svs[s].refs - st.svs[s].refs
      == st'.svs[s].pins - st.svs[s].pins + Mine(st'.threads[t], s) - Mine(st.threads[t], s)
         + InstalledOrJob(st', s) - InstalledOrJob(st, s)
    ensures RefsExact(st')
  {
    forall s | 0 <= s < |st'.svs| ensures st'.svs[s].refs == Holders(st', s) {
      SumUpdate(st.threads, t, st'.threads[t], ThreadHolds(s));
      assert st.svs[s].refs == Holders(st, s);
    }
  }

  lemma RefsKeptStill(st: State, st': State)
    requires RefsExact(st) && st.threads == st'.threads && |st.svs| == |st'.svs|
    requires forall s :: 0 <= s < |st.svs| ==>
      st'.svs[s].refs - st.svs[s].refs
      == st'.svs[s].pins - st.svs[s].pins + InstalledOrJob(st', s) - InstalledOrJob(st, s)
    ensures RefsExact(st')
  {
    forall s | 0 <= s < |st'.svs| ensures st'.svs[s].refs == Holders(st', s) {
      assert st.svs[s].refs == Holders(st, s);
    }
  }

  function OwnedClean(th: Thread, s: nat): int { CleansUp(s)(th) }

  function JobCleans(job: Job, s: nat): int { if job.CleanUp? && job.sv == s then 1 else 0 }

  function Due(sv: SuperVersion): int { (if sv.refs == 0 then 1 else 0) - sv.cleanups - sv.unclaimed }

  lemma CleanedKept(st: State, st': State, t: nat)
    requires CleanedOnce(st) && t < |st.threads| == |st'.threads| && |st.svs| == |st'.svs|
    requires st'.threads == st.threads[t := st'.threads[t]]
    requires forall s :: 0 <= s < |st.svs| ==>
      Due(st'.svs[s]) - Due(st.svs[s])
      == OwnedClean(st'.threads[t], s) - OwnedClean(st.threads[t], s) + JobCleans(st'.job, s) - JobCleans(st.job, s)
    ensures CleanedOnce(st')
  {
    forall s | 0 <= s < |st'.svs|
      ensures st'.svs[s].cleanups + Owed(st', s) == if st'.svs[s].refs == 0 then 1 else 0
    {
      SumUpdate(st.threads, t, st'.threads[t], CleansUp(s));
      assert st.svs[s].cleanups + Owed(st, s) == if st.svs[s].refs == 0 then 1 else 0;
    }
  }

  lemma CleanedKeptStill(st: State, st': State)
    requires CleanedOnce(st) && st.threads == st'.threads && |st.svs| == |st'.svs|
    requires forall s :: 0 <= s < |st.svs| ==>
      Due(st'.svs[s]) - Due(st.svs[s]) == JobCleans(st'.job, s) - JobCleans(st.job, s)
    ensures CleanedOnce(st')
  {
    forall s | 0 <= s < |st'.svs|
      ensures st'.svs[s].cleanups + Owed(st', s) == if st'.svs[s].refs == 0 then 1 else 0
    {
      assert st.svs[s].cleanups + Owed(st, s) == if st.svs[s].refs == 0 then 1 else 0;
    }
  }

  /** Column-family holders among the threads do not depend on who reads what. */
  lemma OutsideChange(st: State, st': State, t: nat)
    requires t < |st.threads| == |st'.threads|
    requires st'.threads == st.threads[t := st'.threads[t]]
    ensures Outside(st') - Outside(st)
            == st'.handles - st.handles + HoldsCfd()(st'.threads[t]) - HoldsCfd()(st.threads[t])
  {
    SumUpdate(st.threads, t, st'.threads[t], HoldsCfd());
  }

  /** The number of uncleaned SuperVersions depends only on their cleanup counts. */
  lemma {:induction false} UncleanedSame(a: seq<SuperVersion>, b: seq<SuperVersion>)
    requires |a| == |b| && forall s :: 0 <= s < |a| ==> a[s].cleanups == b[s].cleanups
    ensures Sum(a, Uncleaned()) == Sum(b, Uncleaned())
  {
    if a != [] {
      UncleanedSame(a[1..], b[1..]);
    }
  }

  // ---------------------------------------------------------------- lock-free steps

  lemma KeepHandles(st: State, a: Action)
    requires Inv(st) && Enabled(st, a)
    requires a.RefCfd? || a.DropCfd?
    ensures Inv(Next(st, a))
  {
    var st' := Next(st, a);
    NonNegative(st);
    if st.current.Some? {
      CurrentAlive(st);
    }
    OthersOk(st, st', |st.threads|);
    RefsKeptStill(st, st');
    CleanedKeptStill(st, st');
  }

  /** A step of thread t alone, in which every reference given up is taken up elsewhere. */
  ghost predicate Balanced(st: State, st': State, t: nat)
  {
    && t < |st.threads| == |st'.threads| && |st.svs| == |st'.svs|
    && st'.threads == st.threads[t := st'.threads[t]]
    && st'.current == st.current && st'.number == st.number && st'.job == st.job
    && st'.refs == st.refs && st'.deletions == st.deletions
    && ThreadOk(st', t)
    && (forall s :: 0 <= s < |st.svs| ==> Settled(st.svs[s], st'.svs[s], s, st.threads[t], st'.threads[t]))
    && st'.handles + HoldsCfd()(st'.threads[t]) == st.handles + HoldsCfd()(st.threads[t])
  }

  predicate Settled(sv: SuperVersion, sv': SuperVersion, s: nat, th: Thread, th': Thread)
  {
    && sv'.number == sv.number && sv'.cleanups == sv.cleanups
    && sv'.refs - sv.refs == sv'.pins - sv.pins + Mine(th', s) - Mine(th, s)
    && Due(sv') - Due(sv) == OwnedClean(th', s) - OwnedClean(th, s)
  }

  lemma KeepBalanced(st: State, st': State, t: nat)
    requires Inv(st) && Balanced(st, st', t)
    ensures Inv(st')
  {
    assert forall s :: 0 <= s < |st.svs| ==> Settled(st.svs[s], st'.svs[s], s, st.threads[t], st'.threads[t]);
    assert RefsExact(st') by {
      RefsKept(st, st', t);
    }
    assert CleanedOnce(st') by {
      CleanedKept(st, st', t);
    }
    OthersOk(st, st', t);
    OutsideChange(st, st', t);
    UncleanedSame(st.svs, st'.svs);
  }

  /** Whoever holds a reference sees a positive count and no cleanup. */
  lemma HolderSees(st: State, s: nat, t: nat)
    requires Inv(st) && s < |st.svs| && t < |st.threads| && ThreadHolds(s)(st.threads[t]) > 0
    ensures st.svs[s].refs >= ThreadHolds(s)(st.threads[t])
    ensures st.svs[s].cleanups == 0
  {
    NonNegative(st);
    ThreadShare(st.threads, t, s);
    assert st.svs[s].refs == Holders(st, s);
  }

  /** The steps of one thread that touch neither the mutex job nor the column family's own count. */
  predicate ThreadAction(a: Action)
  {
    a.Adopt? || a.Yield? || a.Swap? || a.Check? || a.DropStale? || a.ExtraRef? || a.Return? || a.DropExtra? || a.Exit?
  }

  lemma BalancedHandover(st: State, a: Action)
    requires Shape(st) && Enabled(st, a) && (a.Adopt? || a.Yield?)
    ensures Balanced(st, Next(st, a), a.t)
  {
    assert ThreadOk(st, a.t);
  }

  lemma BalancedSwap(st: State, t: nat)
    requires Shape(st) && Enabled(st, Swap(t))
    ensures Balanced(st, Next(st, Swap(t)), t)
  {
    assert ThreadOk(st, t);
  }

  lemma BalancedCheck(st: State, t: nat)
    requires Shape(st) && Enabled(st, Check(t))
    ensures Balanced(st, Next(st, Check(t)), t)
  {
    assert ThreadOk(st, t);
  }

  lemma BalancedMoves(st: State, a: Action)
    requires Shape(st) && Enabled(st, a)
    requires a.Adopt? || a.Yield? || a.Swap? || a.Check?
    ensures Balanced(st, Next(st, a), a.t)
  {
    if a.Swap? {
      BalancedSwap(st, a.t);
    } else if a.Check? {
      BalancedCheck(st, a.t);
    } else {
      BalancedHandover(st, a);
    }
  }

  lemma BalancedRefs(st: State, a: Action)
    requires Shape(st) && Enabled(st, a)
    requires a.DropStale? || a.ExtraRef? || a.DropExtra?
    requires st.svs[st.threads[a.t].pc.sv].refs >= ThreadHolds(st.threads[a.t].pc.sv)(st.threads[a.t])
    ensures Balanced(st, Next(st, a), a.t)
  {
    assert ThreadOk(st, a.t);
  }

  lemma BalancedReturn(st: State, t: nat)
    requires Shape(st) && Enabled(st, Return(t))
    ensures Balanced(st, Next(st, Return(t)), t)
  {
    assert ThreadOk(st, t);
  }

  lemma BalancedExit(st: State, t: nat)
    requires Shape(st) && Enabled(st, Exit(t))
    requires st.threads[t].slot.Cached? ==> st.svs[st.threads[t].slot.sv].refs > 1
    ensures Balanced(st, Next(st, Exit(t)), t)
  {
    assert ThreadOk(st, t);
  }

  /** A cached SuperVersion is also held by its installer or by the column family: never by the slot alone. */
  lemma SlotNotLast(st: State, t: nat)
    requires Inv(st) && t < |st.threads| && st.threads[t].slot.Cached?
    ensures st.threads[t].slot.sv < |st.svs| && st.svs[st.threads[t].slot.sv].refs >= 2
  {
    var s := st.threads[t].slot.sv;
    assert ThreadOk(st, t);
    NonNegative(st);
    if st.job.Scrape? {
      SumNonNegative(st.job.ptrs, PtrHolds(s));
    }
    assert JobRefs(st.job, s) >= 0 && InstalledOrJob(st, s) >= 1;
    ThreadShare(st.threads, t, s);
    assert st.svs[s].refs == Holders(st, s);
  }

  lemma KeepThread(st: State, a: Action)
    requires Inv(st) && Enabled(st, a) && ThreadAction(a)
    ensures Inv(Next(st, a))
  {
    if a.Return? {
      BalancedReturn(st, a.t);
    } else if a.Exit? {
      if st.threads[a.t].slot.Cached? {
        SlotNotLast(st, a.t);
      }
      BalancedExit(st, a.t);
    } else if a.DropStale? || a.ExtraRef? || a.DropExtra? {
      HolderSees(st, st.threads[a.t].pc.sv, a.t);
      BalancedRefs(st, a);
    } else {
      BalancedMoves(st, a);
    }
    KeepBalanced(st, Next(st, a), a.t);
  }

  // ---------------------------------------------------------------- outside holders and locking

  /** Steps that leave the threads alone. */
  ghost predicate BooksStill(st: State, st': State)
  {
    && st'.threads == st.threads && |st'.svs| == |st.svs|
    && forall s :: 0 <= s < |st.svs| ==>
         && st'.svs[s].refs - st.svs[s].refs
            == st'.svs[s].pins - st.svs[s].pins + InstalledOrJob(st', s) - InstalledOrJob(st, s)
         && Due(st'.svs[s]) - Due(st.svs[s]) == JobCleans(st'.job, s) - JobCleans(st.job, s)
  }

  ghost predicate BooksMove(st: State, st': State, t: nat)
  {
    && t < |st.threads| == |st'.threads| && |st'.svs| == |st.svs|
    && st'.threads == st.threads[t := st'.threads[t]]
    && forall s :: 0 <= s < |st.svs| ==>
         && st'.svs[s].refs - st.svs[s].refs
            == st'.svs[s].pins - st.svs[s].pins + Mine(st'.threads[t], s) - Mine(st.threads[t], s)
               + InstalledOrJob(st', s) - InstalledOrJob(st, s)
         && Due(st'.svs[s]) - Due(st.svs[s])
            == OwnedClean(st'.threads[t], s) - OwnedClean(st.threads[t], s) + JobCleans(st'.job, s) - JobCleans(st.job, s)
  }

  lemma BooksKept(st: State, st': State)
    requires RefsExact(st) && CleanedOnce(st) && BooksStill(st, st')
    ensures RefsExact(st') && CleanedOnce(st')
  {
    RefsKeptStill(st, st');
    CleanedKeptStill(st, st');
  }

  lemma BooksMoved(st: State, st': State, t: nat)
    requires RefsExact(st) && CleanedOnce(st) && BooksMove(st, st', t)
    ensures RefsExact(st') && CleanedOnce(st')
  {
    RefsKept(st, st', t);
    CleanedKept(st, st', t);
  }

  lemma PinSees(st: State, s: nat)
    requires Inv(st) && s < |st.svs| && st.svs[s].pins > 0
    ensures st.svs[s].refs >= 1 && st.svs[s].cleanups == 0
  {
    NonNegative(st);
    assert st.svs[s].refs == Holders(st, s);
  }

  lemma DropPinBooks(st: State, s: nat)
    requires Enabled(st, DropPin(s)) && st.svs[s].refs >= 1
    ensures BooksStill(st, Next(st, DropPin(s)))
  {
  }

  lemma KeepDropPin(st: State, s: nat)
    requires Inv(st) && Enabled(st, DropPin(s))
    ensures Inv(Next(st, DropPin(s)))
  {
    var st' := Next(st, DropPin(s));
    PinSees(st, s);
    DropPinBooks(st, s);
    BooksKept(st, st');
    OthersOk(st, st', |st.threads|);
    UncleanedSame(st.svs, st'.svs);
  }

  lemma KeepLockForPin(st: State, s: nat)
    requires Inv(st) && Enabled(st, LockForPin(s))
    ensures Inv(Next(st, LockForPin(s)))
  {
    var st' := Next(st, LockForPin(s));
    BooksKept(st, st');
    OthersOk(st, st', |st.threads|);
    UncleanedSame(st.svs, st'.svs);
  }

  lemma LockForGetShape(st: State, t: nat)
    requires Shape(st) && Enabled(st, LockForGet(t))
    ensures Shape(Next(st, LockForGet(t)))
  {
    assert ThreadOk(st, t);
    OthersOk(st, Next(st, LockForGet(t)), t);
  }

  lemma LockForGetBooks(st: State, t: nat)
    requires Shape(st) && Enabled(st, LockForGet(t))
    ensures BooksMove(st, Next(st, LockForGet(t)), t)
  {
    assert ThreadOk(st, t);
  }

  lemma KeepLockForGet(st: State, t: nat)
    requires Inv(st) && Enabled(st, LockForGet(t))
    ensures Inv(Next(st, LockForGet(t)))
  {
    var st' := Next(st, LockForGet(t));
    LockForGetShape(st, t);
    LockForGetBooks(st, t);
    BooksMoved(st, st', t);
    OutsideChange(st, st', t);
  }

  // ---------------------------------------------------------------- installing

  /** Nothing refers to a SuperVersion that does not exist yet. */
  lemma Unborn(st: State)
    requires Shape(st) && st.job == Unlocked
    ensures Sum(st.threads, ThreadHolds(|st.svs|)) == 0 && Sum(st.threads, CleansUp(|st.svs|)) == 0
  {
    var n := |st.svs|;
    forall i | 0 <= i < |st.threads|
      ensures ThreadHolds(n)(st.threads[i]) == 0 && CleansUp(n)(st.threads[i]) == 0
    {
      assert ThreadOk(st, i);
    }
    SumZero(st.threads, ThreadHolds(n));
    SumZero(st.threads, CleansUp(n));
  }

  lemma KeepInstall(st: State)
    requires Inv(st) && Enabled(st, Install)
    ensures Inv(Next(st, Install))
  {
    var st' := Next(st, Install);
    NonNegative(st);
    Unborn(st);
    forall s | 0 <= s < |st'.svs|
      ensures st'.svs[s].refs == Holders(st', s)
      ensures st'.svs[s].cleanups + Owed(st', s) == if st'.svs[s].refs == 0 then 1 else 0
    {
      if s < |st.svs| {
        assert st.svs[s].refs == Holders(st, s);
        assert st.svs[s].cleanups + Owed(st, s) == if st.svs[s].refs == 0 then 1 else 0;
      }
    }
    SumPush(st.svs, SuperVersion(1, 0, 0, 0, 0), Uncleaned());
    OthersOk(st, st', |st.threads|);
  }

  lemma KeepBump(st: State)
    requires Inv(st) && st.job.Bump?
    ensures Inv(NextJob(st))
  {
    BooksKept(st, NextJob(st));
    OthersOk(st, NextJob(st), |st.threads|);
  }

  lemma StampShape(st: State)
    requires Shape(st) && st.job.Stamp?
    ensures Shape(NextJob(st))
  {
    OthersOk(st, NextJob(st), |st.threads|);
  }

  lemma StampBooks(st: State)
    requires Shape(st) && st.job.Stamp?
    ensures BooksStill(st, NextJob(st))
  {
  }

  lemma KeepStamp(st: State)
    requires Inv(st) && st.job.Stamp?
    ensures Inv(NextJob(st))
  {
    StampShape(st);
    StampBooks(st);
    BooksKept(st, NextJob(st));
    UncleanedSame(st.svs, NextJob(st).svs);
  }

  lemma ScrapeBooks(st: State)
    requires Shape(st) && st.job.Scrape? && st.job.i < |st.threads|
    ensures BooksMove(st, NextJob(st), st.job.i)
  {
    var i := st.job.i;
    assert ThreadOk(st, i);
    forall s | 0 <= s < |st.svs|
      ensures Mine(NextJob(st).threads[i], s) + JobRefs(NextJob(st).job, s) == Mine(st.threads[i], s) + JobRefs(st.job, s)
    {
      SumPush(st.job.ptrs, st.threads[i].slot, PtrHolds(s));
    }
  }

  lemma ScrapeShape(st: State)
    requires Shape(st) && st.job.Scrape?
    ensures Shape(NextJob(st))
  {
    var i := st.job.i;
    if i < |st.threads| {
      assert ThreadOk(st, i);
    }
    OthersOk(st, NextJob(st), i);
  }

  lemma KeepScrape(st: State)
    requires Inv(st) && st.job.Scrape?
    ensures Inv(NextJob(st))
  {
    ScrapeShape(st);
    if st.job.i == |st.threads| {
      BooksKept(st, NextJob(st));
    } else {
      ScrapeBooks(st);
      BooksMoved(st, NextJob(st), st.job.i);
      OutsideChange(st, NextJob(st), st.job.i);
    }
  }

  lemma DrainShape(st: State)
    requires Shape(st) && st.job.Drain?
    ensures JobEnabled(st) && Shape(NextJob(st))
  {
    OthersOk(st, NextJob(st), |st.threads|);
  }

  lemma DrainBooks(st: State)
    requires Shape(st) && st.job.Drain? && JobEnabled(st)
    requires st.job.ptrs != [] && st.job.ptrs[0].Cached? ==> st.svs[st.job.ptrs[0].sv].refs >= 2
    ensures BooksStill(st, NextJob(st))
  {
  }

  lemma KeepDrain(st: State)
    requires Inv(st) && st.job.Drain?
    ensures JobEnabled(st) && Inv(NextJob(st))
  {
    if st.job.ptrs != [] && st.job.ptrs[0].Cached? {
      ScrapedNotLast(st);
    }
    DrainShape(st);
    DrainBooks(st);
    BooksKept(st, NextJob(st));
    UncleanedSame(st.svs, NextJob(st).svs);
  }

  /** What the installer scraped is never the last reference: it still holds the replaced SuperVersion itself. */
  lemma ScrapedNotLast(st: State)
    requires Inv(st) && st.job.Drain? && st.job.ptrs != [] && st.job.ptrs[0].Cached?
    ensures st.job.ptrs[0].sv == st.job.prev && st.svs[st.job.prev].refs >= 2
  {
    NonNegative(st);
    SumAtLeast(st.job.ptrs, 0, PtrHolds(st.job.prev));
    assert st.svs[st.job.prev].refs == Holders(st, st.job.prev);
  }

  /** The mutex holder still owns the reference it is about to drop. */
  lemma JobSees(st: State, s: nat)
    requires Inv(st) && s < |st.svs| && (st.job == UnrefOld(s) || (st.job.UnrefSuper? && st.job.sv == s))
    ensures st.svs[s].refs >= 1 && st.svs[s].cleanups == 0
  {
    NonNegative(st);
    assert st.svs[s].refs == Holders(st, s);
  }

  lemma UnrefBooks(st: State, s: nat)
    requires s < |st.svs| && (st.job == UnrefOld(s) || (st.job.UnrefSuper? && st.job.sv == s))
    requires st.svs[s].refs >= 1
    ensures BooksStill(st, NextJob(st))
  {
  }

  lemma KeepUnrefOld(st: State)
    requires Inv(st) && st.job.UnrefOld?
    ensures Inv(NextJob(st))
  {
    var st' := NextJob(st);
    var s := st.job.prev;
    JobSees(st, s);
    UnrefBooks(st, s);
    BooksKept(st, st');
    OthersOk(st, st', |st.threads|);
    UncleanedSame(st.svs, st'.svs);
  }

  // ---------------------------------------------------------------- the slow path and the teardown

  /** A reader keeps the column family published. */
  lemma ReaderKeepsPublished(st: State, t: nat)
    requires Inv(st) && t < |st.threads| && !st.threads[t].pc.Idle? && !st.threads[t].pc.Ready?
    ensures st.current.Some?
  {
    assert ThreadOk(st, t);
    NonNegative(st);
    ThreadShare(st.threads, t, 0);
  }

  lemma TakeCurrentShape(st: State)
    requires Shape(st) && st.job.TakeCurrent? && JobEnabled(st) && ThreadOk(st, st.job.t)
    ensures Shape(NextJob(st))
  {
    OthersOk(st, NextJob(st), st.job.t);
  }

  lemma TakeCurrentBooks(st: State)
    requires Shape(st) && st.job.TakeCurrent? && JobEnabled(st) && ThreadOk(st, st.job.t)
    requires st.svs[st.current.value].refs >= 1
    ensures BooksMove(st, NextJob(st), st.job.t)
  {
  }

  lemma KeepTakeCurrent(st: State)
    requires Inv(st) && st.job.TakeCurrent?
    ensures JobEnabled(st) && Inv(NextJob(st))
  {
    var t := st.job.t;
    assert ThreadOk(st, t);
    ReaderKeepsPublished(st, t);
    CurrentAlive(st);
    TakeCurrentShape(st);
    TakeCurrentBooks(st);
    BooksMoved(st, NextJob(st), t);
    OutsideChange(st, NextJob(st), t);
    UncleanedSame(st.svs, NextJob(st).svs);
  }

  lemma KeepCleanUp(st: State)
    requires Inv(st) && st.job.CleanUp?
    ensures Inv(NextJob(st))
  {
    var st' := NextJob(st);
    var s := st.job.sv;
    assert st.svs[s].refs == 0 && st.svs[s].cleanups == 0 by {
      NonNegative(st);
      assert st.svs[s].cleanups + Owed(st, s) == if st.svs[s].refs == 0 then 1 else 0;
    }
    BooksKept(st, st');
    OthersOk(st, st', |st.threads|);
    SumUpdate(st.svs, s, st'.svs[s], Uncleaned());
  }

  lemma KeepUnrefCfd(st: State)
    requires Inv(st) && st.job.UnrefCfd?
    ensures Inv(NextJob(st))
  {
    var st' := NextJob(st);
    NonNegative(st);
    if st.current.Some? {
      CurrentAlive(st);
    }
    BooksKept(st, st');
    OthersOk(st, st', |st.threads|);
  }

  lemma KeepBreakCycle(st: State)
    requires Inv(st) && st.job.BreakCycle?
    ensures Inv(NextJob(st))
  {
    var st' := NextJob(st);
    NonNegative(st);
    CurrentAlive(st);
    BooksKept(st, st');
    OthersOk(st, st', |st.threads|);
  }

  lemma ReclaimShape(st: State)
    requires Shape(st) && st.job.Reclaim?
    ensures JobEnabled(st) && Shape(NextJob(st))
  {
    var i := st.job.i;
    if i < |st.threads| {
      assert ThreadOk(st, i);
    }
    OthersOk(st, NextJob(st), i);
  }

  lemma ReclaimBooks(st: State)
    requires Shape(st) && st.job.Reclaim? && JobEnabled(st) && st.job.i < |st.threads|
    requires st.threads[st.job.i].slot.Cached? ==> st.svs[st.threads[st.job.i].slot.sv].refs >= 2
    ensures BooksMove(st, NextJob(st), st.job.i)
  {
    assert ThreadOk(st, st.job.i);
  }

  lemma ReclaimCounts(st: State)
    requires Inv(st) && st.job.Reclaim? && st.job.i < |st.threads|
    ensures JobEnabled(st) && RefsExact(NextJob(st)) && CleanedOnce(NextJob(st))
  {
    ReclaimShape(st);
    if st.threads[st.job.i].slot.Cached? {
      SlotNotLast(st, st.job.i);
    }
    ReclaimBooks(st);
    BooksMoved(st, NextJob(st), st.job.i);
  }

  lemma ReclaimFamily(st: State)
    requires Numbered(st) && CfdExact(st) && Phases(st)
    requires st.job.Reclaim? && JobEnabled(st) && st.job.i < |st.threads|
    ensures Numbered(NextJob(st)) && CfdExact(NextJob(st)) && Phases(NextJob(st))
  {
    OutsideChange(st, NextJob(st), st.job.i);
    UncleanedSame(st.svs, NextJob(st).svs);
  }

  lemma KeepReclaim(st: State)
    requires Inv(st) && st.job.Reclaim?
    ensures JobEnabled(st) && Inv(NextJob(st))
  {
    ReclaimShape(st);
    if st.job.i == |st.threads| {
      BooksKept(st, NextJob(st));
    } else {
      ReclaimCounts(st);
      ReclaimFamily(st);
    }
  }

  lemma KeepUnrefSuper(st: State)
    requires Inv(st) && st.job.UnrefSuper?
    ensures Inv(NextJob(st))
  {
    var st' := NextJob(st);
    var s := st.job.sv;
    JobSees(st, s);
    UnrefBooks(st, s);
    BooksKept(st, st');
    OthersOk(st, st', |st.threads|);
    UncleanedSame(st.svs, st'.svs);
  }

  lemma KeepDeleteCfd(st: State)
    requires Inv(st) && st.job.DeleteCfd?
    ensures Inv(NextJob(st))
  {
    var st' := NextJob(st);
    BooksKept(st, st');
    OthersOk(st, st', |st.threads|);
  }

  /** The mutex section never gets stuck, and each of its sub-steps keeps the invariant. */
  lemma KeepJob(st: State)
    requires Inv(st) && st.job != Unlocked
    ensures JobEnabled(st) && Inv(NextJob(st))
  {
    match st.job
    case Bump(_) => KeepBump(st);
    case Stamp(_) => KeepStamp(st);
    case Scrape(_, _, _) => KeepScrape(st);
    case Drain(_, _) => KeepDrain(st);
    case UnrefOld(_) => KeepUnrefOld(st);
    case TakeCurrent(_) => KeepTakeCurrent(st);
    case CleanUp(_, _) => KeepCleanUp(st);
    case UnrefCfd(_) => KeepUnrefCfd(st);
    case BreakCycle(_) => KeepBreakCycle(st);
    case Reclaim(_, _, _) => KeepReclaim(st);
    case UnrefSuper(_, _) => KeepUnrefSuper(st);
    case DeleteCfd(_) => KeepDeleteCfd(st);
  }

  lemma KeepStep(st: State, a: Action)
    requires Inv(st) && Enabled(st, a)
    ensures Inv(Next(st, a))
  {
    match a
    case RefCfd => KeepHandles(st, a);
    case DropCfd => KeepHandles(st, a);
    case LockForGet(t) => KeepLockForGet(st, t);
    case DropPin(s) => KeepDropPin(st, s);
    case LockForPin(s) => KeepLockForPin(st, s);
    case Install => KeepInstall(st);
    case JobStep => KeepJob(st);
    case _ => KeepThread(st, a);
  }
}
