/**
 The order in which the crates of a workspace are published: rounds that take out every package whose dependencies have all
 been taken out in earlier rounds, with a limit on the number of rounds.
 */
module PublishOrder {
  import opened Sequences

  /** A package, its dependencies of the workspace's own family, and its manifest. */
  datatype Package = Package(name: string, dependencies: seq<string>, manifest: string)

  datatype Result =
    | Ordered(packages: seq<Package>)
    | DirectCycle(pairs: set<set<string>>)
    | Suspected(packages: seq<Package>)

  // ---------------------------------------------------------------- graphs

  function Names(g: seq<Package>): set<string>
  {
    set p | p in g :: p.name
  }

  /** The keys of a dictionary are distinct. */
  predicate Dictionary(g: seq<Package>)
  {
    forall i, j :: 0 <= i < j < |g| ==> g[i].name != g[j].name
  }

  /** a depends on b, and both are packages of the workspace. */
  predicate Edge(g: seq<Package>, a: string, b: string)
  {
    b in Names(g) && exists p :: p in g && p.name == a && b in p.dependencies
  }

  /** Each name depends on the next. */
  predicate Walk(g: seq<Package>, path: seq<string>)
  {
    forall i :: 0 <= i < |path| - 1 ==> Edge(g, path[i], path[i + 1])
  }

  predicate Cycle(g: seq<Package>, path: seq<string>)
  {
    |path| >= 2 && path[0] == path[|path| - 1] && Walk(g, path)
  }

  ghost predicate Cyclic(g: seq<Package>)
  {
    exists path :: Cycle(g, path)
  }

  /** A walk from here comes to some package twice. */
  ghost predicate LeadsToCycle(g: seq<Package>, name: string)
  {
    exists path :: Circling(g, path) && path[0] == name
  }

  predicate Circling(g: seq<Package>, path: seq<string>)
  {
    path != [] && Walk(g, path) && !Distinct(path)
  }

  lemma CirclingIsCyclic(g: seq<Package>, path: seq<string>)
    requires Circling(g, path)
    ensures Cyclic(g)
  {
    var i, j :| 0 <= i < j < |path| && path[i] == path[j];
    var loop := path[i..j + 1];
    assert forall k :: 0 <= k < |loop| ==> loop[k] == path[i + k];
    assert Cycle(g, loop);
  }

  // ---------------------------------------------------------------- rounds

  /** No dependency of the package is left. */
  predicate Free(p: Package, g: seq<Package>)
  {
    forall d :: d in p.dependencies ==> d !in Names(g)
  }

  function FreeIn(g: seq<Package>): Package -> bool
  {
    (p: Package) => Free(p, g)
  }

  function HeldIn(g: seq<Package>): Package -> bool
  {
    (p: Package) => !Free(p, g)
  }

  /** The packages that a round takes out, in order. */
  function Ready(g: seq<Package>): seq<Package>
  {
    Keep(g, FreeIn(g))
  }

  function Waiting(g: seq<Package>): seq<Package>
  {
    Keep(g, HeldIn(g))
  }

  lemma Sorted(g: seq<Package>)
    ensures forall p :: p in Ready(g) <==> p in g && Free(p, g)
    ensures forall p :: p in Waiting(g) <==> p in g && !Free(p, g)
    ensures |Ready(g)| + |Waiting(g)| == |g|
  {
    KeepIff(g, FreeIn(g));
    KeepIff(g, HeldIn(g));
    KeepSplits(g, FreeIn(g), HeldIn(g));
  }

  lemma PushDictionary(s: seq<Package>, p: Package)
    requires Dictionary(s) && forall q :: q in s ==> q.name != p.name
    ensures Dictionary(s + [p])
  {
    assert forall i :: 0 <= i < |s| ==> s[i] in s;
  }

  lemma LastIsNew(s: seq<Package>)
    requires Dictionary(s) && s != []
    ensures Dictionary(s[..|s| - 1]) && forall q :: q in s[..|s| - 1] ==> q.name != s[|s| - 1].name
  {
  }

  lemma {:induction false} SubDictionary(s: seq<Package>, f: Package -> bool)
    requires Dictionary(s)
    ensures Dictionary(Keep(s, f))
  {
    if s != [] {
      var init, last := s[..|s| - 1], s[|s| - 1];
      LastIsNew(s);
      SubDictionary(init, f);
      KeepIff(init, f);
      PushDictionary(Keep(init, f), last);
    }
  }

  /** What is left after k rounds, and what they have taken out, in order. */
  function Rest(g: seq<Package>, k: nat): seq<Package>
  {
    if k == 0 then g else Waiting(Rest(g, k - 1))
  }

  function Taken(g: seq<Package>, k: nat): seq<Package>
  {
    if k == 0 then [] else Taken(g, k - 1) + Ready(Rest(g, k - 1))
  }

  /** These packages are all of g, each taken once or still left. */
  ghost predicate Parted(g: seq<Package>, taken: seq<Package>, rest: seq<Package>)
  {
    && Dictionary(rest) && Dictionary(taken) && |taken| + |rest| == |g|
    && (forall p :: p in g <==> p in taken || p in rest)
    && (forall p, q :: p in taken && q in rest ==> p.name != q.name)
  }

  lemma RoundParts(g: seq<Package>, taken: seq<Package>, rest: seq<Package>)
    requires Parted(g, taken, rest)
    ensures Parted(g, taken + Ready(rest), Waiting(rest))
  {
    Sorted(rest);
    SubDictionary(rest, FreeIn(rest));
    SubDictionary(rest, HeldIn(rest));
    NamesApart(rest);
    JoinDictionaries(taken, Ready(rest));
  }

  /** Every package is taken once or still left. */
  lemma {:induction false} RoundsPartition(g: seq<Package>, k: nat)
    requires Dictionary(g)
    ensures Parted(g, Taken(g, k), Rest(g, k))
  {
    if k > 0 {
      RoundsPartition(g, k - 1);
      RoundParts(g, Taken(g, k - 1), Rest(g, k - 1));
      assert Rest(g, k) == Waiting(Rest(g, k - 1));
      assert Taken(g, k) == Taken(g, k - 1) + Ready(Rest(g, k - 1));
    }
  }

  lemma NamesApart(rest: seq<Package>)
    requires Dictionary(rest)
    ensures forall p, q :: p in Ready(rest) && q in Waiting(rest) ==> p.name != q.name
  {
    Sorted(rest);
    forall p, q | p in Ready(rest) && q in Waiting(rest) ensures p.name != q.name {
      var i :| 0 <= i < |rest| && rest[i] == p;
      var j :| 0 <= j < |rest| && rest[j] == q;
    }
  }

  lemma JoinDictionaries(s: seq<Package>, t: seq<Package>)
    requires Dictionary(s) && Dictionary(t) && forall p, q :: p in s && q in t ==> p.name != q.name
    ensures Dictionary(s + t)
  {
    var both := s + t;
    assert forall i :: 0 <= i < |s| ==> both[i] in s;
    assert forall i :: |s| <= i < |both| ==> both[i] == t[i - |s|] && both[i] in t;
  }

  /** Each package of the list comes after all its dependencies in the workspace. */
  ghost predicate DependenciesFirst(g: seq<Package>, taken: seq<Package>)
  {
    forall i {:trigger After(g, taken, i)} :: 0 <= i < |taken| ==> After(g, taken, i)
  }

  ghost predicate After(g: seq<Package>, taken: seq<Package>, i: int)
    requires 0 <= i < |taken|
  {
    forall d :: d in taken[i].dependencies && d in Names(g) ==> d in Names(taken[..i])
  }

  lemma ReadyIsFree(rest: seq<Package>, i: nat)
    requires i < |Ready(rest)|
    ensures Free(Ready(rest)[i], rest)
  {
    Sorted(rest);
    assert Ready(rest)[i] in Ready(rest);
  }

  /** What a round takes comes after its dependencies, since they are all taken already. */
  lemma RoundAfter(g: seq<Package>, taken: seq<Package>, ready: seq<Package>, rest: seq<Package>, i: nat)
    requires forall q :: q in g ==> q in taken || q in rest
    requires i < |ready| && Free(ready[i], rest)
    ensures After(g, taken + ready, |taken| + i)
  {
    var all := taken + ready;
    assert all[|taken| + i] == ready[i];
    forall d | d in ready[i].dependencies && d in Names(g) ensures d in Names(all[..|taken| + i]) {
      var q :| q in g && q.name == d;
      assert q in taken;
      assert all[..|taken| + i] == taken + ready[..i];
    }
  }

  lemma AfterStays(g: seq<Package>, taken: seq<Package>, ready: seq<Package>, i: nat)
    requires i < |taken| && After(g, taken, i)
    ensures After(g, taken + ready, i)
  {
    assert (taken + ready)[..i] == taken[..i];
  }

  lemma TakenOrLeft(g: seq<Package>, k: nat)
    requires Dictionary(g)
    ensures forall q :: q in g ==> q in Taken(g, k) || q in Rest(g, k)
  {
    RoundsPartition(g, k);
  }

  lemma {:induction false} TakenInOrder(g: seq<Package>, k: nat)
    requires Dictionary(g)
    ensures DependenciesFirst(g, Taken(g, k))
  {
    if k > 0 {
      TakenInOrder(g, k - 1);
      TakenOrLeft(g, k - 1);
      RoundInOrder(g, Taken(g, k - 1), Rest(g, k - 1));
    }
  }

  lemma RoundInOrder(g: seq<Package>, taken: seq<Package>, rest: seq<Package>)
    requires DependenciesFirst(g, taken) && forall q :: q in g ==> q in taken || q in rest
    ensures DependenciesFirst(g, taken + Ready(rest))
  {
    var ready := Ready(rest);
    var all := taken + ready;
    forall i | 0 <= i < |all| ensures After(g, all, i) {
      if i < |taken| {
        assert After(g, taken, i);
        AfterStays(g, taken, ready, i);
      } else {
        ReadyIsFree(rest, i - |taken|);
        RoundAfter(g, taken, ready, rest, i - |taken|);
      }
    }
  }

  /** A round over these packages takes none. */
  predicate Stuck(rest: seq<Package>)
  {
    forall p :: p in rest ==> !Free(p, rest)
  }

  lemma StuckStays(rest: seq<Package>)
    requires Stuck(rest)
    ensures Waiting(rest) == rest
  {
    KeepAll(rest, HeldIn(rest));
  }

  /** A round that takes nothing changes nothing, so no later one does; otherwise it takes at least one package. */
  lemma RoundProgress(rest: seq<Package>)
    ensures Stuck(rest) ==> Waiting(rest) == rest && Stuck(Waiting(rest))
    ensures !Stuck(rest) ==> |Waiting(rest)| < |rest|
  {
    Sorted(rest);
    if Stuck(rest) {
      StuckStays(rest);
    } else {
      var p :| p in rest && Free(p, rest);
      assert p in Ready(rest);
    }
  }

  lemma {:induction false} Progress(g: seq<Package>, k: nat)
    ensures Stuck(Rest(g, k)) || |Rest(g, k)| <= |g| - k
  {
    if k > 0 {
      Progress(g, k - 1);
      var rest := Rest(g, k - 1);
      RoundProgress(rest);
      assert Rest(g, k) == Waiting(rest);
    }
  }

  // ---------------------------------------------------------------- what can never be taken

  ghost predicate AllLeft(path: seq<string>, rest: seq<Package>)
  {
    forall m :: 0 <= m < |path| ==> path[m] in Names(rest)
  }

  ghost predicate PartOf(rest: seq<Package>, g: seq<Package>)
  {
    forall p :: p in rest ==> p in g
  }

  /** A package with a dependency left is not taken. */
  lemma NotTaken(g: seq<Package>, rest: seq<Package>, a: string, b: string)
    requires Dictionary(g) && PartOf(rest, g) && Edge(g, a, b) && a in Names(rest) && b in Names(rest)
    ensures a in Names(Waiting(rest))
  {
    Sorted(rest);
    var p :| p in g && p.name == a && b in p.dependencies;
    var q :| q in rest && q.name == a;
    SameName(g, p, q);
    assert !Free(p, rest);
    assert p in Waiting(rest);
  }

  lemma SameName(g: seq<Package>, p: Package, q: Package)
    requires Dictionary(g) && p in g && q in g && p.name == q.name
    ensures p == q
  {
    var i :| 0 <= i < |g| && g[i] == p;
    var j :| 0 <= j < |g| && g[j] == q;
  }

  lemma CycleStaysOnce(g: seq<Package>, rest: seq<Package>, path: seq<string>)
    requires Dictionary(g) && PartOf(rest, g) && EndsInside(g, path) && AllLeft(path, rest)
    ensures AllLeft(path, Waiting(rest))
  {
    forall m | 0 <= m < |path| ensures path[m] in Names(Waiting(rest)) {
      var n := if m < |path| - 1 then m else Earlier(path);
      assert Edge(g, path[n], path[n + 1]);
      NotTaken(g, rest, path[n], path[n + 1]);
    }
  }

  /** A walk whose last package occurs on it before. */
  predicate EndsInside(g: seq<Package>, path: seq<string>)
  {
    |path| >= 2 && Walk(g, path) && path[|path| - 1] in path[..|path| - 1]
  }

  ghost function Earlier(path: seq<string>): (i: nat)
    requires |path| >= 2 && path[|path| - 1] in path[..|path| - 1]
    ensures i < |path| - 1 && path[i] == path[|path| - 1]
  {
    var i :| 0 <= i < |path| - 1 && path[..|path| - 1][i] == path[|path| - 1];
    i
  }

  /** The packages of such a walk are never taken. */
  lemma {:induction false} CycleStays(g: seq<Package>, path: seq<string>, k: nat)
    requires Dictionary(g) && EndsInside(g, path)
    ensures AllLeft(path, Rest(g, k))
  {
    if k == 0 {
      forall m | 0 <= m < |path| ensures path[m] in Names(g) {
        var n := if m < |path| - 1 then m else Earlier(path);
        assert Edge(g, path[n], path[n + 1]);
      }
    } else {
      CycleStays(g, path, k - 1);
      RoundsPartition(g, k - 1);
      CycleStaysOnce(g, Rest(g, k - 1), path);
    }
  }

  /** From each package of a stuck rest a walk of any length stays within the rest. */
  lemma {:induction false} WalkWithin(g: seq<Package>, rest: seq<Package>, name: string, n: nat) returns (path: seq<string>)
    requires PartOf(rest, g) && Stuck(rest) && name in Names(rest)
    ensures |path| == n + 1 && path[0] == name && Walk(g, path) && AllLeft(path, rest)
    decreases n
  {
    if n == 0 {
      path := [name];
    } else {
      var d := DependencyLeft(g, rest, name);
      var tail := WalkWithin(g, rest, d, n - 1);
      path := [name] + tail;
      forall i | 0 <= i < |path| - 1 ensures Edge(g, path[i], path[i + 1]) {
        assert i > 0 ==> Edge(g, tail[i - 1], tail[i - 1 + 1]);
      }
    }
  }

  lemma DependencyLeft(g: seq<Package>, rest: seq<Package>, name: string) returns (d: string)
    requires PartOf(rest, g) && Stuck(rest) && name in Names(rest)
    ensures Edge(g, name, d) && d in Names(rest)
  {
    Sorted(rest);
    var p :| p in rest && p.name == name;
    assert !Free(p, rest);
    d :| d in p.dependencies && d in Names(rest);
    var q :| q in rest && q.name == d;
  }

  lemma Pigeonhole(path: seq<string>, names: set<string>)
    requires (forall i :: 0 <= i < |path| ==> path[i] in names) && |path| > |names|
    ensures !Distinct(path)
  {
    if Distinct(path) {
      DistinctSize(path);
      SubsetSize(Elements(path), names);
    }
  }

  lemma {:induction false} DistinctSize(path: seq<string>)
    requires Distinct(path)
    ensures |Elements(path)| == |path|
  {
    if path != [] {
      var init, last := path[..|path| - 1], path[|path| - 1];
      DistinctSize(init);
      assert path == init + [last];
      assert Elements(path) == Elements(init) + {last};
    }
  }

  lemma {:induction false} SubsetSize(a: set<string>, b: set<string>)
    requires a <= b
    ensures |a| <= |b|
  {
    if a != {} {
      var x :| x in a;
      SubsetSize(a - {x}, b - {x});
    }
  }

  // ---------------------------------------------------------------- the theorems

  /** Once there have been as many rounds as packages, the next takes none. */
  lemma EndStuck(g: seq<Package>, k: nat)
    requires k >= |g|
    ensures Stuck(Rest(g, k))
  {
    Progress(g, k);
  }

  lemma RestPart(g: seq<Package>, k: nat)
    requires Dictionary(g)
    ensures PartOf(Rest(g, k), g)
  {
    RoundsPartition(g, k);
  }

  /** A package left in the end has a walk that comes to a cycle. */
  lemma LeftLeads(g: seq<Package>, k: nat, name: string)
    requires Dictionary(g) && k >= |g| && name in Names(Rest(g, k))
    ensures LeadsToCycle(g, name)
  {
    var rest := Rest(g, k);
    EndStuck(g, k);
    RestPart(g, k);
    var path := WalkWithin(g, rest, name, |Names(rest)|);
    Pigeonhole(path, Names(rest));
    assert Circling(g, path);
  }

  /** A package with a walk that comes to a cycle is left, however many rounds there are. */
  lemma LeadsStays(g: seq<Package>, k: nat, path: seq<string>)
    requires Dictionary(g) && Circling(g, path)
    ensures path[0] in Names(Rest(g, k))
  {
    var i, j :| 0 <= i < j < |path| && path[i] == path[j];
    var front := path[..j + 1];
    assert forall m :: 0 <= m < |front| ==> front[m] == path[m];
    assert front[|front| - 1] == front[..|front| - 1][i];
    assert EndsInside(g, front);
    CycleStays(g, front, k);
    assert front[0] in Names(Rest(g, k));
  }

  /** After as many rounds as there are packages, exactly those are left from which a walk comes to a cycle. */
  lemma LeftIff(g: seq<Package>, k: nat, p: Package)
    requires Dictionary(g) && k >= |g| && p in g
    ensures p in Rest(g, k) <==> LeadsToCycle(g, p.name)
  {
    if p in Rest(g, k) {
      LeftLeads(g, k, p.name);
    }
    if LeadsToCycle(g, p.name) {
      var path :| Circling(g, path) && path[0] == p.name;
      LeadsStays(g, k, path);
      RestPart(g, k);
      var q :| q in Rest(g, k) && q.name == p.name;
      SameName(g, p, q);
    }
  }

  /** The rounds empty the graph exactly if it has no cycle. */
  lemma EmptiedIff(g: seq<Package>, k: nat)
    requires Dictionary(g) && k >= |g|
    ensures Rest(g, k) == [] <==> !Cyclic(g)
  {
    if Rest(g, k) != [] {
      var p := Rest(g, k)[0];
      assert p in Rest(g, k);
      LeftLeads(g, k, p.name);
      var path :| Circling(g, path) && path[0] == p.name;
      CirclingIsCyclic(g, path);
    } else if Cyclic(g) {
      var path :| Cycle(g, path);
      assert path[0] == path[|path| - 1];
      assert Circling(g, path);
      LeadsStays(g, k, path);
    }
  }

  // ---------------------------------------------------------------- the script

  /** The family of the workspace's own crates. */
  const FAMILY := "solana"

  /** A package with its dependencies outside the family left out. */
  function Own(p: Package): Package
  {
    p.(dependencies := Family(p.dependencies))
  }

  function Family(names: seq<string>): seq<string>
  {
    if names == [] then []
    else Family(names[..|names| - 1]) + if FAMILY <= names[|names| - 1] then [names[|names| - 1]] else []
  }

  lemma {:induction false} FamilyIff(names: seq<string>, x: string)
    ensures x in Family(names) <==> x in names && FAMILY <= x
  {
    if names != [] {
      FamilyIff(names[..|names| - 1], x);
      assert names == names[..|names| - 1] + [names[|names| - 1]];
    }
  }

  /** The dictionary of packages: a name seen again takes the place of the earlier one. */
  function Put(g: seq<Package>, p: Package): seq<Package>
  {
    if p.name in Names(g) then Replaced(g, p) else g + [p]
  }

  function Replaced(g: seq<Package>, p: Package): seq<Package>
  {
    if g == [] then []
    else Replaced(g[..|g| - 1], p) + [if g[|g| - 1].name == p.name then p else g[|g| - 1]]
  }

  lemma {:induction false} ReplacedMembers(g: seq<Package>, p: Package)
    requires Dictionary(g)
    ensures forall q :: q in Replaced(g, p) <==> (q == p && p.name in Names(g)) || (q in g && q.name != p.name)
  {
    if g != [] {
      LastIsNew(g);
      ReplacedMembers(g[..|g| - 1], p);
      assert g == g[..|g| - 1] + [g[|g| - 1]];
    }
  }

  lemma {:induction false} ReplacedDictionary(g: seq<Package>, p: Package)
    requires Dictionary(g)
    ensures Dictionary(Replaced(g, p))
  {
    if g != [] {
      var init, last := g[..|g| - 1], g[|g| - 1];
      LastIsNew(g);
      ReplacedDictionary(init, p);
      ReplacedMembers(init, p);
      PushDictionary(Replaced(init, p), if last.name == p.name then p else last);
    }
  }

  lemma PutDictionary(g: seq<Package>, p: Package)
    requires Dictionary(g)
    ensures Dictionary(Put(g, p))
    ensures forall q :: q in Put(g, p) <==> q == p || (q in g && q.name != p.name)
  {
    if p.name in Names(g) {
      ReplacedDictionary(g, p);
      ReplacedMembers(g, p);
    } else {
      assert forall q :: q in g ==> q.name in Names(g);
      PushDictionary(g, p);
    }
  }

  lemma PutNames(g: seq<Package>, p: Package)
    requires Dictionary(g)
    ensures Names(Put(g, p)) == Names(g) + {p.name}
  {
    PutDictionary(g, p);
  }

  function Loaded(metadata: seq<Package>): seq<Package>
  {
    if metadata == [] then []
    else Put(Loaded(metadata[..|metadata| - 1]), Own(metadata[|metadata| - 1]))
  }

  lemma {:induction false} LoadedDictionary(metadata: seq<Package>)
    ensures Dictionary(Loaded(metadata)) && Names(Loaded(metadata)) == Names(metadata)
  {
    if metadata != [] {
      var init, last := metadata[..|metadata| - 1], metadata[|metadata| - 1];
      LoadedDictionary(init);
      PutDictionary(Loaded(init), Own(last));
      PutNames(Loaded(init), Own(last));
      assert metadata == init + [last];
    }
  }

  /** The pairs that depend on each other, or on themselves. */
  ghost function Pairs(g: seq<Package>): set<set<string>>
  {
    set a, b | a in Names(g) && b in Names(g) && Edge(g, a, b) && Edge(g, b, a) :: {a, b}
  }

  lemma PairIsCycle(g: seq<Package>)
    requires Pairs(g) != {}
    ensures Cyclic(g)
  {
    var pair :| pair in Pairs(g);
    var a, b :| Edge(g, a, b) && Edge(g, b, a) && pair == {a, b};
    var path := [a, b, a];
    assert Cycle(g, path);
  }

  /** What the script comes to. */
  ghost function Outcome(g: seq<Package>): Result
  {
    var limit := |g| * |g|;
    if Pairs(g) != {} then DirectCycle(Pairs(g))
    else if Rest(g, limit) == [] then Ordered(Taken(g, limit))
    else Suspected(Rest(g, limit))
  }

  lemma Limit(g: seq<Package>)
    ensures |g| * |g| >= |g|
  {
  }

  /**
   The script succeeds exactly if the workspace has no cycle, and then lists every package once, after all its dependencies in
   the workspace. If it suspects a cycle there is one, and the packages it names are those from which one can be reached.
   */
  lemma OutcomeIff(g: seq<Package>)
    requires Dictionary(g)
    ensures Outcome(g).Ordered? <==> !Cyclic(g)
    ensures Outcome(g).Ordered? ==>
              var list := Outcome(g).packages;
              Dictionary(list) && |list| == |g| && (forall p :: p in list <==> p in g) && DependenciesFirst(g, list)
    ensures Outcome(g).Suspected? ==>
              Outcome(g).packages != [] && forall p :: p in g ==> (p in Outcome(g).packages <==> LeadsToCycle(g, p.name))
  {
    var limit := |g| * |g|;
    Limit(g);
    EmptiedIff(g, limit);
    if Pairs(g) != {} {
      PairIsCycle(g);
    } else if Rest(g, limit) == [] {
      RoundsPartition(g, limit);
      TakenInOrder(g, limit);
    } else {
      forall p | p in g ensures p in Rest(g, limit) <==> LeadsToCycle(g, p.name) {
        LeftIff(g, limit, p);
      }
    }
  }

  lemma NothingLeft()
    ensures Ready([]) == [] && Waiting([]) == []
  {
  }

  lemma {:induction false} EmptyStays(g: seq<Package>, k: nat, n: nat)
    requires Rest(g, k) == [] && k <= n
    ensures Rest(g, n) == [] && Taken(g, n) == Taken(g, k)
  {
    if k < n {
      EmptyStays(g, k, n - 1);
      NothingLeft();
    }
  }

  method HasName(g: seq<Package>, name: string) returns (found: bool)
    ensures found <==> name in Names(g)
  {
    found := false;
    for i := 0 to |g|
      invariant found <==> name in Names(g[..i])
    {
      assert g[..i + 1] == g[..i] + [g[i]];
      if g[i].name == name {
        found := true;
      }
    }
    assert g[..|g|] == g;
  }

  /** Whether the package has no dependency left in the graph. */
  method IsFree(p: Package, g: seq<Package>) returns (free: bool)
    ensures free <==> Free(p, g)
  {
    for i := 0 to |p.dependencies|
      invariant forall j :: 0 <= j < i ==> p.dependencies[j] !in Names(g)
    {
      var left := HasName(g, p.dependencies[i]);
      if left {
        return false;
      }
    }
    return true;
  }

  /** One round over the graph, which does not change meanwhile. */
  method Round(g: seq<Package>) returns (ready: seq<Package>, waiting: seq<Package>)
    ensures ready == Ready(g) && waiting == Waiting(g)
  {
    ready, waiting := [], [];
    for i := 0 to |g|
      invariant ready == Keep(g[..i], FreeIn(g)) && waiting == Keep(g[..i], HeldIn(g))
    {
      assert g[..i + 1][..i] == g[..i];
      var free := IsFree(g[i], g);
      if free {
        ready := ready + [g[i]];
      } else {
        waiting := waiting + [g[i]];
      }
    }
    assert g[..|g|] == g;
  }

  /** The ordering loop, with its limit on the number of rounds. */
  method OrderPackages(g: seq<Package>) returns (r: Result)
    requires Dictionary(g) && Pairs(g) == {}
    ensures r == Outcome(g)
  {
    var graph, sorted, left := g, [], |g| * |g|;
    ghost var k := 0;
    while graph != []
      invariant left >= 0 && k + left == |g| * |g| && graph == Rest(g, k) && sorted == Taken(g, k)
      decreases left
    {
      if left == 0 {
        return Suspected(graph);
      }
      left := left - 1;
      var ready, waiting := Round(graph);
      sorted := sorted + ready;
      graph := waiting;
      k := k + 1;
    }
    EmptyStays(g, k, |g| * |g|);
    return Ordered(sorted);
  }

  /** The dependency is in the graph and depends on the package in turn. */
  method DependsBack(g: seq<Package>, name: string, d: string) returns (back: bool)
    ensures back <==> exists q :: q in g && q.name == d && name in q.dependencies
  {
    for i := 0 to |g|
      invariant forall j :: 0 <= j < i ==> !(g[j].name == d && name in g[j].dependencies)
    {
      if g[i].name == d && name in g[i].dependencies {
        assert g[i] in g;
        return true;
      }
    }
    return false;
  }

  /** The mutual pairs of one package, by its first n dependencies. */
  ghost function PairsOf(g: seq<Package>, p: Package, n: nat): set<set<string>>
    requires n <= |p.dependencies|
  {
    set i | 0 <= i < n && Back(g, p.name, p.dependencies[i]) :: {p.name, p.dependencies[i]}
  }

  ghost predicate Back(g: seq<Package>, name: string, d: string)
  {
    exists q :: q in g && q.name == d && name in q.dependencies
  }

  ghost function PairsUpTo(g: seq<Package>, n: nat): set<set<string>>
    requires n <= |g|
  {
    if n == 0 then {} else PairsUpTo(g, n - 1) + PairsOf(g, g[n - 1], |g[n - 1].dependencies|)
  }

  lemma {:induction false} PairsUpToIff(g: seq<Package>, n: nat, pair: set<string>)
    requires n <= |g|
    ensures pair in PairsUpTo(g, n) <==>
              exists k, i :: 0 <= k < n && 0 <= i < |g[k].dependencies|
                && Back(g, g[k].name, g[k].dependencies[i]) && pair == {g[k].name, g[k].dependencies[i]}
  {
    if n > 0 {
      PairsUpToIff(g, n - 1, pair);
    }
  }

  lemma MutualPair(g: seq<Package>, k: nat, i: nat)
    requires k < |g| && i < |g[k].dependencies| && Back(g, g[k].name, g[k].dependencies[i])
    ensures {g[k].name, g[k].dependencies[i]} in Pairs(g)
  {
    var a, b := g[k].name, g[k].dependencies[i];
    var q :| q in g && q.name == b && a in q.dependencies;
    assert g[k] in g;
    assert Edge(g, a, b) && Edge(g, b, a);
  }

  lemma PairFound(g: seq<Package>, a: string, b: string)
    requires Edge(g, a, b) && Edge(g, b, a)
    ensures {a, b} in PairsUpTo(g, |g|)
  {
    var p :| p in g && p.name == a && b in p.dependencies;
    var k :| 0 <= k < |g| && g[k] == p;
    var i :| 0 <= i < |p.dependencies| && p.dependencies[i] == b;
    assert Back(g, g[k].name, g[k].dependencies[i]);
    PairsUpToIff(g, |g|, {a, b});
  }

  lemma PairsAll(g: seq<Package>)
    ensures PairsUpTo(g, |g|) == Pairs(g)
  {
    forall pair | pair in PairsUpTo(g, |g|) ensures pair in Pairs(g) {
      PairsUpToIff(g, |g|, pair);
      var k, i :| 0 <= k < |g| && 0 <= i < |g[k].dependencies|
        && Back(g, g[k].name, g[k].dependencies[i]) && pair == {g[k].name, g[k].dependencies[i]};
      MutualPair(g, k, i);
    }
    forall pair | pair in Pairs(g) ensures pair in PairsUpTo(g, |g|) {
      var a, b :| Edge(g, a, b) && Edge(g, b, a) && pair == {a, b};
      PairFound(g, a, b);
    }
  }

  /** The check for direct circular dependencies. */
  method DirectPairs(g: seq<Package>) returns (pairs: set<set<string>>)
    ensures pairs == Pairs(g)
  {
    pairs := {};
    for k := 0 to |g|
      invariant pairs == PairsUpTo(g, k)
    {
      ghost var before := pairs;
      for i := 0 to |g[k].dependencies|
        invariant pairs == before + PairsOf(g, g[k], i)
      {
        var back := DependsBack(g, g[k].name, g[k].dependencies[i]);
        PairsOfStep(g, g[k], i);
        if back {
          pairs := pairs + {{g[k].name, g[k].dependencies[i]}};
        }
      }
    }
    PairsAll(g);
  }

  lemma PairsOfStep(g: seq<Package>, p: Package, i: nat)
    requires i < |p.dependencies|
    ensures PairsOf(g, p, i + 1)
            == PairsOf(g, p, i) + if Back(g, p.name, p.dependencies[i]) then {{p.name, p.dependencies[i]}} else {}
  {
  }

  /** Packages without dependencies are all taken in the first round, in order. */
  lemma NothingToWaitFor(g: seq<Package>)
    requires Dictionary(g) && forall p :: p in g ==> p.dependencies == []
    ensures Outcome(g) == Ordered(g)
  {
    assert Pairs(g) == {};
    if g == [] {
    } else {
      KeepAll(g, FreeIn(g));
      Sorted(g);
      assert Rest(g, 0) == g && Taken(g, 0) == [];
      assert Rest(g, 1) == [] && Taken(g, 1) == g;
      Limit(g);
      EmptyStays(g, 1, |g| * |g|);
    }
  }
}
