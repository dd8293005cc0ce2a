/**
 What the publishing script guarantees about the metadata it reads, whose dependencies it looks at only if their names belong to
 the family.
 */
module PublishTheorems {
  import opened PublishOrder
  import opened Sequences

  // ---------------------------------------------------------------- the raw workspace

  /** The packages of the metadata with all their dependencies; a name seen again takes the place of the earlier one. */
  function Workspace(metadata: seq<Package>): seq<Package>
  {
    if metadata == [] then []
    else Put(Workspace(metadata[..|metadata| - 1]), metadata[|metadata| - 1])
  }

  lemma {:induction false} WorkspaceDictionary(metadata: seq<Package>)
    ensures Dictionary(Workspace(metadata))
  {
    if metadata != [] {
      WorkspaceDictionary(metadata[..|metadata| - 1]);
      PutDictionary(Workspace(metadata[..|metadata| - 1]), metadata[|metadata| - 1]);
    }
  }

  /** With distinct names the workspace is the metadata itself. */
  lemma {:induction false} DistinctWorkspace(metadata: seq<Package>)
    requires Dictionary(metadata)
    ensures Workspace(metadata) == metadata
  {
    if metadata != [] {
      var init, last := metadata[..|metadata| - 1], metadata[|metadata| - 1];
      LastIsNew(metadata);
      DistinctWorkspace(init);
      assert metadata == init + [last];
    }
  }

  /** The same packages in the same order, with their dependencies outside the family left out. */
  ghost predicate Filtered(w: seq<Package>, g: seq<Package>)
  {
    |g| == |w| && forall i :: 0 <= i < |w| ==> g[i] == Own(w[i])
  }

  lemma FilteredNames(w: seq<Package>, g: seq<Package>)
    requires Filtered(w, g)
    ensures Names(g) == Names(w)
  {
    forall p | p in w ensures p.name in Names(g) {
      var i :| 0 <= i < |w| && w[i] == p;
      assert g[i] in g;
    }
    forall p | p in g ensures p.name in Names(w) {
      var i :| 0 <= i < |g| && g[i] == p;
      assert w[i] in w;
    }
  }

  lemma {:induction false} FilteredReplaced(w: seq<Package>, g: seq<Package>, p: Package)
    requires Filtered(w, g)
    ensures Filtered(Replaced(w, p), Replaced(g, Own(p)))
  {
    if w != [] {
      FilteredReplaced(w[..|w| - 1], g[..|g| - 1], p);
    }
  }

  /** What the script loads is the workspace, filtered. */
  lemma {:induction false} LoadedFiltered(metadata: seq<Package>)
    ensures Filtered(Workspace(metadata), Loaded(metadata))
  {
    if metadata != [] {
      var init, last := metadata[..|metadata| - 1], metadata[|metadata| - 1];
      LoadedFiltered(init);
      FilteredNames(Workspace(init), Loaded(init));
      FilteredReplaced(Workspace(init), Loaded(init), last);
    }
  }

  predicate InFamily(name: string)
  {
    FAMILY <= name
  }

  /** The script sees a dependency exactly if its name is in the family. */
  lemma SeenIff(w: seq<Package>, g: seq<Package>, a: string, b: string)
    requires Filtered(w, g)
    ensures Edge(g, a, b) <==> Edge(w, a, b) && InFamily(b)
  {
    FilteredNames(w, g);
    if Edge(g, a, b) {
      var p :| p in g && p.name == a && b in p.dependencies;
      var i :| 0 <= i < |g| && g[i] == p;
      FamilyIff(w[i].dependencies, b);
      assert w[i] in w;
    }
    if Edge(w, a, b) && InFamily(b) {
      var p :| p in w && p.name == a && b in p.dependencies;
      var i :| 0 <= i < |w| && w[i] == p;
      FamilyIff(p.dependencies, b);
      assert g[i] in g;
    }
  }

  // ---------------------------------------------------------------- cycles of the family

  /** From the given position on, all names are in the family. */
  predicate FamilyFrom(path: seq<string>, k: nat)
  {
    forall i :: k <= i < |path| ==> InFamily(path[i])
  }

  lemma SeenWalk(w: seq<Package>, g: seq<Package>, path: seq<string>)
    requires Filtered(w, g)
    ensures Walk(g, path) <==> Walk(w, path) && FamilyFrom(path, 1)
  {
    forall i | 0 <= i < |path| - 1
      ensures Edge(g, path[i], path[i + 1]) <==> Edge(w, path[i], path[i + 1]) && InFamily(path[i + 1])
    {
      SeenIff(w, g, path[i], path[i + 1]);
    }
    if Walk(g, path) {
      forall i | 1 <= i < |path| ensures InFamily(path[i]) {
        assert Edge(g, path[i - 1], path[i - 1 + 1]);
      }
    }
  }

  /** A cycle of the workspace all of whose names are in the family. */
  predicate FamilyCycle(w: seq<Package>, path: seq<string>)
  {
    Cycle(w, path) && FamilyFrom(path, 0)
  }

  ghost predicate FamilyCyclic(w: seq<Package>)
  {
    exists path :: FamilyCycle(w, path)
  }

  lemma SeenCyclic(w: seq<Package>, g: seq<Package>)
    requires Filtered(w, g)
    ensures Cyclic(g) <==> FamilyCyclic(w)
  {
    if Cyclic(g) {
      var path :| Cycle(g, path);
      SeenWalk(w, g, path);
      assert FamilyCycle(w, path);
    }
    if FamilyCyclic(w) {
      var path :| FamilyCycle(w, path);
      SeenWalk(w, g, path);
      assert Cycle(g, path);
    }
  }

  /** A walk from here through the family comes to some package twice. */
  ghost predicate LeadsToFamilyCycle(w: seq<Package>, name: string)
  {
    exists path :: Circling(w, path) && path[0] == name && FamilyFrom(path, 1)
  }

  lemma SeenLeads(w: seq<Package>, g: seq<Package>, name: string)
    requires Filtered(w, g)
    ensures LeadsToCycle(g, name) <==> LeadsToFamilyCycle(w, name)
  {
    if LeadsToCycle(g, name) {
      var path :| Circling(g, path) && path[0] == name;
      SeenWalk(w, g, path);
      assert Circling(w, path);
    }
    if LeadsToFamilyCycle(w, name) {
      var path :| Circling(w, path) && path[0] == name && FamilyFrom(path, 1);
      SeenWalk(w, g, path);
      assert Circling(g, path);
    }
  }

  /** Two packages of the family, or one, that depend on each other. */
  predicate FamilyPair(w: seq<Package>, a: string, b: string)
  {
    Edge(w, a, b) && Edge(w, b, a) && InFamily(a) && InFamily(b)
  }

  lemma SeenPair(w: seq<Package>, g: seq<Package>, a: string, b: string)
    requires Filtered(w, g)
    ensures Edge(g, a, b) && Edge(g, b, a) <==> FamilyPair(w, a, b)
  {
    SeenIff(w, g, a, b);
    SeenIff(w, g, b, a);
  }

  lemma SomePair(g: seq<Package>) returns (a: string, b: string)
    requires Pairs(g) != {}
    ensures Edge(g, a, b) && Edge(g, b, a)
  {
    var pair :| pair in Pairs(g);
    a, b :| Edge(g, a, b) && Edge(g, b, a) && pair == {a, b};
  }

  // ---------------------------------------------------------------- what the script guarantees

  /** Every package of the workspace is listed once, and after its dependencies with names in the family. */
  ghost predicate Lists(w: seq<Package>, list: seq<Package>)
  {
    && Dictionary(list) && |list| == |w| && (forall p :: p in w ==> Own(p) in list)
    && forall p, i {:trigger FamilyBefore(w, p, list, i)} ::
         p in w && 0 <= i < |list| && list[i] == Own(p) ==> FamilyBefore(w, p, list, i)
  }

  ghost predicate FamilyBefore(w: seq<Package>, p: Package, list: seq<Package>, i: int)
    requires 0 <= i < |list|
  {
    forall d :: d in p.dependencies && d in Names(w) && InFamily(d) ==> d in Names(list[..i])
  }

  lemma ListedWell(w: seq<Package>, g: seq<Package>, list: seq<Package>)
    requires Filtered(w, g) && Dictionary(list) && |list| == |g| && (forall p :: p in list <==> p in g)
    requires DependenciesFirst(g, list)
    ensures Lists(w, list)
  {
    FilteredNames(w, g);
    forall p | p in w ensures Own(p) in list {
      var i :| 0 <= i < |w| && w[i] == p;
      assert g[i] in g;
    }
    forall p, i | p in w && 0 <= i < |list| && list[i] == Own(p) ensures FamilyBefore(w, p, list, i) {
      assert After(g, list, i);
      forall d | d in p.dependencies && d in Names(w) && InFamily(d) ensures d in Names(list[..i]) {
        FamilyIff(p.dependencies, d);
      }
    }
  }

  /**
   On any metadata: the script succeeds exactly if no cycle of the workspace lies within the family, and then lists every
   package once, after its dependencies with names in the family. If it suspects a cycle, it names exactly the packages from
   which a walk through the family comes to one.
   */
  lemma ScriptIff(metadata: seq<Package>)
    ensures var w, r := Workspace(metadata), Outcome(Loaded(metadata));
            && (r.Ordered? <==> !FamilyCyclic(w))
            && (r.Ordered? ==> Lists(w, r.packages))
            && (r.Suspected? ==> forall p :: p in w ==> (Own(p) in r.packages <==> LeadsToFamilyCycle(w, p.name)))
  {
    var w, g := Workspace(metadata), Loaded(metadata);
    LoadedFiltered(metadata);
    LoadedDictionary(metadata);
    OutcomeIff(g);
    SeenCyclic(w, g);
    if Outcome(g).Ordered? {
      ListedWell(w, g, Outcome(g).packages);
    } else if Outcome(g).Suspected? {
      forall p | p in w ensures Own(p) in Outcome(g).packages <==> LeadsToFamilyCycle(w, p.name) {
        var i :| 0 <= i < |w| && w[i] == p;
        assert g[i] in g;
        SeenLeads(w, g, p.name);
      }
    }
  }

  lemma ReportedIff(g: seq<Package>)
    ensures Outcome(g).DirectCycle? <==> Pairs(g) != {}
  {
  }

  lemma PairReported(g: seq<Package>, a: string, b: string)
    requires Edge(g, a, b) && Edge(g, b, a)
    ensures Pairs(g) != {}
  {
    PairFound(g, a, b);
    PairsAll(g);
  }

  ghost predicate FamilyPaired(w: seq<Package>)
  {
    exists a, b :: FamilyPair(w, a, b)
  }

  lemma PairsSeen(w: seq<Package>, g: seq<Package>)
    requires Filtered(w, g)
    ensures Pairs(g) != {} <==> FamilyPaired(w)
  {
    if Pairs(g) != {} {
      var a, b := SomePair(g);
      SeenPair(w, g, a, b);
    }
    if FamilyPaired(w) {
      var a, b :| FamilyPair(w, a, b);
      SeenPair(w, g, a, b);
      PairReported(g, a, b);
    }
  }

  lemma DirectSeen(w: seq<Package>, g: seq<Package>)
    requires Filtered(w, g)
    ensures Outcome(g).DirectCycle? <==> FamilyPaired(w)
  {
    PairsSeen(w, g);
    ReportedIff(g);
  }

  /** Direct circular dependencies are reported exactly if some pair of the family depends on each other. */
  lemma DirectIff(metadata: seq<Package>)
    ensures Outcome(Loaded(metadata)).DirectCycle? <==> FamilyPaired(Workspace(metadata))
  {
    LoadedFiltered(metadata);
    DirectSeen(Workspace(metadata), Loaded(metadata));
  }

  /** All dependencies within the workspace have names in the family. */
  ghost predicate AllFamily(w: seq<Package>)
  {
    forall a, b :: Edge(w, a, b) ==> InFamily(b)
  }

  /** Each package comes after all its dependencies in the workspace, of whatever name. */
  ghost predicate FullyOrdered(w: seq<Package>, list: seq<Package>)
  {
    forall p, i {:trigger AllBefore(w, p, list, i)} ::
      p in w && 0 <= i < |list| && list[i] == Own(p) ==> AllBefore(w, p, list, i)
  }

  ghost predicate AllBefore(w: seq<Package>, p: Package, list: seq<Package>, i: int)
    requires 0 <= i < |list|
  {
    forall d :: d in p.dependencies && d in Names(w) ==> d in Names(list[..i])
  }

  /** If the family is all there is, success means no cycle at all, and the order is complete. */
  lemma FamilyWorkspace(metadata: seq<Package>)
    requires AllFamily(Workspace(metadata))
    ensures var w, r := Workspace(metadata), Outcome(Loaded(metadata));
            (r.Ordered? <==> !Cyclic(w)) && (r.Ordered? ==> FullyOrdered(w, r.packages))
  {
    var w, r := Workspace(metadata), Outcome(Loaded(metadata));
    ScriptIff(metadata);
    if Cyclic(w) {
      var path :| Cycle(w, path);
      forall i | 0 <= i < |path| ensures InFamily(path[i]) {
        var n := if i == 0 then |path| - 1 else i;
        assert Edge(w, path[n - 1], path[n - 1 + 1]);
      }
      assert FamilyCycle(w, path);
    }
    if r.Ordered? {
      forall p, i | p in w && 0 <= i < |r.packages| && r.packages[i] == Own(p) ensures AllBefore(w, p, r.packages, i) {
        assert FamilyBefore(w, p, r.packages, i);
        forall d | d in p.dependencies && d in Names(w) ensures d in Names(r.packages[..i]) {
          assert Edge(w, p.name, d);
        }
      }
    }
  }

  // ---------------------------------------------------------------- the exact order

  /** Some chain of k dependencies starts here. */
  ghost predicate Deep(g: seq<Package>, name: string, k: nat)
  {
    exists path :: Chain(g, path, k) && path[0] == name
  }

  predicate Chain(g: seq<Package>, path: seq<string>, k: nat)
  {
    |path| == k + 1 && Walk(g, path)
  }

  lemma LongerChain(g: seq<Package>, a: string, b: string, k: nat)
    requires Edge(g, a, b) && Deep(g, b, k)
    ensures Deep(g, a, k + 1)
  {
    var tail :| Chain(g, tail, k) && tail[0] == b;
    var path := [a] + tail;
    forall i | 0 <= i < |path| - 1 ensures Edge(g, path[i], path[i + 1]) {
      assert i > 0 ==> Edge(g, tail[i - 1], tail[i - 1 + 1]);
    }
    assert Chain(g, path, k + 1);
  }

  lemma ShorterChain(g: seq<Package>, a: string, k: nat) returns (b: string)
    requires Deep(g, a, k + 1)
    ensures Edge(g, a, b) && Deep(g, b, k) && Deep(g, a, k)
  {
    var path :| Chain(g, path, k + 1) && path[0] == a;
    b := path[1];
    assert Edge(g, path[0], path[0 + 1]);
    var tail, init := path[1..], path[..k + 1];
    assert forall i :: 0 <= i < |tail| ==> tail[i] == path[i + 1];
    assert Walk(g, tail) by {
      forall i | 0 <= i < |tail| - 1 ensures Edge(g, tail[i], tail[i + 1]) {
        assert Edge(g, path[i + 1], path[i + 1 + 1]);
      }
    }
    assert Chain(g, tail, k) && Chain(g, init, k);
  }

  lemma {:induction false} DeepDown(g: seq<Package>, a: string, m: nat, k: nat)
    requires Deep(g, a, k) && m <= k
    ensures Deep(g, a, m)
    decreases k
  {
    if m < k {
      var b := ShorterChain(g, a, k - 1);
      DeepDown(g, a, m, k - 1);
    }
  }

  /** After k rounds exactly those packages are left from which some chain of k dependencies starts. */
  lemma {:induction false} RestIsDeep(g: seq<Package>, k: nat, p: Package)
    requires Dictionary(g) && p in g
    ensures p in Rest(g, k) <==> Deep(g, p.name, k)
    decreases k, 0
  {
    if k == 0 {
      assert Chain(g, [p.name], 0);
    } else {
      if p in Rest(g, k) {
        LeftIsDeep(g, k - 1, p);
      }
      if Deep(g, p.name, k) {
        var d := ShorterChain(g, p.name, k - 1);
        RestIsDeep(g, k - 1, p);
        DeepIsLeft(g, k - 1, p, d);
      }
    }
  }

  lemma LeftIsDeep(g: seq<Package>, k: nat, p: Package)
    requires Dictionary(g) && p in g && p in Waiting(Rest(g, k))
    ensures Deep(g, p.name, k + 1)
    decreases k, 1
  {
    RestPart(g, k);
    Sorted(Rest(g, k));
    assert !Free(p, Rest(g, k));
    var d :| d in p.dependencies && d in Names(Rest(g, k));
    var q :| q in Rest(g, k) && q.name == d;
    RestIsDeep(g, k, q);
    LongerChain(g, p.name, d, k);
  }

  lemma DeepIsLeft(g: seq<Package>, k: nat, p: Package, d: string)
    requires Dictionary(g) && p in g && Edge(g, p.name, d) && Deep(g, d, k) && p in Rest(g, k)
    ensures p in Waiting(Rest(g, k))
    decreases k, 1
  {
    var q :| q in g && q.name == d;
    RestIsDeep(g, k, q);
    var r :| r in g && r.name == p.name && d in r.dependencies;
    SameName(g, p, r);
    Sorted(Rest(g, k));
    assert !Free(p, Rest(g, k));
  }

  ghost predicate Precedes(s: seq<Package>, p: Package, q: Package)
  {
    exists i, j :: 0 <= i < j < |s| && s[i] == p && s[j] == q
  }

  /** No package stands both before and after another. */
  lemma OneWay(s: seq<Package>, p: Package, q: Package)
    requires Dictionary(s) && Precedes(s, p, q)
    ensures !Precedes(s, q, p)
  {
  }

  lemma SomeWay(s: seq<Package>, p: Package, q: Package)
    requires p in s && q in s && p != q
    ensures Precedes(s, p, q) || Precedes(s, q, p)
  {
    var i :| 0 <= i < |s| && s[i] == p;
    var j :| 0 <= j < |s| && s[j] == q;
  }

  lemma PrecedesFurther(s: seq<Package>, t: seq<Package>, p: Package, q: Package)
    ensures Precedes(s, p, q) ==> Precedes(s + t, p, q)
    ensures Precedes(t, p, q) ==> Precedes(s + t, p, q)
    ensures p in s && q in t ==> Precedes(s + t, p, q)
  {
    var both := s + t;
    if Precedes(s, p, q) {
      var i, j :| 0 <= i < j < |s| && s[i] == p && s[j] == q;
      assert both[i] == p && both[j] == q;
    }
    if Precedes(t, p, q) {
      var i, j :| 0 <= i < j < |t| && t[i] == p && t[j] == q;
      assert both[|s| + i] == p && both[|s| + j] == q;
    }
    if p in s && q in t {
      var i :| 0 <= i < |s| && s[i] == p;
      var j :| 0 <= j < |t| && t[j] == q;
      assert both[i] == p && both[|s| + j] == q;
    }
  }

  /** Keeping some packages keeps their order. */
  lemma {:induction false} KeepPrecedes(s: seq<Package>, f: Package -> bool, p: Package, q: Package)
    requires Precedes(s, p, q) && f(p) && f(q)
    ensures Precedes(Keep(s, f), p, q)
  {
    var init, last := s[..|s| - 1], s[|s| - 1];
    var i, j :| 0 <= i < j < |s| && s[i] == p && s[j] == q;
    KeepIff(init, f);
    assert init[i] == p;
    if j < |s| - 1 {
      assert init[j] == q;
      KeepPrecedes(init, f, p, q);
      PrecedesFurther(Keep(init, f), if f(last) then [last] else [], p, q);
    } else {
      PrecedesFurther(Keep(init, f), [q], p, q);
    }
  }

  lemma {:induction false} RestPrecedes(g: seq<Package>, k: nat, p: Package, q: Package)
    requires Dictionary(g) && Precedes(g, p, q) && p in Rest(g, k) && q in Rest(g, k)
    ensures Precedes(Rest(g, k), p, q)
  {
    if k > 0 {
      Sorted(Rest(g, k - 1));
      RestPrecedes(g, k - 1, p, q);
      KeepPrecedes(Rest(g, k - 1), HeldIn(Rest(g, k - 1)), p, q);
    }
  }

  /** The longest chain from the first is shorter than the longest from the second. */
  ghost predicate Shallower(g: seq<Package>, p: string, q: string)
  {
    exists k: nat :: !Deep(g, p, k) && Deep(g, q, k)
  }

  /** The order of the list: by the longest chain of dependencies, then as in the metadata. */
  ghost predicate Sooner(g: seq<Package>, p: Package, q: Package)
  {
    Shallower(g, p.name, q.name) || (!Shallower(g, q.name, p.name) && Precedes(g, p, q))
  }

  // ---------------------------------------------------------------- rounds, one after the other

  function Flatten(rounds: seq<seq<Package>>): seq<Package>
  {
    if rounds == [] then [] else Flatten(rounds[..|rounds| - 1]) + rounds[|rounds| - 1]
  }

  lemma {:induction false} FlattenedFrom(rounds: seq<seq<Package>>, p: Package) returns (r: nat)
    requires p in Flatten(rounds)
    ensures r < |rounds| && p in rounds[r]
  {
    if p in rounds[|rounds| - 1] {
      r := |rounds| - 1;
    } else {
      r := FlattenedFrom(rounds[..|rounds| - 1], p);
    }
  }

  lemma {:induction false} FlattenedIn(rounds: seq<seq<Package>>, r: nat, p: Package)
    requires r < |rounds| && p in rounds[r]
    ensures p in Flatten(rounds)
  {
    if r < |rounds| - 1 {
      FlattenedIn(rounds[..|rounds| - 1], r, p);
    }
  }

  /** Packages of earlier rounds come first, those of one round as they stand in it. */
  lemma {:induction false} ByRounds(rounds: seq<seq<Package>>, r: nat, r': nat, p: Package, q: Package)
    requires r <= r' < |rounds| && p in rounds[r] && q in rounds[r'] && (r == r' ==> Precedes(rounds[r], p, q))
    ensures Precedes(Flatten(rounds), p, q)
  {
    var init, last := rounds[..|rounds| - 1], rounds[|rounds| - 1];
    if r' < |init| {
      ByRounds(init, r, r', p, q);
    } else if r < r' {
      FlattenedIn(init, r, p);
    }
    PrecedesFurther(Flatten(init), last, p, q);
  }

  function RoundsOf(g: seq<Package>, k: nat): (rounds: seq<seq<Package>>)
    ensures |rounds| == k
  {
    seq(k, i requires 0 <= i < k => Ready(Rest(g, i)))
  }

  lemma RoundAt(g: seq<Package>, k: nat, r: nat)
    requires r < k
    ensures RoundsOf(g, k)[r] == Ready(Rest(g, r))
  {
  }

  /** A list that grows by one round after the other. */
  ghost predicate Grows(lists: seq<seq<Package>>, rounds: seq<seq<Package>>)
  {
    |lists| == |rounds| + 1 && lists[0] == [] && forall i :: 0 <= i < |rounds| ==> lists[i + 1] == lists[i] + rounds[i]
  }

  lemma {:induction false} GrowsToAll(lists: seq<seq<Package>>, rounds: seq<seq<Package>>)
    requires Grows(lists, rounds)
    ensures lists[|rounds|] == Flatten(rounds)
  {
    if rounds != [] {
      GrowsToAll(lists[..|rounds|], rounds[..|rounds| - 1]);
    }
  }

  function ListsOf(g: seq<Package>, k: nat): (lists: seq<seq<Package>>)
    ensures |lists| == k + 1
  {
    seq(k + 1, i requires 0 <= i <= k => Taken(g, i))
  }

  lemma OneMoreList(g: seq<Package>, k: nat, i: nat)
    requires i < k
    ensures ListsOf(g, k)[i + 1] == ListsOf(g, k)[i] + RoundsOf(g, k)[i]
  {
  }

  lemma ListsGrow(g: seq<Package>, k: nat)
    ensures Grows(ListsOf(g, k), RoundsOf(g, k))
  {
    forall i | 0 <= i < k ensures ListsOf(g, k)[i + 1] == ListsOf(g, k)[i] + RoundsOf(g, k)[i] {
      OneMoreList(g, k, i);
    }
  }

  lemma TakenByRounds(g: seq<Package>, k: nat)
    ensures Taken(g, k) == Flatten(RoundsOf(g, k))
  {
    ListsGrow(g, k);
    GrowsToAll(ListsOf(g, k), RoundsOf(g, k));
  }

  // ---------------------------------------------------------------- rounds and chains

  /** The longest chain from here has k dependencies. */
  ghost predicate Depth(g: seq<Package>, name: string, k: nat)
  {
    Deep(g, name, k) && !Deep(g, name, k + 1)
  }

  lemma NotShallower(g: seq<Package>, p: string, q: string, k: nat)
    requires Deep(g, p, k) && !Deep(g, q, k + 1)
    ensures !Shallower(g, p, q)
  {
    if Shallower(g, p, q) {
      var m: nat :| !Deep(g, p, m) && Deep(g, q, m);
      if m <= k {
        DeepDown(g, p, m, k);
      } else {
        DeepDown(g, q, k + 1, m);
      }
    }
  }

  /** Which of two packages comes sooner, by their depths. */
  lemma SoonerByDepth(g: seq<Package>, p: Package, q: Package, r: nat, r': nat)
    requires Depth(g, p.name, r) && Depth(g, q.name, r') && Sooner(g, p, q)
    ensures r <= r' && (r == r' ==> Precedes(g, p, q))
  {
    if r' <= r {
      if Deep(g, q.name, r + 1) {
        DeepDown(g, q.name, r' + 1, r + 1);
      }
      NotShallower(g, p.name, q.name, r);
      if r' < r && Deep(g, q.name, r) {
        DeepDown(g, q.name, r' + 1, r);
      }
      assert r' < r ==> Shallower(g, q.name, p.name);
    }
  }

  /** A round takes the packages whose longest chain has just its number of dependencies. */
  lemma ReadyDepth(g: seq<Package>, k: nat, p: Package)
    requires Dictionary(g) && p in Ready(Rest(g, k))
    ensures p in g && Depth(g, p.name, k)
  {
    RestPart(g, k);
    Sorted(Rest(g, k));
    RestIsDeep(g, k, p);
    RestIsDeep(g, k + 1, p);
  }

  /** Two packages of one round stand in the order of the graph. */
  lemma SameRound(g: seq<Package>, k: nat, p: Package, q: Package)
    requires Dictionary(g) && p in Ready(Rest(g, k)) && q in Ready(Rest(g, k)) && Precedes(g, p, q)
    ensures Precedes(Ready(Rest(g, k)), p, q)
  {
    Sorted(Rest(g, k));
    RestPrecedes(g, k, p, q);
    KeepPrecedes(Rest(g, k), FreeIn(Rest(g, k)), p, q);
  }

  lemma RoundsSooner(g: seq<Package>, k: nat, r: nat, r': nat, p: Package, q: Package)
    requires Dictionary(g) && |RoundsOf(g, k)| == k && r < k && r' < k && Sooner(g, p, q)
    requires p in RoundsOf(g, k)[r] && q in RoundsOf(g, k)[r']
    ensures r <= r' && (r == r' ==> Precedes(RoundsOf(g, k)[r], p, q))
  {
    RoundAt(g, k, r);
    RoundAt(g, k, r');
    ReadyDepth(g, r, p);
    ReadyDepth(g, r', q);
    SoonerByDepth(g, p, q, r, r');
    if r == r' {
      SameRound(g, r, p, q);
    }
  }

  lemma TakenSooner(g: seq<Package>, k: nat, p: Package, q: Package)
    requires Dictionary(g) && p in Taken(g, k) && q in Taken(g, k) && Sooner(g, p, q)
    ensures Precedes(Taken(g, k), p, q)
  {
    TakenByRounds(g, k);
    var r := FlattenedFrom(RoundsOf(g, k), p);
    var r' := FlattenedFrom(RoundsOf(g, k), q);
    RoundsSooner(g, k, r, r', p, q);
    ByRounds(RoundsOf(g, k), r, r', p, q);
  }

  lemma SoonerTotal(g: seq<Package>, p: Package, q: Package)
    requires p in g && q in g && p != q
    ensures Sooner(g, p, q) || Sooner(g, q, p)
  {
    SomeWay(g, p, q);
  }

  /** The list is sorted by the longest chain of dependencies from each package, and then as the graph is. */
  lemma ListedIff(g: seq<Package>, p: Package, q: Package)
    requires Dictionary(g) && Outcome(g).Ordered? && p in g && q in g && p != q
    ensures Precedes(Outcome(g).packages, p, q) <==> Sooner(g, p, q)
  {
    var k := |g| * |g|;
    OutcomeIff(g);
    ListedFor(g, k, p, q);
  }

  lemma ListedFor(g: seq<Package>, k: nat, p: Package, q: Package)
    requires Dictionary(g) && Dictionary(Taken(g, k)) && p in g && q in g && p in Taken(g, k) && q in Taken(g, k) && p != q
    ensures Precedes(Taken(g, k), p, q) <==> Sooner(g, p, q)
  {
    if Sooner(g, p, q) {
      TakenSooner(g, k, p, q);
    } else {
      SoonerTotal(g, p, q);
      TakenSooner(g, k, q, p);
      OneWay(Taken(g, k), q, p);
    }
  }

  lemma NameBefore(list: seq<Package>, i: nat, q: Package)
    requires Dictionary(list) && i < |list| && q in list
    ensures q.name in Names(list[..i]) <==> Precedes(list, q, list[i])
  {
    if q.name in Names(list[..i]) {
      var r :| r in list[..i] && r.name == q.name;
      assert r in list;
      SameName(list, q, r);
      var j :| 0 <= j < i && list[..i][j] == q;
      assert list[j] == q;
    }
    if Precedes(list, q, list[i]) {
      var j, k :| 0 <= j < k < |list| && list[j] == q && list[k] == list[i];
      assert list[..i][j] == q;
      assert q in list[..i];
    }
  }

  /** Each dependency in the workspace that the script does not see comes sooner all the same. */
  ghost predicate UnseenSooner(w: seq<Package>, g: seq<Package>)
  {
    forall p, q {:trigger UnseenEdge(p, q)} :: p in w && q in w && UnseenEdge(p, q) ==> Sooner(g, Own(q), Own(p))
  }

  predicate UnseenEdge(p: Package, q: Package)
  {
    q.name in p.dependencies && !InFamily(q.name)
  }

  lemma NotSoonerThanItself(g: seq<Package>, p: Package)
    requires Dictionary(g)
    ensures !Sooner(g, p, p)
  {
    if Precedes(g, p, p) {
      OneWay(g, p, p);
    }
  }

  /** What the script has listed, seen from one package. */
  lemma BeforeIff(g: seq<Package>, i: nat, q: Package)
    requires Dictionary(g) && Outcome(g).Ordered? && q in g && i < |Outcome(g).packages|
    ensures q.name in Names(Outcome(g).packages[..i]) <==> Sooner(g, q, Outcome(g).packages[i])
  {
    var list := Outcome(g).packages;
    OutcomeIff(g);
    assert list[i] in list;
    NameBefore(list, i, q);
    if q == list[i] {
      NotSoonerThanItself(g, q);
      if Precedes(list, q, q) {
        OneWay(list, q, q);
      }
    } else {
      ListedIff(g, q, list[i]);
    }
  }

  lemma OrderedThenSooner(w: seq<Package>, g: seq<Package>, p: Package, q: Package)
    requires Filtered(w, g) && Dictionary(g) && Outcome(g).Ordered? && FullyOrdered(w, Outcome(g).packages)
    requires p in w && q in w && UnseenEdge(p, q)
    ensures Sooner(g, Own(q), Own(p))
  {
    var list := Outcome(g).packages;
    OutcomeIff(g);
    OwnIn(w, g, p);
    OwnIn(w, g, q);
    var i :| 0 <= i < |list| && list[i] == Own(p);
    assert AllBefore(w, p, list, i);
    BeforeIff(g, i, Own(q));
  }

  lemma OwnIn(w: seq<Package>, g: seq<Package>, p: Package)
    requires Filtered(w, g) && p in w
    ensures Own(p) in g
  {
    var i :| 0 <= i < |w| && w[i] == p;
    assert g[i] in g;
  }

  lemma SoonerThenBefore(w: seq<Package>, g: seq<Package>, p: Package, i: nat, d: string)
    requires Filtered(w, g) && Dictionary(g) && Outcome(g).Ordered? && UnseenSooner(w, g)
    requires p in w && i < |Outcome(g).packages| && Outcome(g).packages[i] == Own(p)
    requires d in p.dependencies && d in Names(w) && !InFamily(d)
    ensures d in Names(Outcome(g).packages[..i])
  {
    var q :| q in w && q.name == d;
    OwnIn(w, g, q);
    assert UnseenEdge(p, q);
    BeforeIff(g, i, Own(q));
  }

  lemma AllThenOrdered(w: seq<Package>, g: seq<Package>)
    requires Filtered(w, g) && Dictionary(g) && Outcome(g).Ordered? && UnseenSooner(w, g) && Lists(w, Outcome(g).packages)
    ensures FullyOrdered(w, Outcome(g).packages)
  {
    var list := Outcome(g).packages;
    forall p, i | p in w && 0 <= i < |list| && list[i] == Own(p) ensures AllBefore(w, p, list, i) {
      assert FamilyBefore(w, p, list, i);
      forall d | d in p.dependencies && d in Names(w) ensures d in Names(list[..i]) {
        if !InFamily(d) {
          SoonerThenBefore(w, g, p, i, d);
        }
      }
    }
  }

  /**
   When the list is in the order of all dependencies in the workspace: exactly if each dependency outside the family has a
   shorter longest chain of family dependencies than its dependent, or an equal one and an earlier place in the metadata.
   */
  lemma FullOrderIff(metadata: seq<Package>)
    requires Outcome(Loaded(metadata)).Ordered?
    ensures FullyOrdered(Workspace(metadata), Outcome(Loaded(metadata)).packages)
            <==> UnseenSooner(Workspace(metadata), Loaded(metadata))
  {
    var w, g := Workspace(metadata), Loaded(metadata);
    LoadedFiltered(metadata);
    LoadedDictionary(metadata);
    ScriptIff(metadata);
    if UnseenSooner(w, g) {
      AllThenOrdered(w, g);
    }
    if FullyOrdered(w, Outcome(g).packages) {
      forall p, q | p in w && q in w && UnseenEdge(p, q) ensures Sooner(g, Own(q), Own(p)) {
        OrderedThenSooner(w, g, p, q);
      }
    }
  }

  /** The whole script, from the packages of the metadata. */
  method GetPackages(metadata: seq<Package>) returns (r: Result)
    ensures r == Outcome(Loaded(metadata))
    ensures r.Ordered? <==> !FamilyCyclic(Workspace(metadata))
    ensures r.Ordered? ==> Lists(Workspace(metadata), r.packages)
  {
    var g := [];
    for i := 0 to |metadata|
      invariant g == Loaded(metadata[..i])
    {
      assert metadata[..i + 1][..i] == metadata[..i];
      g := Put(g, Own(metadata[i]));
    }
    assert metadata[..|metadata|] == metadata;
    LoadedDictionary(metadata);
    ScriptIff(metadata);
    var pairs := DirectPairs(g);
    if pairs != {} {
      return DirectCycle(pairs);
    }
    r := OrderPackages(g);
  }

  /** A list that begins with a package that has a dependency in the workspace is not in order. */
  lemma FirstWaits(w: seq<Package>, p: Package, d: string, list: seq<Package>)
    requires p in w && d in p.dependencies && d in Names(w) && list != [] && list[0] == Own(p)
    ensures !FullyOrdered(w, list)
  {
    assert list[..0] == [];
    assert !AllBefore(w, p, list, 0);
  }

  lemma OutsideFamily(name: string)
    requires !InFamily(name)
    ensures Family([name]) == []
  {
    assert [name][..0] == [];
    assert Family([]) == [];
  }

  lemma OwnPair(p: Package, q: Package)
    requires p.dependencies == [q.name] && q.dependencies == [] && !InFamily(q.name)
    ensures Own(p).dependencies == [] && Own(q) == q
  {
    OutsideFamily(q.name);
  }

  lemma LoadedPair(p: Package, q: Package)
    requires p.name != q.name
    ensures Workspace([p, q]) == [p, q] && Loaded([p, q]) == [Own(p), Own(q)]
  {
    DistinctWorkspace([p, q]);
    LoadedFiltered([p, q]);
  }

  lemma LoadedOutcome(m: seq<Package>, g: seq<Package>)
    requires Loaded(m) == g && Dictionary(g) && forall p :: p in g ==> p.dependencies == []
    ensures Outcome(Loaded(m)) == Ordered(g)
  {
    NothingToWaitFor(g);
  }

  lemma PairOutOfOrder(p: Package, q: Package)
    requires p.dependencies == [q.name]
    ensures !FullyOrdered([p, q], [Own(p), q])
  {
    assert p.dependencies[0] == q.name;
    assert p in [p, q] && q in [p, q];
    FirstWaits([p, q], p, q.name, [Own(p), q]);
  }

  /** A package that comes before its only dependency is listed before it, if the dependency is outside the family. */
  lemma UnseenUnordered(p: Package, q: Package)
    requires p.name != q.name && p.dependencies == [q.name] && q.dependencies == [] && !InFamily(q.name)
    ensures Outcome(Loaded([p, q])) == Ordered([Own(p), q]) && !FullyOrdered(Workspace([p, q]), [Own(p), q])
  {
    LoadedPair(p, q);
    OwnPair(p, q);
    LoadedOutcome([p, q], [Own(p), q]);
    PairOutOfOrder(p, q);
  }

  /** So two packages of another family are listed as they come. */
  lemma OtherNamesUnordered()
    ensures var m := [Package("analog-a", ["analog-b"], "a"), Package("analog-b", [], "b")];
            Outcome(Loaded(m)) == Ordered([Own(m[0]), m[1]]) && !FullyOrdered(Workspace(m), [Own(m[0]), m[1]])
  {
    var p, q := Package("analog-a", ["analog-b"], "a"), Package("analog-b", [], "b");
    assert p.name[7] != q.name[7];
    assert FAMILY[0] != q.name[0];
    UnseenUnordered(p, q);
  }
}
