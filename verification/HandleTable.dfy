/** Entries of the LRU cache. Fields that the cache sets once, when the entry is created, are constants. */
module LruHandles {

  type Hash = h: nat | h < 0x1_0000_0000

  /** What the table compares: the hash first, then the key. */
  datatype Id = Id(hash: Hash, key: string)

  class Handle {
    const id: Id
    const value: int
    /** CalcTotalCharge: the caller's charge plus the metadata charge, fixed for the life of the entry. */
    const charge: nat
    const highPri: bool
    var nextHash: Handle?
    var next: Handle?
    var prev: Handle?
    var refs: nat
    var inCache: bool
    var inHighPriPool: bool
    var hasHit: bool

    constructor (id: Id, value: int, charge: nat, highPri: bool, inCache: bool)
      ensures this.id == id && this.value == value && this.charge == charge && this.highPri == highPri
      ensures nextHash == next == prev == null && refs == 0 && this.inCache == inCache && !inHighPriPool && !hasHit
    {
      this.id := id;
      this.value := value;
      this.charge := charge;
      this.highPri := highPri;
      nextHash := null;
      next := null;
      prev := null;
      refs := 0;
      this.inCache := inCache;
      inHighPriPool := false;
      hasHit := false;
    }
  }

  /** Invariants stated under this stay folded in a proof until it is asserted. */
  predicate Open(b: bool)
  {
    true
  }

  /** Element k of a list of entries, or null past its end. */
  function At(s: seq<Handle>, k: nat): (h: Handle?)
  {
    if k < |s| then s[k] else null
  }
}

/** The chained hash table of the LRU cache: buckets are singly linked through nextHash and chosen by the upper hash bits. */
module HandleTables {
  import opened LruHandles
  import opened Powers
  import opened Sequences

  function Bucket(hash: Hash, bits: nat): nat
    requires bits <= 32
  {
    ShiftRight(hash, 32 - bits)
  }

  lemma BucketInRange(hash: Hash, bits: nat)
    requires bits <= 32
    ensures Bucket(hash, bits) < Pow2(bits)
  {
    Pow2Of32();
    ShiftLeftPow2(bits, 32 - bits);
    ShiftGalois(hash, 32 - bits, Pow2(bits));
  }

  /** The chain of bucket b holds entries of that bucket. */
  ghost predicate ChainOk(chain: seq<Handle>, b: nat, members: set<Handle>, bits: nat)
    requires bits <= 31
  {
    forall h :: h in chain ==> h in members && Bucket(h.id.hash, bits) == b
  }

  ghost predicate InChain(h: Handle, chains: seq<seq<Handle>>, bits: nat)
    requires bits <= 31
  {
    Bucket(h.id.hash, bits) < |chains| && h in chains[Bucket(h.id.hash, bits)]
  }

  /** The chains hold exactly the entries, each in the chain of its upper hash bits. */
  ghost predicate Placed(chains: seq<seq<Handle>>, members: set<Handle>, bits: nat)
  {
    && bits <= 31
    && |chains| == Pow2(bits)
    && (forall b {:trigger ChainOk(chains[b], b, members, bits)} :: 0 <= b < |chains| ==>
          ChainOk(chains[b], b, members, bits))
    && (forall h {:trigger InChain(h, chains, bits)} :: h in members ==> InChain(h, chains, bits))
  }

  /** The map view of a set of entries: each under its own id. */
  ghost predicate Indexed(contents: map<Id, Handle>, members: set<Handle>)
  {
    && (forall id {:trigger Filed(id, contents, members)} :: id in contents ==> Filed(id, contents, members))
    && (forall h {:trigger Listed(h, contents)} :: h in members ==> Listed(h, contents))
  }

  ghost predicate Filed(id: Id, contents: map<Id, Handle>, members: set<Handle>)
    requires id in contents
  {
    contents[id] in members && contents[id].id == id
  }

  ghost predicate Listed(h: Handle, contents: map<Id, Handle>)
  {
    h.id in contents && contents[h.id] == h
  }

  /** The links among these entries, as they stand in memory. */
  ghost function Links(members: set<Handle>): map<Handle, Handle?>
    reads members`nextHash
  {
    map h | h in members :: h.nextHash
  }

  /** Following the links from this first entry gives this chain, up to null. */
  ghost predicate Follows(first: Handle?, chain: seq<Handle>, links: map<Handle, Handle?>)
  {
    && first == At(chain, 0)
    && forall i :: 0 <= i < |chain| ==> chain[i] in links && links[chain[i]] == At(chain, i + 1)
  }

  /** Every bucket's links follow its chain. */
  ghost predicate Threads(heads: seq<Handle?>, links: map<Handle, Handle?>, chains: seq<seq<Handle>>)
  {
    && |heads| == |chains|
    && forall b {:trigger Follows(heads[b], chains[b], links)} :: 0 <= b < |chains| ==>
         Follows(heads[b], chains[b], links)
  }

  /** A chain that the links follow to null meets no entry twice. */
  lemma FollowsDistinct(first: Handle?, chain: seq<Handle>, links: map<Handle, Handle?>)
    requires Follows(first, chain, links)
    ensures Distinct(chain)
  {
    forall i, j | 0 <= i < j < |chain| ensures chain[i] != chain[j] {
      TailsDiffer(first, chain, links, i, j);
    }
  }

  lemma {:induction false} TailsDiffer(first: Handle?, chain: seq<Handle>, links: map<Handle, Handle?>, i: nat, j: nat)
    requires Follows(first, chain, links) && i < j < |chain|
    ensures chain[i] != chain[j]
    decreases |chain| - j
  {
    if j + 1 < |chain| {
      TailsDiffer(first, chain, links, i + 1, j + 1);
    }
    assert links[chain[i]] == At(chain, i + 1) && links[chain[j]] == At(chain, j + 1);
  }

  /** Chain b shares no entry with another chain. */
  ghost predicate Alone(chains: seq<seq<Handle>>, b: nat)
    requires b < |chains|
  {
    forall c, h :: 0 <= c < |chains| && c != b && h in chains[b] ==> h !in chains[c]
  }

  lemma ChainAlone(chains: seq<seq<Handle>>, members: set<Handle>, bits: nat, b: nat)
    requires Placed(chains, members, bits) && b < |chains|
    ensures Alone(chains, b)
  {
    assert ChainOk(chains[b], b, members, bits);
    forall c, h | 0 <= c < |chains| && c != b && h in chains[b] ensures h !in chains[c] {
      assert ChainOk(chains[c], c, members, bits);
    }
  }

  /** Relinking one chain leaves the others as they were. */
  lemma ThreadsEdit(heads: seq<Handle?>, links: map<Handle, Handle?>, chains: seq<seq<Handle>>,
                    b: nat, head: Handle?, links': map<Handle, Handle?>, chain: seq<Handle>)
    requires Threads(heads, links, chains) && b < |chains| && Alone(chains, b)
    requires forall h :: h in links && h !in chains[b] ==> h in links' && links'[h] == links[h]
    requires Follows(head, chain, links')
    ensures Threads(heads[b := head], links', chains[b := chain])
  {
    var heads', chains' := heads[b := head], chains[b := chain];
    forall c | 0 <= c < |chains| ensures Follows(heads'[c], chains'[c], links') {
      if c != b {
        assert Follows(heads[c], chains[c], links);
        assert forall i :: 0 <= i < |chains[c]| ==> chains[c][i] in chains[c];
      }
    }
  }

  /** The chain with h in place of its element k, or after its end. */
  function Written(chain: seq<Handle>, k: nat, h: Handle): seq<Handle>
    requires k <= |chain|
  {
    if k < |chain| then chain[k := h] else chain + [h]
  }

  /** The table cannot grow past this. */
  predicate AtLimit(bits: nat, maxBits: nat)
  {
    bits >= maxBits || bits >= 31
  }

  // ---------------------------------------------------------------- placing and taking out one entry

  /** Editing one chain, for entries of its bucket coming or going, keeps the other chains and their entries in place. */
  lemma PlacedEdit(chains: seq<seq<Handle>>, members: set<Handle>, bits: nat,
                   b: nat, chain: seq<Handle>, members': set<Handle>)
    requires Placed(chains, members, bits) && b < |chains|
    requires ChainOk(chain, b, members', bits)
    requires forall h :: h in members && Bucket(h.id.hash, bits) != b ==> h in members'
    requires forall h :: h in members' ==> h in chain || (h in members && Bucket(h.id.hash, bits) != b)
    ensures Placed(chains[b := chain], members', bits)
  {
    var chains' := chains[b := chain];
    forall c | 0 <= c < |chains'| ensures ChainOk(chains'[c], c, members', bits) {
      assert ChainOk(chains[c], c, members, bits);
    }
    forall h | h in members' ensures InChain(h, chains', bits) {
      if h !in chain {
        assert InChain(h, chains, bits);
      }
    }
  }

  lemma PlacedReplace(chains: seq<seq<Handle>>, members: set<Handle>, bits: nat, b: nat, k: nat, h: Handle)
    requires Placed(chains, members, bits) && h !in members
    requires b == Bucket(h.id.hash, bits) && b < |chains| && k < |chains[b]| && Distinct(chains[b])
    ensures Placed(chains[b := chains[b][k := h]], members - {chains[b][k]} + {h}, bits)
  {
    var chain, members' := chains[b][k := h], members - {chains[b][k]} + {h};
    assert ChainOk(chains[b], b, members, bits);
    assert chain[k] == h;
    forall g | g in members' ensures g in chain || (g in members && Bucket(g.id.hash, bits) != b) {
      if g != h && Bucket(g.id.hash, bits) == b {
        assert InChain(g, chains, bits);
        var i :| 0 <= i < |chains[b]| && chains[b][i] == g;
        assert chain[i] == g;
      }
    }
    PlacedEdit(chains, members, bits, b, chain, members');
  }

  lemma PlacedAppend(chains: seq<seq<Handle>>, members: set<Handle>, bits: nat, b: nat, h: Handle)
    requires Placed(chains, members, bits) && h !in members
    requires b == Bucket(h.id.hash, bits) && b < |chains|
    ensures Placed(chains[b := chains[b] + [h]], members + {h}, bits)
  {
    assert ChainOk(chains[b], b, members, bits);
    forall g | g in members ensures g in chains[b] || Bucket(g.id.hash, bits) != b {
      assert InChain(g, chains, bits);
    }
    PlacedEdit(chains, members, bits, b, chains[b] + [h], members + {h});
  }

  lemma PlacedRemove(chains: seq<seq<Handle>>, members: set<Handle>, bits: nat, b: nat, k: nat)
    requires Placed(chains, members, bits) && b < |chains| && k < |chains[b]| && Distinct(chains[b])
    ensures Placed(chains[b := Without(chains[b], k)], members - {chains[b][k]}, bits)
  {
    assert ChainOk(chains[b], b, members, bits);
    WithoutElements(chains[b], k);
    forall g | g in members ensures g in chains[b] || Bucket(g.id.hash, bits) != b {
      assert InChain(g, chains, bits);
    }
    PlacedEdit(chains, members, bits, b, Without(chains[b], k), members - {chains[b][k]});
  }

  /** The entry under an id, or null. */
  function Mapped(contents: map<Id, Handle>, id: Id): Handle?
  {
    if id in contents then contents[id] else null
  }

  function Swapped(members: set<Handle>, previous: Handle?, h: Handle): set<Handle>
  {
    if previous == null then members + {h} else members - {previous} + {h}
  }

  lemma IndexedInsert(contents: map<Id, Handle>, members: set<Handle>, h: Handle)
    requires Indexed(contents, members)
    ensures Indexed(contents[h.id := h], Swapped(members, Mapped(contents, h.id), h))
    ensures |contents[h.id := h]| == |contents| + if h.id in contents then 0 else 1
  {
    var contents', members' := contents[h.id := h], Swapped(members, Mapped(contents, h.id), h);
    forall id | id in contents' ensures Filed(id, contents', members') {
      assert id in contents ==> Filed(id, contents, members);
      assert h.id in contents ==> Filed(h.id, contents, members);
    }
    forall g | g in members' ensures Listed(g, contents') {
      assert g in members ==> Listed(g, contents);
    }
  }

  lemma SwappedSize(members: set<Handle>, previous: Handle?, h: Handle)
    requires h !in members && (previous != null ==> previous in members)
    ensures |Swapped(members, previous, h)| == |members| + if previous == null then 1 else 0
  {
  }

  lemma PlacedWritten(chains: seq<seq<Handle>>, members: set<Handle>, bits: nat, b: nat, k: nat, h: Handle)
    requires Placed(chains, members, bits) && h !in members
    requires b == Bucket(h.id.hash, bits) && b < |chains| && k <= |chains[b]| && Distinct(chains[b])
    ensures Placed(chains[b := Written(chains[b], k, h)], Swapped(members, At(chains[b], k), h), bits)
  {
    if k < |chains[b]| {
      PlacedReplace(chains, members, bits, b, k, h);
    } else {
      PlacedAppend(chains, members, bits, b, h);
    }
  }

  lemma IndexedRemove(contents: map<Id, Handle>, members: set<Handle>, h: Handle)
    requires Indexed(contents, members) && h in members
    ensures Indexed(contents - {h.id}, members - {h})
    ensures |contents - {h.id}| == |contents| - 1 && |members - {h}| == |members| - 1
  {
    assert Listed(h, contents);
    forall id | id in contents - {h.id} ensures Filed(id, contents - {h.id}, members - {h}) {
      assert Filed(id, contents, members);
    }
    forall g | g in members - {h} ensures Listed(g, contents - {h.id}) {
      assert Listed(g, contents);
    }
    assert (contents - {h.id}).Keys == contents.Keys - {h.id};
    assert |contents - {h.id}| == |(contents - {h.id}).Keys| && |contents| == |contents.Keys|;
  }

  /** Follows a chain to the first entry with this id. */
  method Walk(first: Handle?, id: Id, ghost chain: seq<Handle>, ghost members: set<Handle>)
    returns (before: Handle?, found: Handle?, ghost k: nat)
    requires Follows(first, chain, Links(members))
    ensures k <= |chain| && found == At(chain, k) && before == if k == 0 then null else chain[k - 1]
    ensures forall j :: 0 <= j < k ==> chain[j].id != id
    ensures found != null ==> found.id == id
  {
    before := null;
    found := first;
    k := 0;
    while found != null && found.id != id
      invariant k <= |chain| && found == At(chain, k) && before == if k == 0 then null else chain[k - 1]
      invariant forall j :: 0 <= j < k ==> chain[j].id != id
      decreases |chain| - k
    {
      assert found in Links(members);
      before := found;
      found := found.nextHash;
      k := k + 1;
    }
  }

  /** The first entry with this id in the chain of its hash is the one mapped. */
  lemma WalkFinds(chains: seq<seq<Handle>>, members: set<Handle>, contents: map<Id, Handle>, bits: nat, id: Id, k: nat)
    requires Placed(chains, members, bits) && Indexed(contents, members)
    requires var b := Bucket(id.hash, bits); b < |chains| && k <= |chains[b]|
    requires forall j :: 0 <= j < k ==> chains[Bucket(id.hash, bits)][j].id != id
    requires k < |chains[Bucket(id.hash, bits)]| ==> chains[Bucket(id.hash, bits)][k].id == id
    ensures At(chains[Bucket(id.hash, bits)], k) == Mapped(contents, id)
    ensures id in contents ==> contents[id] in members && contents[id].id == id
  {
    var b := Bucket(id.hash, bits);
    assert ChainOk(chains[b], b, members, bits);
    assert id in contents ==> Filed(id, contents, members) && InChain(contents[id], chains, bits);
    assert k < |chains[b]| ==> Listed(chains[b][k], contents);
  }

  lemma WrittenFollows(first: Handle?, chain: seq<Handle>, links: map<Handle, Handle?>, k: nat, h: Handle,
                       links': map<Handle, Handle?>)
    requires Follows(first, chain, links) && k <= |chain| && h !in chain
    requires forall i :: 0 <= i < |chain| && i != k && i != k - 1 ==> chain[i] in links' && links'[chain[i]] == links[chain[i]]
    requires h in links' && links'[h] == At(chain, k + 1)
    requires k > 0 ==> chain[k - 1] in links' && links'[chain[k - 1]] == h
    ensures Follows(if k == 0 then h else first, Written(chain, k, h), links')
  {
  }

  lemma WithoutFollows(first: Handle?, chain: seq<Handle>, links: map<Handle, Handle?>, k: nat, links': map<Handle, Handle?>)
    requires Follows(first, chain, links) && k < |chain|
    requires forall i :: 0 <= i < |chain| && i != k && i != k - 1 ==> chain[i] in links' && links'[chain[i]] == links[chain[i]]
    requires k > 0 ==> chain[k - 1] in links' && links'[chain[k - 1]] == At(chain, k + 1)
    ensures Follows(if k == 0 then At(chain, 1) else first, Without(chain, k), links')
  {
  }

  /** Writes h through the pointer FindPointer returned: over the entry there, or past the chain's end. */
  method WriteSlot(list: array<Handle?>, h: Handle, b: nat, before: Handle?, found: Handle?,
                   ghost chains: seq<seq<Handle>>, ghost members: set<Handle>, ghost k: nat)
    requires Threads(list[..], Links(members), chains) && h !in members && b < |chains| && k <= |chains[b]|
    requires before == (if k == 0 then null else chains[b][k - 1]) && found == At(chains[b], k)
    requires Alone(chains, b) && Distinct(chains[b])
    modifies list, members`nextHash, h`nextHash
    ensures Threads(list[..], Links(Swapped(members, found, h)), chains[b := Written(chains[b], k, h)])
  {
    ghost var heads, links, chain := list[..], Links(members), chains[b];
    assert Follows(heads[b], chain, links);
    assert found != null ==> found in links;
    assert before != null ==> before in links;
    h.nextHash := if found == null then null else found.nextHash;
    if before == null {
      list[b] := h;
    } else {
      before.nextHash := h;
    }
    ghost var links' := Links(Swapped(members, found, h));
    WrittenFollows(heads[b], chain, links, k, h, links');
    ThreadsEdit(heads, links, chains, b, list[b], links', Written(chain, k, h));
    assert list[..] == heads[b := list[b]];
  }

  /** Writes past the entry at slot k, taking it out of its chain. */
  method CutSlot(list: array<Handle?>, b: nat, before: Handle?, found: Handle,
                 ghost chains: seq<seq<Handle>>, ghost members: set<Handle>, ghost k: nat)
    requires Threads(list[..], Links(members), chains) && b < |chains| && k < |chains[b]|
    requires before == (if k == 0 then null else chains[b][k - 1]) && found == chains[b][k]
    requires Alone(chains, b) && Distinct(chains[b])
    modifies list, members`nextHash
    ensures Threads(list[..], Links(members - {found}), chains[b := Without(chains[b], k)])
  {
    ghost var heads, links, chain := list[..], Links(members), chains[b];
    assert Follows(heads[b], chain, links);
    assert before != null ==> before in links;
    if before == null {
      list[b] := found.nextHash;
    } else {
      before.nextHash := found.nextHash;
    }
    ghost var links' := Links(members - {found});
    WithoutFollows(heads[b], chain, links, k, links');
    ThreadsEdit(heads, links, chains, b, list[b], links', Without(chain, k));
    assert list[..] == heads[b := list[b]];
  }

  // ---------------------------------------------------------------- growth

  lemma PushThreads(heads: seq<Handle?>, links: map<Handle, Handle?>, chains: seq<seq<Handle>>, c: nat, h: Handle,
                    links': map<Handle, Handle?>)
    requires Threads(heads, links, chains) && h !in links && c < |chains|
    requires forall g :: g in links ==> g in links' && links'[g] == links[g]
    requires h in links' && links'[h] == heads[c]
    ensures Threads(heads[c := h], links', chains[c := [h] + chains[c]])
  {
    var heads', chains' := heads[c := h], chains[c := [h] + chains[c]];
    forall b | 0 <= b < |chains| ensures Follows(heads'[b], chains'[b], links') {
      assert Follows(heads[b], chains[b], links);
    }
  }

  /** Pushes an entry onto the front of a bucket. */
  method PushFront(list: array<Handle?>, h: Handle, c: nat, ghost chains: seq<seq<Handle>>, ghost members: set<Handle>)
    requires Threads(list[..], Links(members), chains) && h !in members && c < |chains|
    modifies list, h`nextHash
    ensures Threads(list[..], Links(members + {h}), chains[c := [h] + chains[c]])
  {
    ghost var heads, links := list[..], Links(members);
    h.nextHash := list[c];
    list[c] := h;
    PushThreads(heads, links, chains, c, h, Links(members + {h}));
    assert list[..] == heads[c := h];
  }

  lemma PlacedPush(chains: seq<seq<Handle>>, members: set<Handle>, bits: nat, c: nat, h: Handle)
    requires Placed(chains, members, bits) && c == Bucket(h.id.hash, bits) && c < |chains|
    ensures Placed(chains[c := [h] + chains[c]], members + {h}, bits)
  {
    assert ChainOk(chains[c], c, members, bits);
    forall g | g in members ensures g in chains[c] || Bucket(g.id.hash, bits) != c {
      assert InChain(g, chains, bits);
    }
    PlacedEdit(chains, members, bits, c, [h] + chains[c], members + {h});
  }

  method MoveOne(h: Handle, list: array<Handle?>, bits: nat, ghost chains: seq<seq<Handle>>, ghost members: set<Handle>)
    returns (ghost chains': seq<seq<Handle>>)
    requires Placed(chains, members, bits) && Threads(list[..], Links(members), chains) && h !in members
    modifies list, h`nextHash
    ensures Placed(chains', members + {h}, bits) && Threads(list[..], Links(members + {h}), chains')
  {
    BucketInRange(h.id.hash, bits);
    var c := Bucket(h.id.hash, bits);
    PlacedPush(chains, members, bits, c, h);
    PushFront(list, h, c, chains, members);
    chains' := chains[c := [h] + chains[c]];
  }

  lemma Rest(first: Handle?, chain: seq<Handle>, links: map<Handle, Handle?>, links': map<Handle, Handle?>)
    requires Follows(first, chain, links) && Distinct(chain) && chain != []
    requires forall h :: h in Elements(chain[1..]) && h in links ==> h in links' && links'[h] == links[h]
    ensures Follows(links[chain[0]], chain[1..], links')
    ensures Distinct(chain[1..]) && chain[0] !in Elements(chain[1..])
    ensures Elements(chain) == {chain[0]} + Elements(chain[1..])
  {
    assert chain == [chain[0]] + chain[1..];
  }

  /** What is left of an old chain can still be followed, and none of it has been moved. */
  ghost predicate Pending(h: Handle?, rest: seq<Handle>, moved: set<Handle>)
    reads Elements(rest)`nextHash
  {
    Follows(h, rest, Links(Elements(rest))) && Distinct(rest) && Elements(rest) !! moved
  }

  method MoveFirst(h: Handle, list: array<Handle?>, bits: nat,
                   ghost rest: seq<Handle>, ghost chains: seq<seq<Handle>>, ghost moved: set<Handle>)
    returns (next: Handle?, ghost chains': seq<seq<Handle>>)
    requires Pending(h, rest, moved)
    requires Placed(chains, moved, bits) && Threads(list[..], Links(moved), chains)
    modifies list, h`nextHash
    ensures rest != [] && h == rest[0] && Pending(next, rest[1..], moved + {rest[0]})
    ensures Placed(chains', moved + {rest[0]}, bits) && Threads(list[..], Links(moved + {rest[0]}), chains')
    ensures moved + {rest[0]} + Elements(rest[1..]) == moved + Elements(rest) && Elements(rest[1..]) <= Elements(rest)
  {
    ghost var links := Links(Elements(rest));
    next := h.nextHash;
    chains' := MoveOne(h, list, bits, chains, moved);
    Rest(h, rest, links, Links(Elements(rest[1..])));
  }

  /** Moves a whole chain of the old table into the new one. */
  method MoveChain(first: Handle?, list: array<Handle?>, bits: nat,
                   ghost chain: seq<Handle>, ghost chains: seq<seq<Handle>>, ghost members: set<Handle>)
    returns (count: nat, ghost chains': seq<seq<Handle>>)
    requires Pending(first, chain, members)
    requires Placed(chains, members, bits) && Threads(list[..], Links(members), chains)
    modifies list, Elements(chain)`nextHash
    ensures Placed(chains', members + Elements(chain), bits) && Threads(list[..], Links(members + Elements(chain)), chains')
    ensures count == |members + Elements(chain)| - |members|
  {
    var h := first;
    count := 0;
    chains' := chains;
    ghost var moved: set<Handle>, rest, total := members, chain, members + Elements(chain);
    while h != null
      invariant Pending(h, rest, moved)
      invariant Elements(rest) <= Elements(chain) && moved + Elements(rest) == total
      invariant Placed(chains', moved, bits) && Threads(list[..], Links(moved), chains')
      invariant count == |moved| - |members|
      decreases |rest|
    {
      h, chains' := MoveFirst(h, list, bits, rest, chains', moved);
      moved, rest := moved + {rest[0]}, rest[1..];
      count := count + 1;
    }
    assert rest == [];
    assert moved == total;
  }

  /** The entries of the first i buckets. */
  ghost function FirstBuckets(members: set<Handle>, bits: nat, i: nat): set<Handle>
    requires bits <= 31
  {
    set h | h in members && Bucket(h.id.hash, bits) < i
  }

  lemma NextBucket(chains: seq<seq<Handle>>, members: set<Handle>, bits: nat, i: nat)
    requires Placed(chains, members, bits) && i < |chains|
    ensures FirstBuckets(members, bits, i + 1) == FirstBuckets(members, bits, i) + Elements(chains[i])
    ensures Elements(chains[i]) !! FirstBuckets(members, bits, i)
    ensures Elements(chains[i]) <= members
  {
    assert ChainOk(chains[i], i, members, bits);
    forall h | h in members && Bucket(h.id.hash, bits) == i ensures h in chains[i] {
      assert InChain(h, chains, bits);
    }
  }

  /** A bucket none of whose entries has been moved can still be followed. */
  lemma PendingBucket(heads: seq<Handle?>, links: map<Handle, Handle?>, chains: seq<seq<Handle>>, members: set<Handle>,
                      bits: nat, i: nat)
    requires Placed(chains, members, bits) && Threads(heads, links, chains) && i < |chains|
    requires forall h :: h in members && h !in FirstBuckets(members, bits, i) ==> h in links && h.nextHash == links[h]
    ensures Pending(heads[i], chains[i], FirstBuckets(members, bits, i))
  {
    NextBucket(chains, members, bits, i);
    assert Follows(heads[i], chains[i], links);
    FollowsDistinct(heads[i], chains[i], links);
    assert forall k :: 0 <= k < |chains[i]| ==> chains[i][k] in Elements(chains[i]);
  }

  lemma AllBuckets(chains: seq<seq<Handle>>, members: set<Handle>, bits: nat)
    requires Placed(chains, members, bits)
    ensures FirstBuckets(members, bits, 0) == {}
    ensures FirstBuckets(members, bits, |chains|) == members
  {
    forall h | h in members ensures Bucket(h.id.hash, bits) < |chains| {
      assert InChain(h, chains, bits);
    }
  }

  lemma EmptyTable(chains: seq<seq<Handle>>, bits: nat)
    requires bits <= 31 && |chains| == Pow2(bits) && forall b :: 0 <= b < |chains| ==> chains[b] == []
    ensures Placed(chains, {}, bits)
  {
  }

  // ---------------------------------------------------------------- the table

  class HandleTable {
    var lengthBits: nat
    var list: array<Handle?>
    var elems: nat
    const maxLengthBits: nat
    ghost var chains: seq<seq<Handle>>
    ghost var members: set<Handle>
    ghost var contents: map<Id, Handle>

    ghost predicate Valid()
      reads this`lengthBits, this`list, this`elems, this`chains, this`members, this`contents, list, members`nextHash
    {
      forall b {:trigger Open(b)} :: Open(b) ==>
        && Placed(chains, members, lengthBits)
        && Indexed(contents, members)
        && Threads(list[..], Links(members), chains)
        && elems == |members| == |contents| && lengthBits >= 4
        && (elems < Pow2(lengthBits) || AtLimit(lengthBits, maxLengthBits))
    }

    constructor (maxUpperHashBits: nat)
      ensures Valid() && contents == map[] && members == {} && fresh(list)
      ensures lengthBits == 4 && maxLengthBits == maxUpperHashBits
    {
      lengthBits := 4;
      list := new Handle?[16](_ => null);
      elems := 0;
      maxLengthBits := maxUpperHashBits;
      chains := seq(16, _ => []);
      members := {};
      contents := map[];
      new;
      assert forall b :: 0 <= b < 16 ==> list[b] == null && chains[b] == [];
      assert Pow2(4) == 16;
    }

    /** FindPointer: the slot of the entry under this id, or the slot past the end of its chain. */
    method FindPointer(id: Id) returns (b: nat, before: Handle?, found: Handle?, ghost k: nat)
      requires Placed(chains, members, lengthBits) && Indexed(contents, members) && Threads(list[..], Links(members), chains)
      ensures b == Bucket(id.hash, lengthBits) && b < list.Length && k <= |chains[b]|
      ensures before == if k == 0 then null else chains[b][k - 1]
      ensures found == At(chains[b], k)
      ensures found == Mapped(contents, id) && (found != null ==> found in members && found.id == id)
    {
      BucketInRange(id.hash, lengthBits);
      b := Bucket(id.hash, lengthBits);
      assert Follows(list[..][b], chains[b], Links(members));
      before, found, k := Walk(list[b], id, chains[b], members);
      WalkFinds(chains, members, contents, lengthBits, id, k);
    }

    /** Each entry is in the chain of its upper hash bits, once, and in no other; elems is how many there are. */
    lemma EachOnce(h: Handle, b: nat)
      requires Valid() && h in members && b < |chains|
      ensures h in chains[b] <==> lengthBits <= 31 && b == Bucket(h.id.hash, lengthBits)
      ensures Distinct(chains[b]) && elems == |members| == |contents|
      ensures elems < Pow2(lengthBits) || AtLimit(lengthBits, maxLengthBits)
    {
      assert Open(true) && InChain(h, chains, lengthBits) && ChainOk(chains[b], b, members, lengthBits);
      assert Follows(list[..][b], chains[b], Links(members));
      FollowsDistinct(list[..][b], chains[b], Links(members));
    }

    lemma Holds(id: Id)
      requires Valid() && id in contents
      ensures contents[id] in members && contents[id].id == id
    {
      assert Open(true) && Filed(id, contents, members);
    }

    method Lookup(id: Id) returns (h: Handle?)
      requires Valid()
      ensures h == Mapped(contents, id)
    {
      assert Open(true);
      var b, before, found, k := FindPointer(id);
      h := found;
    }

    /** Insert, once the slot is found, up to the growth check. */
    method Splice(h: Handle, b: nat, before: Handle?, found: Handle?, ghost k: nat)
      requires Placed(chains, members, lengthBits) && Threads(list[..], Links(members), chains) && h !in members
      requires b == Bucket(h.id.hash, lengthBits) && b < |chains| && k <= |chains[b]|
      requires before == (if k == 0 then null else chains[b][k - 1]) && found == At(chains[b], k)
      modifies this`chains, this`members, list, members`nextHash, h`nextHash
      ensures Placed(chains, members, lengthBits) && Threads(list[..], Links(members), chains)
      ensures members == Swapped(old(members), found, h)
    {
      assert Follows(list[..][b], chains[b], Links(members));
      FollowsDistinct(list[..][b], chains[b], Links(members));
      ChainAlone(chains, members, lengthBits, b);
      PlacedWritten(chains, members, lengthBits, b, k, h);
      WriteSlot(list, h, b, before, found, chains, members, k);
      chains, members := chains[b := Written(chains[b], k, h)], Swapped(members, found, h);
    }

    method Insert(h: Handle) returns (previous: Handle?)
      requires Valid() && h !in members
      modifies this`lengthBits, this`list, this`elems, this`chains, this`members, this`contents
      modifies list, members`nextHash, h`nextHash
      ensures Valid() && contents == old(contents)[h.id := h]
      ensures previous == Mapped(old(contents), h.id) && (previous != null ==> previous in old(members))
      ensures members == Swapped(old(members), previous, h)
      ensures lengthBits >= old(lengthBits) && (list == old(list) || fresh(list))
    {
      assert Open(true);
      var b, before, found, k := FindPointer(h.id);
      previous := found;
      IndexedInsert(contents, members, h);
      SwappedSize(members, found, h);
      contents := contents[h.id := h];
      Splice(h, b, before, found, k);
      if previous == null {
        CountOne();
      }
    }

    /** Counts the entry just linked in, growing the table if it now has an entry per bucket. */
    method CountOne()
      requires Placed(chains, members, lengthBits) && Indexed(contents, members) && Threads(list[..], Links(members), chains)
      requires elems + 1 == |members| == |contents| && lengthBits >= 4
      requires elems < Pow2(lengthBits) || AtLimit(lengthBits, maxLengthBits)
      modifies this`lengthBits, this`list, this`elems, this`chains, list, members`nextHash
      ensures Valid() && contents == old(contents) && members == old(members)
      ensures lengthBits >= old(lengthBits) && (list == old(list) || fresh(list))
    {
      elems := elems + 1;
      AtLeastPow2(elems, lengthBits);
      if ShiftRight(elems, lengthBits) > 0 {
        Resize();
      }
    }

    method Resize()
      requires Placed(chains, members, lengthBits) && Indexed(contents, members) && Threads(list[..], Links(members), chains)
      requires elems == |members| == |contents| && lengthBits >= 4
      requires elems <= Pow2(lengthBits) || AtLimit(lengthBits, maxLengthBits)
      modifies this`lengthBits, this`list, this`elems, this`chains, list, members`nextHash
      ensures Valid() && contents == old(contents) && members == old(members)
      ensures lengthBits == if AtLimit(old(lengthBits), maxLengthBits) then old(lengthBits) else old(lengthBits) + 1
      ensures list == old(list) || fresh(list)
    {
      if lengthBits >= maxLengthBits {
        return;
      }
      if lengthBits >= 31 {
        return;
      }
      Grow();
    }

    /** The doubling itself. */
    method Grow()
      requires Placed(chains, members, lengthBits) && Threads(list[..], Links(members), chains) && lengthBits < 31
      requires elems == |members|
      modifies this`list, this`lengthBits, this`chains, members`nextHash
      ensures Placed(chains, members, lengthBits) && Threads(list[..], Links(members), chains)
      ensures lengthBits == old(lengthBits) + 1 && fresh(list)
    {
      var newBits := lengthBits + 1;
      var newList, count, newChains := Rehash(newBits);
      assert elems == count;
      list, lengthBits, chains := newList, newBits, newChains;
    }

    /** Moves every entry to a table of 2^newBits buckets. */
    method Rehash(newBits: nat) returns (newList: array<Handle?>, count: nat, ghost newChains: seq<seq<Handle>>)
      requires Placed(chains, members, lengthBits) && Threads(list[..], Links(members), chains) && newBits <= 31
      modifies members`nextHash
      ensures fresh(newList) && Placed(newChains, members, newBits) && Threads(newList[..], Links(members), newChains)
      ensures count == |members|
    {
      newList := new Handle?[Pow2(newBits)](_ => null);
      newChains := seq(Pow2(newBits), _ => []);
      count := 0;
      EmptyTable(newChains, newBits);
      AllBuckets(chains, members, lengthBits);
      ghost var heads, links := list[..], Links(members);
      ghost var moved: set<Handle> := {};
      var i := 0;
      while i < list.Length
        modifies newList, members`nextHash
        invariant i <= list.Length && moved == FirstBuckets(members, lengthBits, i)
        invariant Placed(newChains, moved, newBits) && Threads(newList[..], Links(moved), newChains)
        invariant forall h :: h in members && h !in moved ==> h.nextHash == links[h]
        invariant count == |moved|
      {
        var n;
        n, newChains := MoveBucket(i, newList, newBits, heads, links, newChains, moved);
        moved := FirstBuckets(members, lengthBits, i + 1);
        count := count + n;
        i := i + 1;
      }
    }

    method MoveBucket(i: nat, newList: array<Handle?>, newBits: nat, ghost heads: seq<Handle?>,
                      ghost links: map<Handle, Handle?>, ghost newChains: seq<seq<Handle>>, ghost moved: set<Handle>)
      returns (count: nat, ghost newChains': seq<seq<Handle>>)
      requires Placed(chains, members, lengthBits) && Threads(heads, links, chains) && heads == list[..] && newList != list
      requires i < |chains| && moved == FirstBuckets(members, lengthBits, i) && links.Keys == members
      requires forall h :: h in members && h !in moved ==> h.nextHash == links[h]
      requires Placed(newChains, moved, newBits) && Threads(newList[..], Links(moved), newChains)
      modifies newList, members`nextHash
      ensures var moved' := FirstBuckets(members, lengthBits, i + 1);
              && Placed(newChains', moved', newBits) && Threads(newList[..], Links(moved'), newChains')
              && count == |moved'| - |moved|
              && forall h :: h in members && h !in moved' ==> h.nextHash == links[h]
    {
      NextBucket(chains, members, lengthBits, i);
      PendingBucket(heads, links, chains, members, lengthBits, i);
      count, newChains' := MoveChain(list[i], newList, newBits, chains[i], newChains, moved);
    }

    /** Remove, once the entry is found, up to the count. */
    method TakeOut(b: nat, before: Handle?, found: Handle, ghost k: nat)
      requires Placed(chains, members, lengthBits) && Threads(list[..], Links(members), chains)
      requires b < |chains| && k < |chains[b]|
      requires before == (if k == 0 then null else chains[b][k - 1]) && found == chains[b][k]
      modifies this`chains, this`members, list, members`nextHash
      ensures Placed(chains, members, lengthBits) && Threads(list[..], Links(members), chains)
      ensures members == old(members) - {found}
    {
      assert Follows(list[..][b], chains[b], Links(members));
      FollowsDistinct(list[..][b], chains[b], Links(members));
      ChainAlone(chains, members, lengthBits, b);
      PlacedRemove(chains, members, lengthBits, b, k);
      CutSlot(list, b, before, found, chains, members, k);
      chains, members := chains[b := Without(chains[b], k)], members - {found};
    }

    method Discard(b: nat, before: Handle?, found: Handle, ghost k: nat)
      requires Valid() && found in members && b < |chains| && k < |chains[b]|
      requires before == (if k == 0 then null else chains[b][k - 1]) && found == chains[b][k]
      modifies this`elems, this`chains, this`members, this`contents, list, members`nextHash
      ensures Valid() && contents == old(contents) - {found.id} && members == old(members) - {found}
    {
      assert Open(true);
      IndexedRemove(contents, members, found);
      TakeOut(b, before, found, k);
      contents, elems := contents - {found.id}, elems - 1;
    }

    method Remove(id: Id) returns (result: Handle?)
      requires Valid()
      modifies this`elems, this`chains, this`members, this`contents, list, members`nextHash
      ensures Valid() && result == Mapped(old(contents), id) && (result != null ==> result in old(members) && result.id == id)
      ensures contents == old(contents) - {id}
      ensures members == if result == null then old(members) else old(members) - {result}
      ensures lengthBits == old(lengthBits) && list == old(list)
    {
      assert Open(true);
      var b, before, found, k := FindPointer(id);
      result := found;
      if found != null {
        Discard(b, before, found, k);
      }
    }

    /** ApplyToEntriesRange: calls on every entry of the buckets from begin up to end, bucket by bucket, along the chains. */
    method ApplyToEntriesRange(begin: nat, end: nat) returns (visited: seq<Handle>)
      requires Valid() && begin <= end <= list.Length
      ensures lengthBits <= 31 && Distinct(visited)
      ensures forall h :: h in visited <==> h in members && begin <= Bucket(h.id.hash, lengthBits) < end
    {
      assert Open(true);
      visited := [];
      var i := begin;
      while i < end
        invariant begin <= i <= end && Distinct(visited)
        invariant forall h :: h in visited <==> h in members && begin <= Bucket(h.id.hash, lengthBits) < i
      {
        assert Follows(list[..][i], chains[i], Links(members));
        var chain := FollowChain(list[i], chains[i], members);
        FollowsDistinct(list[..][i], chains[i], Links(members));
        BucketIs(chains, members, lengthBits, i);
        JoinElements(visited, chain);
        visited := visited + chain;
        i := i + 1;
      }
    }
  }

  /** The entries along one chain. */
  method FollowChain(first: Handle?, ghost chain: seq<Handle>, ghost members: set<Handle>) returns (visited: seq<Handle>)
    requires Follows(first, chain, Links(members))
    ensures visited == chain
  {
    visited := [];
    var h := first;
    while h != null
      invariant |visited| <= |chain| && visited == chain[..|visited|] && h == At(chain, |visited|)
      decreases |chain| - |visited|
    {
      assert h in Links(members);
      visited := visited + [h];
      h := h.nextHash;
    }
  }

  lemma BucketIs(chains: seq<seq<Handle>>, members: set<Handle>, bits: nat, i: nat)
    requires Placed(chains, members, bits) && i < |chains|
    ensures forall h :: h in chains[i] <==> h in members && Bucket(h.id.hash, bits) == i
  {
    assert ChainOk(chains[i], i, members, bits);
    forall h | h in members && Bucket(h.id.hash, bits) == i ensures h in chains[i] {
      assert InChain(h, chains, bits);
    }
  }
}
