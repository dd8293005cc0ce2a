/**
 Scanning all entries of a sharded LRU cache a few buckets at a time. Each call holds the lock of one shard; between calls the
 shard's entries come and go and its table grows. The scan keeps, per shard, the hash from which to go on.
 */
module ShardScan {
  import opened HandleTables
  import opened LruHandles
  import opened Powers
  import opened Sums

  /** The state of a shard whose scan is over. */
  const DONE: nat := 0xffff_ffff

  /** A shard's table at the time of a call: the number of hash bits it uses and the entries in it. */
  datatype Table = Table(bits: nat, entries: set<Id>)

  predicate Sized(t: Table)
  {
    4 <= t.bits <= 31
  }

  // ---------------------------------------------------------------- one call

  function Begin(t: Table, state: nat): nat
    requires Sized(t)
  {
    ShiftRight(state, 32 - t.bits)
  }

  predicate ToEnd(t: Table, state: nat, perLock: nat)
    requires Sized(t)
  {
    Begin(t, state) + perLock >= Pow2(t.bits)
  }

  function End(t: Table, state: nat, perLock: nat): nat
    requires Sized(t)
  {
    if ToEnd(t, state, perLock) then Pow2(t.bits) else Begin(t, state) + perLock
  }

  function NextState(t: Table, state: nat, perLock: nat): nat
    requires Sized(t)
  {
    if ToEnd(t, state, perLock) then DONE else ShiftLeft(End(t, state, perLock), 32 - t.bits)
  }

  /** The entries that ApplyToSomeEntries calls on. */
  function Visited(t: Table, state: nat, perLock: nat): set<Id>
    requires Sized(t)
  {
    set id | id in t.entries && Begin(t, state) <= Bucket(id.hash, t.bits) < End(t, state, perLock)
  }

  /** The state is the first hash of a bucket. */
  predicate Aligned(state: nat, bits: nat)
    requires bits <= 32
  {
    ShiftLeft(ShiftRight(state, 32 - bits), 32 - bits) == state
  }

  /** A state that a scan can go on from. */
  predicate Resumable(state: nat, bits: nat)
    requires bits <= 31
  {
    state < 0x1_0000_0000 && state != DONE && Aligned(state, bits)
  }

  /** The end of the hashes that a call reaches. */
  function Reach(state: nat): nat
  {
    if state == DONE then 0x1_0000_0000 else state
  }

  lemma {:induction false} ShiftRoundTrip(v: nat, n: nat)
    ensures ShiftRight(ShiftLeft(v, n), n) == v
  {
    if n > 0 {
      ShiftRoundTrip(v, n - 1);
    }
  }

  lemma {:induction false} ShiftLeftAdd(v: nat, m: nat, d: nat)
    ensures ShiftLeft(v, m + d) == ShiftLeft(ShiftLeft(v, d), m)
  {
    if m > 0 {
      ShiftLeftAdd(v, m - 1, d);
    }
  }

  lemma {:induction false} ShiftLeftMonotone(v: nat, w: nat, n: nat)
    requires v < w
    ensures ShiftLeft(v, n) < ShiftLeft(w, n)
  {
    if n > 0 {
      ShiftLeftMonotone(v, w, n - 1);
    }
  }

  /** A bucket boundary is still one after the table has grown. */
  lemma AlignedGrows(state: nat, bits: nat, bits': nat)
    requires bits <= bits' <= 32 && Aligned(state, bits)
    ensures Aligned(state, bits')
  {
    var k, d, m := ShiftRight(state, 32 - bits), bits' - bits, 32 - bits';
    ShiftLeftAdd(k, m, d);
    ShiftRoundTrip(ShiftLeft(k, d), m);
  }

  /** A call goes on to a bucket boundary past the one it started from, and that is never taken for the end. */
  lemma NextResumable(t: Table, state: nat, perLock: nat)
    requires Sized(t) && Resumable(state, t.bits) && perLock > 0
    ensures var next := NextState(t, state, perLock);
            state < Reach(next) <= 0x1_0000_0000 && (next == DONE || Resumable(next, t.bits))
    ensures Begin(t, state) < End(t, state, perLock) <= Pow2(t.bits)
  {
    var begin, end, n := Begin(t, state), End(t, state, perLock), 32 - t.bits;
    Pow2Of32();
    ShiftLeftPow2(t.bits, n);
    ShiftGalois(state, n, Pow2(t.bits));
    ShiftLeftMonotone(begin, end, n);
    if !ToEnd(t, state, perLock) {
      ShiftRoundTrip(end, n);
      ShiftLeftMonotone(end, Pow2(t.bits), n);
      assert ShiftLeft(end, n) == 2 * ShiftLeft(end, n - 1);
    }
  }

  /** What a call visits: the entries there, with hashes from its state up to the next. */
  lemma VisitsRange(t: Table, state: nat, perLock: nat, id: Id)
    requires Sized(t) && Resumable(state, t.bits) && perLock > 0
    ensures id in Visited(t, state, perLock)
            <==> id in t.entries && state <= id.hash < Reach(NextState(t, state, perLock))
  {
    var begin, end, n := Begin(t, state), End(t, state, perLock), 32 - t.bits;
    NextResumable(t, state, perLock);
    ShiftGalois(id.hash, n, begin);
    ShiftGalois(id.hash, n, end);
    Pow2Of32();
    ShiftLeftPow2(t.bits, n);
  }

  // ---------------------------------------------------------------- a whole scan

  /** world(s, j) is the table of shard s at the j-th call on it: of any contents, and never smaller than before. */
  ghost predicate Growing(world: (nat, nat) -> Table)
  {
    forall s: nat, j: nat :: Sized(world(s, j)) && world(s, j).bits <= world(s, j + 1).bits
  }

  /** The state of shard s after j calls, if the scan went on as long. */
  ghost function StateAt(world: (nat, nat) -> Table, perLock: nat, s: nat, j: nat): nat
    requires Growing(world)
  {
    if j == 0 then 0
    else
      var state := StateAt(world, perLock, s, j - 1);
      if state == DONE then DONE else NextState(world(s, j - 1), state, perLock)
  }

  lemma {:induction false} StateResumable(world: (nat, nat) -> Table, perLock: nat, s: nat, j: nat)
    requires Growing(world) && perLock > 0
    ensures StateAt(world, perLock, s, j) == DONE || Resumable(StateAt(world, perLock, s, j), world(s, j).bits)
  {
    if j == 0 {
      ShiftZero(32 - world(s, 0).bits);
    } else {
      StateResumable(world, perLock, s, j - 1);
      var state := StateAt(world, perLock, s, j - 1);
      if state != DONE {
        NextResumable(world(s, j - 1), state, perLock);
        if StateAt(world, perLock, s, j) != DONE {
          AlignedGrows(StateAt(world, perLock, s, j), world(s, j - 1).bits, world(s, j).bits);
        }
      }
    }
  }

  lemma {:induction false} ShiftZero(n: nat)
    ensures ShiftRight(0, n) == 0 == ShiftLeft(0, n)
  {
    if n > 0 {
      ShiftZero(n - 1);
    }
  }

  /** Call j covers a hash: it starts at or before it and reaches past it. */
  ghost predicate Covers(world: (nat, nat) -> Table, perLock: nat, s: nat, j: nat, hash: Hash)
    requires Growing(world)
  {
    var state := StateAt(world, perLock, s, j);
    state != DONE && state <= hash < Reach(StateAt(world, perLock, s, j + 1))
  }

  lemma {:induction false} ReachGrows(world: (nat, nat) -> Table, perLock: nat, s: nat, i: nat, j: nat)
    requires Growing(world) && perLock > 0 && i <= j
    ensures Reach(StateAt(world, perLock, s, i)) <= Reach(StateAt(world, perLock, s, j))
    ensures StateAt(world, perLock, s, i) == DONE ==> StateAt(world, perLock, s, j) == DONE
  {
    if i < j {
      ReachGrows(world, perLock, s, i, j - 1);
      StateResumable(world, perLock, s, j - 1);
      if StateAt(world, perLock, s, j - 1) != DONE {
        NextResumable(world(s, j - 1), StateAt(world, perLock, s, j - 1), perLock);
      }
    }
  }

  /** The calls of a finished scan cover every hash. */
  lemma {:induction false} SomeCallCovers(world: (nat, nat) -> Table, perLock: nat, s: nat, n: nat, hash: Hash) returns (j: nat)
    requires Growing(world) && perLock > 0 && hash < Reach(StateAt(world, perLock, s, n))
    ensures j < n && Covers(world, perLock, s, j, hash)
  {
    if hash < Reach(StateAt(world, perLock, s, n - 1)) {
      j := SomeCallCovers(world, perLock, s, n - 1, hash);
    } else {
      j := n - 1;
    }
  }

  /** No two calls cover the same hash. */
  lemma OneCallCovers(world: (nat, nat) -> Table, perLock: nat, s: nat, i: nat, j: nat, hash: Hash)
    requires Growing(world) && perLock > 0 && Covers(world, perLock, s, i, hash) && Covers(world, perLock, s, j, hash)
    ensures i == j
  {
    if i < j {
      ReachGrows(world, perLock, s, i + 1, j);
    } else if j < i {
      ReachGrows(world, perLock, s, j + 1, i);
    }
  }

  ghost predicate VisitedBy(world: (nat, nat) -> Table, perLock: nat, s: nat, j: nat, id: Id)
    requires Growing(world)
  {
    var state := StateAt(world, perLock, s, j);
    state != DONE && id in Visited(world(s, j), state, perLock)
  }

  lemma VisitedIff(world: (nat, nat) -> Table, perLock: nat, s: nat, j: nat, id: Id)
    requires Growing(world) && perLock > 0
    ensures VisitedBy(world, perLock, s, j, id) <==> id in world(s, j).entries && Covers(world, perLock, s, j, id.hash)
  {
    StateResumable(world, perLock, s, j);
    if StateAt(world, perLock, s, j) != DONE {
      VisitsRange(world(s, j), StateAt(world, perLock, s, j), perLock, id);
    }
  }

  /** No entry is visited twice, whatever happens to the shard meanwhile. */
  lemma AtMostOnce(world: (nat, nat) -> Table, perLock: nat, s: nat, i: nat, j: nat, id: Id)
    requires Growing(world) && perLock > 0 && VisitedBy(world, perLock, s, i, id) && VisitedBy(world, perLock, s, j, id)
    ensures i == j
  {
    VisitedIff(world, perLock, s, i, id);
    VisitedIff(world, perLock, s, j, id);
    OneCallCovers(world, perLock, s, i, j, id.hash);
  }

  /** An entry in the shard throughout the scan is visited, by exactly one of its calls. */
  lemma ExactlyOnce(world: (nat, nat) -> Table, perLock: nat, s: nat, n: nat, id: Id) returns (j: nat)
    requires Growing(world) && perLock > 0 && StateAt(world, perLock, s, n) == DONE
    requires forall i :: 0 <= i < n ==> id in world(s, i).entries
    ensures j < n && VisitedBy(world, perLock, s, j, id)
    ensures forall i: nat :: i != j ==> !VisitedBy(world, perLock, s, i, id)
  {
    j := SomeCallCovers(world, perLock, s, n, id.hash);
    VisitedIff(world, perLock, s, j, id);
    forall i: nat | i != j ensures !VisitedBy(world, perLock, s, i, id) {
      VisitedIff(world, perLock, s, i, id);
      if Covers(world, perLock, s, i, id.hash) {
        OneCallCovers(world, perLock, s, i, j, id.hash);
      }
    }
  }

  /** The assertion of ApplyToSomeEntries holds at every call, and its index arithmetic stays within 32 bits. */
  lemma AssertionHolds(world: (nat, nat) -> Table, perLock: nat, s: nat, j: nat)
    requires Growing(world) && 0 < perLock <= 0xffff_ffff && StateAt(world, perLock, s, j) != DONE
    ensures perLock < Pow2(world(s, j).bits) || StateAt(world, perLock, s, j) == 0
    ensures Begin(world(s, j), StateAt(world, perLock, s, j)) + perLock < 0x1_0000_0000
  {
    var t, state := world(s, j), StateAt(world, perLock, s, j);
    StateResumable(world, perLock, s, j);
    NextResumable(t, state, perLock);
    Pow2Monotone(t.bits, 31);
    assert Pow2(31) == 0x8000_0000 by {
      Pow2Of32();
    }
    ShiftZero(32 - t.bits);
    if j > 0 {
      ReachGrows(world, perLock, s, 1, j);
      BitsGrow(world, s, 0, j);
      Pow2Monotone(world(s, 0).bits, t.bits);
      ShiftZero(32 - world(s, 0).bits);
    }
  }

  lemma {:induction false} BitsGrow(world: (nat, nat) -> Table, s: nat, i: nat, j: nat)
    requires Growing(world) && i <= j
    ensures world(s, i).bits <= world(s, j).bits
  {
    if i < j {
      BitsGrow(world, s, i, j - 1);
      assert world(s, j - 1).bits <= world(s, j - 1 + 1).bits;
    }
  }

  // ---------------------------------------------------------------- how many buckets per call

  /** The two clamps of ApplyToAllEntries: the second keeps the smaller of the option and one. */
  function PerLock(average: nat): nat
  {
    var in32 := if average < 0xffff_ffff then average else 0xffff_ffff;
    if in32 < 1 then in32 else 1
  }

  lemma {:induction false} ScanAdvances(world: (nat, nat) -> Table, perLock: nat, s: nat, j: nat)
    requires Growing(world) && perLock > 0
    ensures Reach(StateAt(world, perLock, s, j)) >= j || StateAt(world, perLock, s, j) == DONE
  {
    if j > 0 {
      ScanAdvances(world, perLock, s, j - 1);
      StateResumable(world, perLock, s, j - 1);
      if StateAt(world, perLock, s, j - 1) != DONE {
        NextResumable(world(s, j - 1), StateAt(world, perLock, s, j - 1), perLock);
      }
    }
  }

  lemma {:induction false} ZeroStays(world: (nat, nat) -> Table, s: nat, j: nat)
    requires Growing(world)
    ensures StateAt(world, 0, s, j) == 0
  {
    if j > 0 {
      ZeroStays(world, s, j - 1);
      ShiftZero(32 - world(s, j - 1).bits);
    }
  }

  /** The scan of a shard ends exactly if the option asks for at least one entry per lock; with none it never moves. */
  lemma EndsIff(world: (nat, nat) -> Table, average: nat, s: nat)
    requires Growing(world)
    ensures (exists n: nat :: StateAt(world, PerLock(average), s, n) == DONE) <==> average > 0
  {
    if average > 0 {
      ScanAdvances(world, 1, s, 0x1_0000_0001);
      StateResumable(world, 1, s, 0x1_0000_0001);
      assert StateAt(world, PerLock(average), s, 0x1_0000_0001) == DONE;
    } else {
      forall n: nat ensures StateAt(world, PerLock(average), s, n) != DONE {
        ZeroStays(world, s, n);
      }
    }
  }

  // ---------------------------------------------------------------- the loops

  /** ApplyToSomeEntries on a table in memory. */
  method ApplyToSomeEntries(table: HandleTable, perLock: nat, state: nat) returns (visited: seq<Handle>, next: nat)
    requires table.Valid() && table.lengthBits <= 31 && Resumable(state, table.lengthBits)
    requires 0 < perLock && (perLock < Pow2(table.lengthBits) || state == 0)
    ensures Sized(Table(table.lengthBits, table.contents.Keys)) && Sequences.Distinct(visited)
    ensures next == NextState(Table(table.lengthBits, table.contents.Keys), state, perLock)
    ensures forall id :: id in Visited(Table(table.lengthBits, table.contents.Keys), state, perLock)
                         <==> id in table.contents && table.contents[id] in visited
    ensures forall h :: h in visited ==> h.id in table.contents && table.contents[h.id] == h
  {
    ghost var t := Table(table.lengthBits, table.contents.Keys);
    TableSize(table);
    NextResumable(t, state, perLock);
    var length := Pow2(table.lengthBits);
    var begin := ShiftRight(state, 32 - table.lengthBits);
    var end := begin + perLock;
    if end >= length {
      end := length;
      next := DONE;
    } else {
      next := ShiftLeft(end, 32 - table.lengthBits);
    }
    visited := table.ApplyToEntriesRange(begin, end);
    forall id | id in table.contents
      ensures table.contents[id] in table.members && table.contents[id].id == id
    {
      table.Holds(id);
    }
    forall h | h in visited ensures h.id in table.contents && table.contents[h.id] == h {
      MemberMapped(table, h);
    }
  }

  lemma TableSize(table: HandleTable)
    requires table.Valid()
    ensures table.list.Length == Pow2(table.lengthBits) && 4 <= table.lengthBits <= 31
  {
    assert Open(true);
  }

  lemma MemberMapped(table: HandleTable, h: Handle)
    requires table.Valid() && h in table.members
    ensures h.id in table.contents && table.contents[h.id] == h
  {
    assert Open(true) && Listed(h, table.contents);
  }

  function Left(state: nat): int
  {
    if state < DONE then 0x1_0000_0000 - state else 0
  }

  /** The calls made on a shard so far: call j visited what the table then held from its state on. */
  ghost predicate Made(world: (nat, nat) -> Table, perLock: nat, s: nat, visits: seq<set<Id>>, state: nat)
    requires Growing(world)
  {
    && state == StateAt(world, perLock, s, |visits|)
    && forall j {:trigger MadeCall(world, perLock, s, visits, j)} :: 0 <= j < |visits| ==>
         MadeCall(world, perLock, s, visits, j)
  }

  ghost predicate MadeCall(world: (nat, nat) -> Table, perLock: nat, s: nat, visits: seq<set<Id>>, j: int)
    requires Growing(world) && 0 <= j < |visits|
  {
    var before := StateAt(world, perLock, s, j);
    before != DONE && visits[j] == Visited(world(s, j), before, perLock)
  }

  lemma MadeOneMore(world: (nat, nat) -> Table, perLock: nat, s: nat, visits: seq<set<Id>>, state: nat)
    requires Growing(world) && perLock > 0 && state != DONE && Made(world, perLock, s, visits, state)
    ensures Left(NextState(world(s, |visits|), state, perLock)) < Left(state)
    ensures Made(world, perLock, s, visits + [Visited(world(s, |visits|), state, perLock)],
                 NextState(world(s, |visits|), state, perLock))
  {
    StateResumable(world, perLock, s, |visits|);
    NextResumable(world(s, |visits|), state, perLock);
    var visits' := visits + [Visited(world(s, |visits|), state, perLock)];
    forall j | 0 <= j < |visits'| ensures MadeCall(world, perLock, s, visits', j) {
      assert j < |visits| ==> MadeCall(world, perLock, s, visits, j);
    }
  }

  /** What ApplyToAllEntries achieves for an entry that is in its shard throughout. */
  lemma ScanVisitsOnce(world: (nat, nat) -> Table, average: nat, s: nat, visits: seq<set<Id>>, id: Id) returns (j: nat)
    requires Growing(world) && average > 0 && Made(world, PerLock(average), s, visits, DONE)
    requires forall i :: 0 <= i < |visits| ==> id in world(s, i).entries
    ensures j < |visits| && id in visits[j] && forall i :: 0 <= i < |visits| && i != j ==> id !in visits[i]
  {
    j := ExactlyOnce(world, PerLock(average), s, |visits|, id);
    assert MadeCall(world, PerLock(average), s, visits, j);
    forall i | 0 <= i < |visits| && i != j ensures id !in visits[i] {
      assert MadeCall(world, PerLock(average), s, visits, i) && !VisitedBy(world, PerLock(average), s, i, id);
    }
  }

  /** One call on shard s, which is not done yet. */
  method VisitShard(states: array<nat>, visits: seq<seq<set<Id>>>, s: nat, perLock: nat, world: (nat, nat) -> Table)
    returns (visits': seq<seq<set<Id>>>)
    requires Growing(world) && perLock > 0 && s < states.Length == |visits|
    requires states[s] != DONE && Made(world, perLock, s, visits[s], states[s])
    modifies states
    ensures states[..] == old(states[..])[s := states[s]] && Work(states[..]) < old(Work(states[..]))
    ensures |visits'| == |visits| && visits' == visits[s := visits'[s]] && Made(world, perLock, s, visits'[s], states[s])
  {
    var state, j := states[s], |visits[s]|;
    MadeOneMore(world, perLock, s, visits[s], state);
    WorkDrops(states[..], s, NextState(world(s, j), state, perLock));
    visits' := visits[s := visits[s] + [Visited(world(s, j), state, perLock)]];
    states[s] := NextState(world(s, j), state, perLock);
    assert states[..] == old(states[..])[s := states[s]];
  }

  /** One round over the shards. */
  method VisitEach(states: array<nat>, visits: seq<seq<set<Id>>>, perLock: nat, world: (nat, nat) -> Table)
    returns (visits': seq<seq<set<Id>>>, remaining: bool)
    requires Growing(world) && perLock > 0 && states.Length == |visits|
    requires forall s :: 0 <= s < |visits| ==> Made(world, perLock, s, visits[s], states[s])
    modifies states
    ensures |visits'| == |visits| && forall s :: 0 <= s < |visits| ==> Made(world, perLock, s, visits'[s], states[s])
    ensures if remaining then Work(states[..]) < old(Work(states[..]))
            else Work(states[..]) <= old(Work(states[..])) && forall s :: 0 <= s < states.Length ==> states[s] == DONE
  {
    visits' := visits;
    remaining := false;
    var s := 0;
    while s < states.Length
      invariant s <= states.Length == |visits'|
      invariant forall i :: 0 <= i < |visits'| ==> Made(world, perLock, i, visits'[i], states[i])
      invariant !remaining ==> forall i :: 0 <= i < s ==> states[i] == DONE
      invariant if remaining then Work(states[..]) < old(Work(states[..])) else Work(states[..]) <= old(Work(states[..]))
    {
      if states[s] != DONE {
        ghost var before := states[..];
        visits' := VisitShard(states, visits', s, perLock, world);
        assert forall i :: 0 <= i < states.Length && i != s ==> states[i] == before[i];
        remaining := remaining || states[s] != DONE;
      }
      s := s + 1;
    }
  }

  /** ApplyToAllEntries: rotating between the shards, one call at a time, until every one is done. */
  method ApplyToAllEntries(numShards: nat, average: nat, world: (nat, nat) -> Table) returns (visits: seq<seq<set<Id>>>)
    requires Growing(world) && average > 0
    ensures |visits| == numShards
    ensures forall s :: 0 <= s < numShards ==> Made(world, PerLock(average), s, visits[s], DONE)
  {
    var states := new nat[numShards](_ => 0);
    visits := seq(numShards, _ => []);
    var remaining := true;
    while remaining
      invariant |visits| == numShards
      invariant forall s :: 0 <= s < numShards ==> Made(world, PerLock(average), s, visits[s], states[s])
      invariant !remaining ==> forall s :: 0 <= s < numShards ==> states[s] == DONE
      decreases Work(states[..]), if remaining then 1 else 0
    {
      visits, remaining := VisitEach(states, visits, PerLock(average), world);
    }
  }

  /** The hashes still to be scanned, over all shards. */
  ghost function Work(states: seq<nat>): nat
  {
    SumNonNegative(states, Left);
    Sum(states, Left)
  }

  lemma WorkDrops(states: seq<nat>, s: nat, next: nat)
    requires s < |states| && Left(next) < Left(states[s])
    ensures Work(states[s := next]) < Work(states)
  {
    SumUpdate(states, s, next, Left);
  }
}
