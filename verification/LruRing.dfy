/** The circular list of the LRU cache: a sentinel, then the entries from oldest to newest. */
module LruRing {
  import opened LruHandles
  import opened Sequences

  /** The sentinel is node 0, the entries follow, and past the newest comes the sentinel again. */
  function Node(lru: Handle, ring: seq<Handle>, i: nat): Handle
  {
    if 1 <= i <= |ring| then ring[i - 1] else lru
  }

  /** The successor of an entry on the list; entries off the list have none. */
  ghost function NextOf(lru: Handle, ring: seq<Handle>, h: Handle): Handle?
  {
    if h == lru then Node(lru, ring, 1)
    else if h in ring then
      var i :| 0 <= i < |ring| && ring[i] == h;
      Node(lru, ring, i + 2)
    else null
  }

  ghost function PrevOf(lru: Handle, ring: seq<Handle>, h: Handle): Handle?
  {
    if h == lru then Node(lru, ring, |ring|)
    else if h in ring then
      var i :| 0 <= i < |ring| && ring[i] == h;
      Node(lru, ring, i)
    else null
  }

  /** The links in memory, of the sentinel and every entry seen, are those of a list of this ring. */
  ghost predicate Linked(lru: Handle, all: set<Handle>, ring: seq<Handle>)
    reads all`next, all`prev
  {
    forall h {:trigger InPlace(lru, ring, h)} :: h in all ==> InPlace(lru, ring, h)
  }

  ghost predicate InPlace(lru: Handle, ring: seq<Handle>, h: Handle)
    reads h`next, h`prev
  {
    h.next == NextOf(lru, ring, h) && h.prev == PrevOf(lru, ring, h)
  }

  /** The sentinel is not on the ring, and no entry is twice. */
  ghost predicate Proper(lru: Handle, ring: seq<Handle>)
  {
    lru !in ring && forall i, j {:trigger Unlike(ring, i, j)} :: 0 <= i < j < |ring| ==> Unlike(ring, i, j)
  }

  predicate Unlike(ring: seq<Handle>, i: int, j: int)
    requires 0 <= i < j < |ring|
  {
    ring[i] != ring[j]
  }

  lemma ProperDistinct(lru: Handle, ring: seq<Handle>)
    ensures Proper(lru, ring) <==> lru !in ring && Distinct(ring)
  {
    if lru !in ring && Proper(lru, ring) {
      forall i, j | 0 <= i < j < |ring| ensures ring[i] != ring[j] {
        assert Unlike(ring, i, j);
      }
    }
  }

  lemma NextAt(lru: Handle, ring: seq<Handle>, i: nat)
    requires Proper(lru, ring) && i <= |ring|
    ensures NextOf(lru, ring, Node(lru, ring, i)) == Node(lru, ring, i + 1)
    ensures PrevOf(lru, ring, Node(lru, ring, i + 1)) == Node(lru, ring, i)
  {
    ProperDistinct(lru, ring);
  }

  /** Entry k is unlinked by joining its neighbours. */
  lemma NextWithout(lru: Handle, ring: seq<Handle>, k: nat, h: Handle)
    requires Proper(lru, ring) && k < |ring|
    ensures NextOf(lru, Without(ring, k), h)
            == if h == ring[k] then null else if h == Node(lru, ring, k) then Node(lru, ring, k + 2) else NextOf(lru, ring, h)
  {
    var ring' := Without(ring, k);
    ProperDistinct(lru, ring);
    WithoutElements(ring, k);
    ProperDistinct(lru, ring');
    if h == lru {
    } else if h in ring' {
      var j :| 0 <= j < |ring'| && ring'[j] == h;
      NextAt(lru, ring', j + 1);
      NextAt(lru, ring, if j < k then j + 1 else j + 2);
    }
  }

  lemma PrevWithout(lru: Handle, ring: seq<Handle>, k: nat, h: Handle)
    requires Proper(lru, ring) && k < |ring|
    ensures PrevOf(lru, Without(ring, k), h)
            == if h == ring[k] then null else if h == Node(lru, ring, k + 2) then Node(lru, ring, k) else PrevOf(lru, ring, h)
  {
    var ring' := Without(ring, k);
    ProperDistinct(lru, ring);
    WithoutElements(ring, k);
    ProperDistinct(lru, ring');
    if h == lru {
    } else if h in ring' {
      var j :| 0 <= j < |ring'| && ring'[j] == h;
      NextAt(lru, ring', j);
      NextAt(lru, ring, if j < k then j else j + 1);
    }
  }

  /** Linking an entry in undoes unlinking it. */
  lemma NextWith(lru: Handle, ring: seq<Handle>, p: nat, e: Handle, h: Handle)
    requires Proper(lru, ring) && p <= |ring| && e !in ring && e != lru
    ensures NextOf(lru, With(ring, p, e), h)
            == if h == e then Node(lru, ring, p + 1) else if h == Node(lru, ring, p) then e else NextOf(lru, ring, h)
    ensures PrevOf(lru, With(ring, p, e), h)
            == if h == e then Node(lru, ring, p) else if h == Node(lru, ring, p + 1) then e else PrevOf(lru, ring, h)
  {
    var ring' := With(ring, p, e);
    ProperDistinct(lru, ring);
    WithElements(ring, p, e);
    ProperDistinct(lru, ring');
    NextWithout(lru, ring', p, h);
    PrevWithout(lru, ring', p, h);
    NextAt(lru, ring', p);
    NextAt(lru, ring', p + 1);
    assert Node(lru, ring', p) == Node(lru, ring, p) && Node(lru, ring', p + 2) == Node(lru, ring, p + 1);
  }
}
