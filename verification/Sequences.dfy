/** Sequences without repetition. */
module Sequences {

  predicate Distinct<T(==)>(s: seq<T>)
  {
    forall i, j :: 0 <= i < j < |s| ==> s[i] != s[j]
  }

  function Elements<T>(s: seq<T>): set<T>
  {
    set x | x in s
  }

  function Without<T>(s: seq<T>, k: nat): seq<T>
    requires k < |s|
  {
    s[..k] + s[k + 1..]
  }

  lemma WithoutElements<T>(s: seq<T>, k: nat)
    requires k < |s| && Distinct(s)
    ensures Distinct(Without(s, k))
    ensures forall x :: x in Without(s, k) <==> x in s && x != s[k]
  {
    var t := Without(s, k);
    assert forall i :: 0 <= i < |t| ==> t[i] == s[if i < k then i else i + 1];
    forall x | x in s && x != s[k] ensures x in t {
      var i :| 0 <= i < |s| && s[i] == x;
      assert t[if i < k then i else i - 1] == x;
    }
  }

  lemma WithoutSet<T>(s: seq<T>, k: nat)
    requires k < |s| && Distinct(s)
    ensures Elements(Without(s, k)) + {s[k]} == Elements(s)
  {
    WithoutElements(s, k);
  }

  function With<T>(s: seq<T>, p: nat, x: T): seq<T>
    requires p <= |s|
  {
    s[..p] + [x] + s[p..]
  }

  lemma WithElements<T>(s: seq<T>, p: nat, x: T)
    requires p <= |s| && Distinct(s) && x !in s
    ensures Distinct(With(s, p, x))
    ensures forall y :: y in With(s, p, x) <==> y in s || y == x
    ensures Without(With(s, p, x), p) == s
  {
    var t := With(s, p, x);
    assert t[p] == x;
    assert forall i :: 0 <= i < |t| && i != p ==> t[i] == s[if i < p then i else i - 1];
    forall y | y in s ensures y in t {
      var i :| 0 <= i < |s| && s[i] == y;
      assert t[if i < p then i else i + 1] == y;
    }
  }

  /** A cut of a sequence without repetition. */
  lemma CutElements<T>(s: seq<T>, k: nat)
    requires k <= |s| && Distinct(s)
    ensures Distinct(s[..k]) && Distinct(s[k..])
    ensures forall x :: x in s <==> x in s[..k] || x in s[k..]
    ensures forall x :: x in s[..k] ==> x !in s[k..]
  {
    assert s == s[..k] + s[k..];
    forall x | x in s[..k] ensures x !in s[k..] {
      var i :| 0 <= i < k && s[i] == x;
      assert forall j :: 0 <= j < |s[k..]| ==> s[k..][j] == s[k + j] != s[i];
    }
  }

  lemma JoinElements<T>(s: seq<T>, t: seq<T>)
    requires Distinct(s) && Distinct(t) && forall x :: x in t ==> x !in s
    ensures Distinct(s + t)
  {
    var both := s + t;
    assert forall i :: |s| <= i < |both| ==> both[i] == t[i - |s|] && both[i] in t;
    assert forall i :: 0 <= i < |s| ==> both[i] == s[i] && both[i] in s;
  }

  /** The elements that pass a test, in order. */
  function Keep<T>(s: seq<T>, f: T -> bool): seq<T>
  {
    if s == [] then []
    else Keep(s[..|s| - 1], f) + if f(s[|s| - 1]) then [s[|s| - 1]] else []
  }

  lemma {:induction false} KeepIff<T>(s: seq<T>, f: T -> bool)
    ensures forall x :: x in Keep(s, f) <==> x in s && f(x)
  {
    if s != [] {
      KeepIff(s[..|s| - 1], f);
      assert s == s[..|s| - 1] + [s[|s| - 1]];
    }
  }

  lemma {:induction false} KeepSplits<T>(s: seq<T>, f: T -> bool, h: T -> bool)
    requires forall x :: x in s ==> (h(x) <==> !f(x))
    ensures |Keep(s, f)| + |Keep(s, h)| == |s|
  {
    if s != [] {
      var init := s[..|s| - 1];
      assert forall x :: x in init ==> x in s;
      KeepSplits(init, f, h);
      assert s[|s| - 1] in s;
    }
  }

  lemma {:induction false} KeepAll<T>(s: seq<T>, f: T -> bool)
    requires forall x :: x in s ==> f(x)
    ensures Keep(s, f) == s
  {
    if s != [] {
      KeepAll(s[..|s| - 1], f);
      assert s == s[..|s| - 1] + [s[|s| - 1]];
    }
  }
}
