/** Actions taken one after the other, with no other between them. */
module Paths {

  /** Each action leads from its state to the next one. */
  ghost predicate Path<S, A>(states: seq<S>, acts: seq<A>, step: (S, A, S) -> bool)
  {
    |states| == |acts| + 1 && forall k :: 0 <= k < |acts| ==> step(states[k], acts[k], states[k + 1])
  }

  ghost predicate Leads<S(!new), A>(st: S, acts: seq<A>, st': S, step: (S, A, S) -> bool)
  {
    exists states :: Path(states, acts, step) && states[0] == st && states[|acts|] == st'
  }

  lemma LeadsNowhere<S(!new), A>(st: S, step: (S, A, S) -> bool)
    ensures Leads(st, [], st, step)
  {
    assert Path([st], [], step);
  }

  /** One more action at the end. */
  lemma LeadsOn<S(!new), A>(st: S, acts: seq<A>, mid: S, a: A, st': S, step: (S, A, S) -> bool)
    requires Leads(st, acts, mid, step) && step(mid, a, st')
    ensures Leads(st, acts + [a], st', step)
  {
    var states :| Path(states, acts, step) && states[0] == st && states[|acts|] == mid;
    var longer := states + [st'];
    forall k | 0 <= k < |acts + [a]| ensures step(longer[k], (acts + [a])[k], longer[k + 1]) {
      if k < |acts| {
        assert step(states[k], acts[k], states[k + 1]);
      }
    }
    assert Path(longer, acts + [a], step);
  }

  lemma LeadsOnce<S(!new), A>(st: S, a: A, st': S, step: (S, A, S) -> bool)
    requires step(st, a, st')
    ensures Leads(st, [a], st', step)
  {
    LeadsNowhere(st, step);
    LeadsOn(st, [], st, a, st', step);
    assert [] + [a] == [a];
  }

  lemma LeadsTwice<S(!new), A>(st: S, a: A, mid: S, b: A, st': S, step: (S, A, S) -> bool)
    requires step(st, a, mid) && step(mid, b, st')
    ensures Leads(st, [a, b], st', step)
  {
    LeadsOnce(st, a, mid, step);
    LeadsOn(st, [a], mid, b, st', step);
    assert [a] + [b] == [a, b];
  }

  lemma LeadsThrice<S(!new), A>(st: S, a: A, st1: S, b: A, st2: S, c: A, st3: S, step: (S, A, S) -> bool)
    requires step(st, a, st1) && step(st1, b, st2) && step(st2, c, st3)
    ensures Leads(st, [a, b] + [c], st3, step)
  {
    LeadsTwice(st, a, st1, b, st2, step);
    LeadsOn(st, [a, b], st2, c, st3, step);
  }

  lemma LeadsFurther<S(!new), A>(st: S, acts: seq<A>, mid: S, more: seq<A>, st': S, step: (S, A, S) -> bool)
    requires Leads(st, acts, mid, step) && Leads(mid, more, st', step)
    ensures Leads(st, acts + more, st', step)
  {
    var first :| Path(first, acts, step) && first[0] == st && first[|acts|] == mid;
    var second :| Path(second, more, step) && second[0] == mid && second[|more|] == st';
    var all := first + second[1..];
    forall k | 0 <= k < |acts + more| ensures step(all[k], (acts + more)[k], all[k + 1]) {
      if k < |acts| {
        assert step(first[k], acts[k], first[k + 1]);
      } else {
        assert step(second[k - |acts|], more[k - |acts|], second[k - |acts| + 1]);
      }
    }
    assert Path(all, acts + more, step);
  }
}
