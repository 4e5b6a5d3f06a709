/** Runs of a state machine: one action after another, each where it can happen. */
module Runs {
  import opened Wrappers

  /** What an action makes of a state; none where it cannot happen. */
  type Step<!S, !A> = (S, A) -> Option<S>

  /** The actions lead from `s` to `t`. */
  ghost predicate Leads<S, A>(step: Step<S, A>, s: S, actions: seq<A>, t: S)
    decreases |actions|
  {
    if actions == [] then s == t
    else step(s, actions[0]).Some? && Leads(step, step(s, actions[0]).value, actions[1..], t)
  }

  /** Every action of the run is good where it is taken. */
  ghost predicate Always<S, A>(step: Step<S, A>, good: (S, A) -> bool, s: S, actions: seq<A>)
    decreases |actions|
  {
    actions == []
    || (good(s, actions[0]) && (step(s, actions[0]).Some? ==> Always(step, good, step(s, actions[0]).value, actions[1..])))
  }

  /** `holds` in every state of the run, the first and the last included. */
  ghost predicate Throughout<S, A>(step: Step<S, A>, holds: S -> bool, s: S, actions: seq<A>)
    decreases |actions|
  {
    holds(s)
    && (actions == [] || (step(s, actions[0]).Some? ==> Throughout(step, holds, step(s, actions[0]).value, actions[1..])))
  }

  /** What every step keeps, every run keeps. */
  lemma {:induction false} Kept<S(!new), A(!new)>(step: Step<S, A>, inv: S -> bool, s: S, actions: seq<A>, t: S)
    requires inv(s) && Leads(step, s, actions, t)
    requires forall x, a :: inv(x) && step(x, a).Some? ==> inv(step(x, a).value)
    ensures inv(t)
    decreases |actions|
  {
    if actions != [] {
      Kept(step, inv, step(s, actions[0]).value, actions[1..], t);
    }
  }

  /** What every good step keeps, every run of good steps keeps. */
  lemma {:induction false} KeptByGood<S(!new), A(!new)>(step: Step<S, A>, inv: S -> bool, good: (S, A) -> bool,
                                                        s: S, actions: seq<A>, t: S)
    requires inv(s) && Leads(step, s, actions, t) && Always(step, good, s, actions)
    requires forall x, a :: inv(x) && good(x, a) && step(x, a).Some? ==> inv(step(x, a).value)
    ensures inv(t)
    decreases |actions|
  {
    if actions != [] {
      KeptByGood(step, inv, good, step(s, actions[0]).value, actions[1..], t);
    }
  }

  /** Steps good in one way, where what they keep makes them good in another, are so throughout. */
  lemma {:induction false} GoodToo<S(!new), A(!new)>(step: Step<S, A>, inv: S -> bool, good: (S, A) -> bool,
                                                     too: (S, A) -> bool, s: S, actions: seq<A>)
    requires inv(s) && Always(step, good, s, actions)
    requires forall x, a :: inv(x) && good(x, a) ==> too(x, a)
    requires forall x, a :: inv(x) && too(x, a) && step(x, a).Some? ==> inv(step(x, a).value)
    ensures Always(step, too, s, actions)
    decreases |actions|
  {
    if actions != [] && step(s, actions[0]).Some? {
      GoodToo(step, inv, good, too, step(s, actions[0]).value, actions[1..]);
    }
  }

  /**
   * Where good steps keep what makes a property hold, and any other step breaks the property, it holds
   * throughout a run exactly when every step of the run is good.
   */
  lemma {:induction false} HoldsExactly<S(!new), A(!new)>(step: Step<S, A>, inv: S -> bool, good: (S, A) -> bool,
                                                          holds: S -> bool, s: S, actions: seq<A>, t: S)
    requires inv(s) && Leads(step, s, actions, t)
    requires forall x :: inv(x) ==> holds(x)
    requires forall x, a :: inv(x) && good(x, a) && step(x, a).Some? ==> inv(step(x, a).value)
    requires forall x, a :: inv(x) && !good(x, a) && step(x, a).Some? ==> !holds(step(x, a).value)
    ensures Throughout(step, holds, s, actions) <==> Always(step, good, s, actions)
    decreases |actions|
  {
    if actions != [] && good(s, actions[0]) {
      HoldsExactly(step, inv, good, holds, step(s, actions[0]).value, actions[1..], t);
    }
  }

  lemma Before<S, A>(step: Step<S, A>, s: S, a: A, next: S, actions: seq<A>, t: S)
    requires step(s, a) == Some(next) && Leads(step, next, actions, t)
    ensures Leads(step, s, [a] + actions, t)
  {
    assert ([a] + actions)[1..] == actions;
  }

  lemma One<S, A>(step: Step<S, A>, s: S, a: A, t: S)
    requires step(s, a) == Some(t)
    ensures Leads(step, s, [a], t)
  {
    assert [a][1..] == [];
  }

  /** One step further. */
  lemma Further<S, A>(step: Step<S, A>, s: S, actions: seq<A>, m: S, a: A, t: S)
    requires Leads(step, s, actions, m) && step(m, a) == Some(t)
    ensures Leads(step, s, actions + [a], t)
  {
    One(step, m, a, t);
    LeadsThrough(step, s, actions, m, [a], t);
  }

  lemma Two<S, A>(step: Step<S, A>, s: S, a: A, m: S, b: A, t: S)
    requires step(s, a) == Some(m) && step(m, b) == Some(t)
    ensures Leads(step, s, [a, b], t)
  {
    One(step, m, b, t);
    Before(step, s, a, m, [b], t);
    assert [a] + [b] == [a, b];
  }

  lemma {:induction false} LeadsThrough<S, A>(step: Step<S, A>, s: S, first: seq<A>, t: S, second: seq<A>, u: S)
    requires Leads(step, s, first, t) && Leads(step, t, second, u)
    ensures Leads(step, s, first + second, u)
    decreases |first|
  {
    if first == [] {
      assert first + second == second;
    } else {
      assert (first + second)[1..] == first[1..] + second;
      LeadsThrough(step, step(s, first[0]).value, first[1..], t, second, u);
    }
  }
}
