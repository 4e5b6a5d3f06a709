/** The least set holding some seeds and closed under a relation, over a finite universe. */
module Closure {

  /** `from(x, y)`: when y is in the set, x belongs in it too. */
  type Relation<!T> = (T, T) -> bool

  /** The members of the universe one step outside `s`. */
  ghost function Grown<T(!new)>(universe: set<T>, from: Relation<T>, s: set<T>): set<T> {
    set x | x in universe && x !in s && exists y :: y in s && from(x, y)
  }

  ghost predicate Closed<T(!new)>(universe: set<T>, from: Relation<T>, s: set<T>) {
    forall x, y :: x in universe && y in s && from(x, y) ==> x in s
  }

  lemma OpenGrows<T(!new)>(universe: set<T>, from: Relation<T>, s: set<T>)
    ensures !Closed(universe, from, s) <==> Grown(universe, from, s) != {}
  {
    if !Closed(universe, from, s) {
      var x, y :| x in universe && y in s && from(x, y) && x !in s;
      assert x in Grown(universe, from, s);
    }
  }

  ghost function Least<T(!new)>(universe: set<T>, from: Relation<T>, s: set<T>): (r: set<T>)
    ensures s <= r <= s + universe
    ensures Closed(universe, from, r)
    decreases universe - s
  {
    if Closed(universe, from, s) then s else
      OpenGrows(universe, from, s);
      Least(universe, from, s + Grown(universe, from, s))
  }

  /** The closure is the least such set: this is the induction principle the proofs use. */
  lemma {:induction false} InEveryClosed<T(!new)>(universe: set<T>, from: Relation<T>, s: set<T>, other: set<T>)
    requires s <= other && Closed(universe, from, other)
    ensures Least(universe, from, s) <= other
    decreases universe - s
  {
    if !Closed(universe, from, s) {
      OpenGrows(universe, from, s);
      InEveryClosed(universe, from, s + Grown(universe, from, s), other);
    }
  }

  /** What a union reaches is what its members reach, one by one. */
  lemma LeastOfUnion<T(!new)>(universe: set<T>, from: Relation<T>, s: set<T>)
    ensures forall x :: x in Least(universe, from, s) ==> exists y :: y in s && x in Least(universe, from, {y})
  {
    var other := set x | x in Least(universe, from, s) && exists y :: y in s && x in Least(universe, from, {y});
    forall y | y in s
      ensures y in other
    {
      assert y in Least(universe, from, {y});
    }
    InEveryClosed(universe, from, s, other);
  }

  /** A member that was not a seed is there because of another member. */
  lemma HasReason<T(!new)>(universe: set<T>, from: Relation<T>, s: set<T>, x: T)
    requires x in Least(universe, from, s) && x !in s
    ensures x in universe && exists y :: y in Least(universe, from, s) && from(x, y)
  {
    var all := Least(universe, from, s);
    var other := set z | z in all && (z in s || (z in universe && exists y :: y in all && from(z, y)));
    InEveryClosed(universe, from, s, other);
  }

  lemma Onward<T(!new)>(universe: set<T>, from: Relation<T>, a: T, b: T)
    requires b in Least(universe, from, {a}) || (b in universe && from(b, a))
    ensures Least(universe, from, {b}) <= Least(universe, from, {a})
  {
    InEveryClosed(universe, from, {b}, Least(universe, from, {a}));
  }

  /** What one member brings in, it brings in through a member next to it. */
  lemma ThroughOne<T(!new)>(universe: set<T>, from: Relation<T>, a: T, b: T)
    requires b in Least(universe, from, {a}) && b != a
    ensures exists p :: p in universe && from(p, a) && b in Least(universe, from, {p})
  {
    var other := set x | x in Least(universe, from, {a})
                      && (x == a || exists p :: p in universe && from(p, a) && x in Least(universe, from, {p}));
    forall x, y | x in universe && y in other && from(x, y)
      ensures x in other
    {
      if y == a {
        assert x in Least(universe, from, {x});
      } else {
        var p :| p in universe && from(p, a) && y in Least(universe, from, {p});
        assert x in Least(universe, from, {p});
      }
    }
    InEveryClosed(universe, from, {a}, other);
  }
}
