/** The order modules are installed in, dependencies first (celerp/config.py, resolve_install_order). */
module InstallOrder {
  import opened Closure

  type Name = string

  /** Each module found, with the modules its manifest depends on; one not found has none. */
  type Manifests = map<Name, seq<Name>>

  function Deps(m: Manifests, name: Name): seq<Name> {
    if name in m then m[name] else []
  }

  ghost function Dependencies(m: Manifests): set<Name> {
    set a, i | a in m && 0 <= i < |m[a]| :: m[a][i]
  }

  ghost function Needs(m: Manifests): Relation<Name> {
    (b: Name, a: Name) => b in Deps(m, a)
  }

  /** `name` and all it depends on, directly or not. */
  ghost function Needed(m: Manifests, name: Name): set<Name> {
    Least(Dependencies(m), Needs(m), {name})
  }

  /** `a` depends on `b`, directly or not. */
  ghost predicate DependsOn(m: Manifests, a: Name, b: Name) {
    exists d :: d in Deps(m, a) && b in Needed(m, d)
  }

  ghost predicate Distinct(s: seq<Name>) {
    forall i, j :: 0 <= i < j < |s| ==> s[i] != s[j]
  }

  /** Each module listed comes after each of its dependencies that does not depend back on it. */
  ghost predicate AfterDependencies(m: Manifests, ordered: seq<Name>) {
    forall i, d :: 0 <= i < |ordered| && d in Deps(m, ordered[i]) ==> d in ordered[..i] || ordered[i] in Needed(m, d)
  }

  /** A module that does not depend on itself comes after all it depends on, directly or not. */
  ghost predicate AfterAllNeeded(m: Manifests, ordered: seq<Name>) {
    forall i, b :: 0 <= i < |ordered| && !DependsOn(m, ordered[i], ordered[i]) && b in Needed(m, ordered[i]) ==> b in ordered[..i + 1]
  }

  lemma DependencyIsNeeded(m: Manifests, a: Name, b: Name)
    requires b in Needed(m, a) || b in Deps(m, a)
    ensures Needed(m, b) <= Needed(m, a)
  {
    if b in Deps(m, a) {
      assert b in Dependencies(m);
    }
    Onward(Dependencies(m), Needs(m), a, b);
  }

  /** A module needed by `a` that needs `a` in turn, if only through itself, makes `a` depend on itself. */
  lemma Circle(m: Manifests, a: Name, b: Name)
    requires b in Needed(m, a) && b != a && a in Needed(m, b)
    ensures DependsOn(m, a, a)
  {
    ThroughOne(Dependencies(m), Needs(m), a, b);
    var p :| p in Dependencies(m) && Needs(m)(p, a) && b in Needed(m, p);
    DependencyIsNeeded(m, p, b);
  }

  lemma OpenNeedToo(m: Manifests, waiting: set<Name>, name: Name, d: Name)
    requires d in Deps(m, name) && forall g :: g in waiting ==> name in Needed(m, g)
    ensures d in Dependencies(m) && Needed(m, d) <= Needed(m, name)
    ensures forall g :: g in waiting + {name} ==> d in Needed(m, g)
  {
    DependencyIsNeeded(m, name, d);
    forall g | g in waiting
      ensures d in Needed(m, g)
    {
      DependencyIsNeeded(m, g, name);
    }
  }

  /** What holds between any two steps: what is visited and what is listed. */
  ghost predicate Listing(m: Manifests, visited: set<Name>, ordered: seq<Name>) {
    && Distinct(ordered) && (forall x :: x in ordered ==> x in visited)
    && (forall x, d :: x in ordered && d in Deps(m, x) ==> d in visited)
    && AfterDependencies(m, ordered) && AfterAllNeeded(m, ordered)
  }

  /** The modules being visited, their dependencies not all listed yet. */
  ghost function Open(visited: set<Name>, ordered: seq<Name>): set<Name> {
    visited - (set x | x in ordered)
  }

  /** What has been visited, and what is listed so far. */
  datatype Walk = Walk(visited: set<Name>, ordered: seq<Name>)

  /** The names visited one after another, each listed once what it depends on has been visited. */
  function Walked(m: Manifests, w: Walk, names: seq<Name>, ghost all: set<Name>): (r: Walk)
    requires w.visited <= all && Dependencies(m) <= all && forall n :: n in names ==> n in all
    ensures w.visited <= r.visited <= all
    decreases all - w.visited, |names|
  {
    if names == [] then w
    else if names[0] in w.visited then Walked(m, w, names[1..], all)
    else
      var inner := Walked(m, Walk(w.visited + {names[0]}, w.ordered), Deps(m, names[0]), all);
      Walked(m, Walk(inner.visited, inner.ordered + [names[0]]), names[1..], all)
  }

  ghost function Named(m: Manifests, names: seq<Name>): set<Name> { Dependencies(m) + (set n | n in names) }

  /** The first `i` names have been visited. */
  ghost predicate FirstIn(names: seq<Name>, i: nat, visited: set<Name>)
    requires i <= |names|
  {
    forall k :: 0 <= k < i ==> names[k] in visited
  }

  lemma OneMoreIn(names: seq<Name>, i: nat, was: set<Name>, now: set<Name>)
    requires i < |names| && FirstIn(names, i, was) && was <= now && names[i] in now
    ensures FirstIn(names, i + 1, now)
  {
  }

  lemma WalkedInTurn(m: Manifests, w: Walk, names: seq<Name>, all: set<Name>)
    requires w.visited <= all && Dependencies(m) <= all && names != [] && forall n :: n in names ==> n in all
    ensures Walked(m, w, names, all) == Walked(m, Walked(m, w, [names[0]], all), names[1..], all)
  {
    assert [names[0]][1..] == [];
  }

  class Resolver {
    const manifests: Manifests
    var visited: set<Name>
    var ordered: seq<Name>

    constructor (manifests: Manifests)
      ensures this.manifests == manifests && visited == {} && ordered == []
    {
      this.manifests, visited, ordered := manifests, {}, [];
    }

    /** `_visit`. The modules being visited when it is called all need `name`. */
    method Visit(name: Name, ghost all: set<Name>, ghost waiting: set<Name>)
      requires Listing(manifests, visited, ordered) && visited <= all && name in all && Dependencies(manifests) <= all
      requires waiting == Open(visited, ordered) && forall g :: g in waiting ==> name in Needed(manifests, g)
      modifies this
      ensures Listing(manifests, visited, ordered) && waiting == Open(visited, ordered)
      ensures name in visited && old(visited) <= visited <= all
      ensures visited <= old(visited) + Needed(manifests, name)
      ensures Walk(visited, ordered) == Walked(manifests, old(Walk(visited, ordered)), [name], all)
      decreases all - visited
    {
      if name in visited { return; }
      ghost var before, listed := visited, ordered;
      assert name !in ordered;
      visited := visited + {name};
      var deps := Deps(manifests, name);
      for i := 0 to |deps|
        invariant Listing(manifests, visited, ordered) && waiting + {name} == Open(visited, ordered)
        invariant before + {name} <= visited <= all
        invariant visited <= before + Needed(manifests, name)
        invariant FirstIn(deps, i, visited)
        invariant Walked(manifests, Walk(visited, ordered), deps[i..], all)
               == Walked(manifests, Walk(before + {name}, listed), deps, all)
      {
        OpenNeedToo(manifests, waiting, name, deps[i]);
        ghost var was, at := visited, Walk(visited, ordered);
        Visit(deps[i], all, waiting + {name});
        WalkedInTurn(manifests, at, deps[i..], all);
        assert deps[i..][1..] == deps[i + 1..];
        OneMoreIn(deps, i, was, visited);
      }
      ListedNext(manifests, visited, ordered, name, waiting);
      ordered := ordered + [name];
    }
  }

  lemma ListedNext(m: Manifests, visited: set<Name>, ordered: seq<Name>, name: Name, waiting: set<Name>)
    requires Listing(m, visited, ordered) && Open(visited, ordered) == waiting + {name} && name !in waiting
    requires forall d :: d in Deps(m, name) ==> d in visited
    requires forall g :: g in waiting ==> name in Needed(m, g)
    ensures Listing(m, visited, ordered + [name]) && Open(visited, ordered + [name]) == waiting
  {
    assert name in Open(visited, ordered);
    CloseFits(m, visited, ordered, name, waiting);
  }

  /** What must hold for a module whose dependencies have all been visited to be listed next. */
  lemma CloseFits(m: Manifests, visited: set<Name>, ordered: seq<Name>, name: Name, waiting: set<Name>)
    requires AfterDependencies(m, ordered) && AfterAllNeeded(m, ordered)
    requires forall x, d :: x in ordered && d in Deps(m, x) ==> d in visited
    requires forall d :: d in Deps(m, name) ==> d in visited
    requires visited - (set x | x in ordered) == waiting + {name} && name !in ordered
    requires forall g :: g in waiting ==> name in Needed(m, g)
    ensures AfterDependencies(m, ordered + [name]) && AfterAllNeeded(m, ordered + [name])
  {
    var next := ordered + [name];
    forall i, d | 0 <= i < |next| && d in Deps(m, next[i])
      ensures d in next[..i] || next[i] in Needed(m, d)
    {
      if i < |ordered| {
        assert next[..i] == ordered[..i] && next[i] == ordered[i];
      } else {
        assert next[..i] == ordered;
        assert d !in ordered ==> d in visited - (set x | x in ordered);
      }
    }
    forall i, b | 0 <= i < |next| && !DependsOn(m, next[i], next[i]) && b in Needed(m, next[i])
      ensures b in next[..i + 1]
    {
      if i < |ordered| {
        assert next[..i + 1] == ordered[..i + 1] && next[i] == ordered[i];
      } else {
        assert next[..i + 1] == next;
        NothingOpenIsNeeded(m, visited, ordered, name, waiting);
      }
    }
  }

  /** All a module on no cycle needs is ordered when its dependencies are: what is still open needs it. */
  lemma NothingOpenIsNeeded(m: Manifests, visited: set<Name>, ordered: seq<Name>, name: Name, waiting: set<Name>)
    requires forall x, d :: x in ordered && d in Deps(m, x) ==> d in visited
    requires forall d :: d in Deps(m, name) ==> d in visited
    requires visited - (set x | x in ordered) == waiting + {name} && name !in ordered
    requires forall g :: g in waiting ==> name in Needed(m, g)
    requires !DependsOn(m, name, name)
    ensures forall b :: b in Needed(m, name) ==> b in ordered || b == name
  {
    var other := set x | x in Needed(m, name) && (x in ordered || x == name);
    forall d, y | d in Dependencies(m) && y in other && Needs(m)(d, y)
      ensures d in other
    {
      DependencyIsNeeded(m, y, d);
      DependencyIsNeeded(m, name, y);
      assert d in Deps(m, y) && d in visited;
      if d !in ordered && d != name {
        assert d in visited - (set x | x in ordered);
        Circle(m, name, d);
      }
    }
    InEveryClosed(Dependencies(m), Needs(m), {name}, other);
  }

  /** The names, and what they depend on, directly or not. */
  ghost function AllNeeded(m: Manifests, names: seq<Name>): set<Name> {
    Least(Dependencies(m), Needs(m), set n | n in names)
  }

  /** Each module listed comes after each of its dependencies. */
  ghost predicate Topological(m: Manifests, ordered: seq<Name>) {
    forall i, d :: 0 <= i < |ordered| && d in Deps(m, ordered[i]) ==> d in ordered[..i]
  }

  /**
   * `resolve_install_order`: whatever the dependencies, cyclic ones included, it lists exactly
   * the names and all they depend on, once each, in an order that puts each module after each
   * of its dependencies that does not depend back on it. It is an order of the dependencies
   * exactly when nothing listed depends on itself.
   */
  method ResolveInstallOrder(names: seq<Name>, manifests: Manifests) returns (ordered: seq<Name>)
    ensures Distinct(ordered)
    ensures (set x | x in ordered) == AllNeeded(manifests, names)
    ensures AfterDependencies(manifests, ordered)
    ensures AfterAllNeeded(manifests, ordered)
    ensures Topological(manifests, ordered) <==> forall x :: x in AllNeeded(manifests, names) ==> !DependsOn(manifests, x, x)
    ensures ordered == Walked(manifests, Walk({}, []), names, Named(manifests, names)).ordered
  {
    var r := new Resolver(manifests);
    ghost var needed := AllNeeded(manifests, names);
    ghost var all := Named(manifests, names);
    NothingListed(manifests);
    for i := 0 to |names|
      invariant r.manifests == manifests && Settled(manifests, r.visited, r.ordered, needed)
      invariant FirstIn(names, i, r.visited)
      invariant needed <= all && r.visited <= all
      invariant Walked(manifests, Walk(r.visited, r.ordered), names[i..], all) == Walked(manifests, Walk({}, []), names, all)
    {
      NeededByOne(manifests, names, names[i]);
      ghost var was, at := r.visited, Walk(r.visited, r.ordered);
      r.Visit(names[i], all, {});
      WalkedInTurn(manifests, at, names[i..], all);
      assert names[i..][1..] == names[i + 1..];
      OneMoreIn(names, i, was, r.visited);
    }
    ordered := r.ordered;
    AllNeededAreListed(manifests, r.visited, ordered, names);
    TopologicalExactly(manifests, ordered);
  }

  /** In such an order, what a module needs is listed no later than it. */
  lemma NeededBefore(m: Manifests, ordered: seq<Name>, j: nat)
    requires Topological(m, ordered) && j < |ordered|
    ensures forall b :: b in Needed(m, ordered[j]) ==> b in ordered[..j + 1]
  {
    var other := set k | 0 <= k < j + 1 :: ordered[k];
    forall d, y | d in Dependencies(m) && y in other && Needs(m)(d, y)
      ensures d in other
    {
      var k :| 0 <= k < j + 1 && ordered[k] == y;
      assert d in ordered[..k];
    }
    assert ordered[j] == ordered[..j + 1][j];
    InEveryClosed(Dependencies(m), Needs(m), {ordered[j]}, other);
  }

  lemma TopologicalExactly(m: Manifests, ordered: seq<Name>)
    requires Distinct(ordered) && AfterDependencies(m, ordered)
    ensures Topological(m, ordered) <==> forall x :: x in ordered ==> !DependsOn(m, x, x)
  {
    if Topological(m, ordered) {
      forall i | 0 <= i < |ordered|
        ensures !DependsOn(m, ordered[i], ordered[i])
      {
        forall d | d in Deps(m, ordered[i])
          ensures ordered[i] !in Needed(m, d)
        {
          assert d in ordered[..i];
          var j :| 0 <= j < i && ordered[j] == d;
          NeededBefore(m, ordered, j);
          assert ordered[i] !in ordered[..j + 1];
        }
      }
    }
    if forall x :: x in ordered ==> !DependsOn(m, x, x) {
      forall i, d | 0 <= i < |ordered| && d in Deps(m, ordered[i])
        ensures d in ordered[..i]
      {
        assert !DependsOn(m, ordered[i], ordered[i]);
      }
    }
  }

  function ThreeModules(): Manifests { map["a" := ["b"], "b" := ["a", "c"]] }

  lemma Unfolded(w: Walk, name: Name, inner: Walk, all: set<Name>)
    requires w.visited <= all && Dependencies(ThreeModules()) <= all && name in all && name !in w.visited
    requires inner == Walked(ThreeModules(), Walk(w.visited + {name}, w.ordered), Deps(ThreeModules(), name), all)
    ensures Walked(ThreeModules(), w, [name], all) == Walk(inner.visited, inner.ordered + [name])
  {
    assert [name][1..] == [];
  }

  /**
   * On a cycle the order fails what a module needs through another: `a` is listed before `c`, which it
   * needs and which needs nothing.
   */
  lemma CycleBreaksTheOrder()
    ensures var m := ThreeModules();
      && Walked(m, Walk({}, []), ["b"], Named(m, ["b"])).ordered == ["a", "c", "b"]
      && "c" in Needed(m, "a") && "a" !in Needed(m, "c") && !Topological(m, ["a", "c", "b"])
  {
    var m, all := ThreeModules(), Named(ThreeModules(), ["b"]);
    assert m["a"][0] == "b" && m["b"][0] == "a" && m["b"][1] == "c";
    assert "a" in all && "b" in all && "c" in all;
    var atA, atC := Walk({"b"}, []), Walk({"b", "a"}, ["a"]);
    assert ["b"][1..] == [];
    assert Walked(m, Walk({"b", "a"}, []), ["b"], all) == Walk({"b", "a"}, []);
    assert atA.visited + {"a"} == {"b", "a"};
    Unfolded(atA, "a", Walk({"b", "a"}, []), all);
    assert Walked(m, Walk({"b", "a", "c"}, ["a"]), [], all) == Walk({"b", "a", "c"}, ["a"]);
    assert atC.visited + {"c"} == {"b", "a", "c"};
    Unfolded(atC, "c", Walk({"b", "a", "c"}, ["a"]), all);
    WalkedInTurn(m, atA, ["a", "c"], all);
    assert ["a", "c"][1..] == ["c"];
    assert {} + {"b"} == {"b"};
    Unfolded(Walk({}, []), "b", Walk({"b", "a", "c"}, ["a", "c"]), all);
    NeededOnTheCycle();
  }

  /** A module with a dependency that has another needs that one, and one with none needs none. */
  lemma NeededThrough(m: Manifests, a: Name, b: Name, c: Name)
    requires b in Deps(m, a) && c in Deps(m, b) && Deps(m, c) == [] && a != c
    ensures c in Needed(m, a) && a !in Needed(m, c)
  {
    DependencyIsNeeded(m, a, b);
    DependencyIsNeeded(m, b, c);
    assert c in Needed(m, c);
    InEveryClosed(Dependencies(m), Needs(m), {c}, {c});
  }

  lemma NeededOnTheCycle()
    ensures var m := ThreeModules();
      "c" in Needed(m, "a") && "a" !in Needed(m, "c") && !Topological(m, ["a", "c", "b"])
  {
    var m := ThreeModules();
    assert m["b"][1] == "c" && m["a"][0] == "b";
    NeededThrough(m, "a", "b", "c");
    assert "b" in Deps(m, ["a", "c", "b"][0]) && ["a", "c", "b"][..0] == [];
  }

  /** Between two calls of `_visit`: nothing is being visited. */
  ghost predicate Settled(m: Manifests, visited: set<Name>, ordered: seq<Name>, needed: set<Name>) {
    Listing(m, visited, ordered) && Open(visited, ordered) == {} && visited <= needed
  }

  lemma NothingListed(m: Manifests)
    ensures Listing(m, {}, []) && Open({}, []) == {}
  {
  }

  lemma NeededByOne(m: Manifests, names: seq<Name>, n: Name)
    requires n in names
    ensures Needed(m, n) <= AllNeeded(m, names)
  {
    InEveryClosed(Dependencies(m), Needs(m), {n}, AllNeeded(m, names));
  }

  lemma AllNeededAreListed(m: Manifests, visited: set<Name>, ordered: seq<Name>, names: seq<Name>)
    requires Listing(m, visited, ordered) && Open(visited, ordered) == {}
    requires forall k :: 0 <= k < |names| ==> names[k] in visited
    ensures AllNeeded(m, names) <= visited == (set x | x in ordered)
  {
    assert forall x :: x in visited ==> x !in Open(visited, ordered);
    InEveryClosed(Dependencies(m), Needs(m), (set n | n in names), visited);
  }
}
