/** Ordering tables by the keys between them (celerp/db_catalog.py, fk_order). */
module FkOrder {
  import opened Catalog
  import opened Closure

  // ---- Sorting names ------------------------------------------------------------------

  /** `a` sorts no later than `b`, by code point. */
  predicate NoLater(a: Name, b: Name) {
    a == [] || (b != [] && (a[0] < b[0] || (a[0] == b[0] && NoLater(a[1..], b[1..]))))
  }

  lemma {:induction false} NoLaterTotal(a: Name, b: Name)
    ensures NoLater(a, b) || NoLater(b, a)
    ensures NoLater(a, b) && NoLater(b, a) ==> a == b
  {
    if a != [] && b != [] && a[0] == b[0] {
      NoLaterTotal(a[1..], b[1..]);
      assert a == [a[0]] + a[1..] && b == [b[0]] + b[1..];
    }
  }

  lemma {:induction false} NoLaterTransitive(a: Name, b: Name, c: Name)
    requires NoLater(a, b) && NoLater(b, c)
    ensures NoLater(a, c)
  {
    if a != [] && b != [] && c != [] && a[0] == b[0] == c[0] {
      NoLaterTransitive(a[1..], b[1..], c[1..]);
    }
  }

  predicate First(names: set<Name>, m: Name) {
    m in names && forall x :: x in names ==> NoLater(m, x)
  }

  lemma OneFirst(names: set<Name>)
    requires names != {}
    ensures exists m :: First(names, m)
    ensures forall m, n :: First(names, m) && First(names, n) ==> m == n
  {
    var x :| x in names;
    var rest := names - {x};
    NoLaterTotal(x, x);
    if rest != {} {
      OneFirst(rest);
      var m :| First(rest, m);
      NoLaterTotal(x, m);
      if NoLater(x, m) {
        forall y | y in names
          ensures NoLater(x, y)
        {
          if y != x { NoLaterTransitive(x, m, y); }
        }
        assert First(names, x);
      } else {
        assert First(names, m);
      }
    } else {
      assert names == {x};
      assert First(names, x);
    }
    forall m, n | First(names, m) && First(names, n)
      ensures m == n
    {
      NoLaterTotal(m, n);
    }
  }

  function Sorted(names: set<Name>): (s: seq<Name>)
    ensures forall x :: x in s <==> x in names
    ensures forall i, j :: 0 <= i < j < |s| ==> s[i] != s[j] && NoLater(s[i], s[j])
  {
    if names == {} then [] else
      OneFirst(names);
      var m :| First(names, m);
      [m] + Sorted(names - {m})
  }

  // ---- References and cycles ----------------------------------------------------------

  /** Each table with the others of the graph it references. */
  type Graph = map<Name, set<Name>>

  function ListedRefs(tables: seq<Name>, schema: Schema): Graph
    requires forall t :: t in tables ==> t in schema
  {
    map t | t in tables :: set i | 0 <= i < |schema[t].fks| && schema[t].fks[i].target in tables :: schema[t].fks[i].target
  }

  function WithoutSelf(refs: Graph): Graph {
    map t | t in refs :: refs[t] - {t}
  }

  ghost predicate References(g: Graph, a: Name, b: Name) {
    a in g && b in g && b in g[a] && a != b
  }

  /** `t` and what it references, through any number of tables. */
  ghost function From(g: Graph, t: Name): set<Name> {
    Least(g.Keys, (b: Name, a: Name) => References(g, a, b), {t})
  }

  /** `c` is one of two or more tables that reference each other around. */
  ghost predicate OnCycle(g: Graph, c: Name) {
    exists p :: References(g, c, p) && c in From(g, p)
  }

  ghost predicate ReachesCycle(g: Graph, t: Name) {
    exists c :: c in From(g, t) && OnCycle(g, c)
  }

  ghost predicate ReachedFromCycle(g: Graph, t: Name) {
    exists c :: OnCycle(g, c) && t in From(g, c)
  }

  lemma FromOnward(g: Graph, a: Name, b: Name)
    requires b in From(g, a) || References(g, a, b)
    ensures From(g, b) <= From(g, a)
  {
    Onward(g.Keys, (b: Name, a: Name) => References(g, a, b), a, b);
  }

  /** What a table references that does not lead back to it leads to less. */
  lemma FromShrinks(g: Graph, a: Name, b: Name)
    requires References(g, a, b) && a !in From(g, b)
    ensures From(g, b) < From(g, a) && a in g.Keys
  {
    FromOnward(g, a, b);
    assert a in From(g, a);
  }

  /** A table none of whose references reaches a cycle reaches none. */
  lemma NoCycleAhead(g: Graph, t: Name)
    requires forall p :: References(g, t, p) ==> !ReachesCycle(g, p)
    ensures !ReachesCycle(g, t)
  {
    if ReachesCycle(g, t) {
      var c :| c in From(g, t) && OnCycle(g, c);
      if c != t {
        ThroughOne(g.Keys, (b: Name, a: Name) => References(g, a, b), t, c);
      }
    }
  }

  /** Where every table references one of the set, each reaches a cycle. */
  lemma EveryoneReferences(g: Graph, left: set<Name>, t: Name)
    requires forall a :: a in left ==> exists b :: b in left && References(g, a, b)
    requires t in left
    ensures ReachesCycle(g, t)
    decreases From(g, t)
  {
    var p :| p in left && References(g, t, p);
    if t in From(g, p) {
      assert t in From(g, t) && OnCycle(g, t);
    } else {
      FromShrinks(g, t, p);
      EveryoneReferences(g, left, p);
    }
  }

  /** Where every table is referenced by one of the set, each is reached from a cycle. */
  lemma EveryoneReferenced(g: Graph, left: set<Name>, t: Name)
    requires forall a :: a in left ==> exists b :: b in left && References(g, b, a)
    requires t in left
    ensures ReachedFromCycle(g, t)
    decreases g.Keys - From(g, t)
  {
    var p :| p in left && References(g, p, t);
    if p in From(g, t) {
      FromOnward(g, p, t);
      assert OnCycle(g, p) && t in From(g, p);
    } else {
      FromShrinks(g, p, t);
      EveryoneReferenced(g, left, p);
      CyclePassesOn(g, p, t);
    }
  }

  lemma CyclePassesOn(g: Graph, p: Name, t: Name)
    requires ReachedFromCycle(g, p) && References(g, p, t)
    ensures ReachedFromCycle(g, t)
  {
    var c :| OnCycle(g, c) && p in From(g, c);
    FromOnward(g, c, p);
    FromOnward(g, p, t);
  }

  /** A table between cycles, or on one, is referenced by another such table. */
  lemma BetweenHasReferrer(g: Graph, t: Name) returns (q: Name)
    requires ReachesCycle(g, t) && ReachedFromCycle(g, t)
    ensures References(g, q, t) && ReachesCycle(g, q) && ReachedFromCycle(g, q)
  {
    var from := (b: Name, a: Name) => References(g, a, b);
    var c :| OnCycle(g, c) && t in From(g, c);
    var start := c;
    if t == c {
      start :| References(g, c, start) && c in From(g, start);
      FromOnward(g, c, start);
    }
    HasReason(g.Keys, from, {start}, t);
    q :| q in From(g, start) && from(t, q);
    FromOnward(g, q, t);
    assert q in From(g, c);
  }

  // ---- The order ----------------------------------------------------------------------

  function Ready(parents: Graph): set<Name> {
    set t | t in parents && parents[t] == {}
  }

  function Without(parents: Graph, gone: set<Name>): Graph {
    map t | t in parents && t !in gone :: parents[t] - gone
  }

  function Behind(parents: Graph): set<Name> {
    set t | t in parents && !exists s :: s in parents && t in parents[s]
  }

  /** The rounds the order is made of: in each, the tables waiting for none, sorted. */
  function Rounds(parents: Graph): seq<Name>
    decreases parents.Keys
  {
    var ready := Ready(parents);
    if ready == {} then [] else
      assert exists t :: t in ready && t in parents;
      Sorted(ready) + Rounds(Without(parents, ready))
  }

  ghost predicate Precedes(g: Graph, order: seq<Name>) {
    && (forall i, j :: 0 <= i < j < |order| ==> order[i] != order[j])
    && (forall i, p :: 0 <= i < |order| && References(g, order[i], p) ==> p in order[..i])
  }

  /** The tables still waiting, each with those of them it references. */
  ghost predicate Waiting(g: Graph, parents: Graph) {
    parents.Keys <= g.Keys && forall t :: t in parents ==> parents[t] == g[t] * parents.Keys
  }

  /** What the first loop keeps: those ordered wait for none, come in order and reach no cycle. */
  ghost predicate Ordering(g: Graph, parents: Graph, order: seq<Name>) {
    && Waiting(g, parents) && Precedes(g, order)
    && (forall t :: t in order <==> t in g && t !in parents)
    && (forall t :: t in order ==> !ReachesCycle(g, t))
    && order + Rounds(parents) == Rounds(g)
  }

  lemma RoundKeeps(g: Graph, parents: Graph, order: seq<Name>)
    requires Ordering(g, parents, order) && Ready(parents) != {}
    ensures Ordering(g, Without(parents, Ready(parents)), order + Sorted(Ready(parents)))
  {
    var ready := Ready(parents);
    RoundPrecedes(g, parents, order);
    forall t | t in ready
      ensures !ReachesCycle(g, t)
    {
      assert forall p :: References(g, t, p) ==> p !in parents[t];
      NoCycleAhead(g, t);
    }
    Regroup(order, Sorted(ready), Rounds(Without(parents, ready)));
  }

  lemma Regroup(a: seq<Name>, b: seq<Name>, c: seq<Name>)
    ensures a + (b + c) == (a + b) + c
  {
  }

  lemma RoundPrecedes(g: Graph, parents: Graph, order: seq<Name>)
    requires Waiting(g, parents) && Precedes(g, order)
    requires forall t :: t in order <==> t in g && t !in parents
    ensures Precedes(g, order + Sorted(Ready(parents)))
  {
    var ready := Ready(parents);
    var next := order + Sorted(ready);
    forall i, p | 0 <= i < |next| && References(g, next[i], p)
      ensures p in next[..i]
    {
      if i < |order| {
        assert next[..i] == order[..i];
      } else {
        assert next[i] in ready;
        assert p !in parents[next[i]] && p in order;
        assert next[..i] == order + next[|order|..i];
      }
    }
    forall i, j | 0 <= i < j < |next|
      ensures next[i] != next[j]
    {
      if i < |order| <= j {
        assert next[j] in ready && next[i] in order;
      } else if |order| <= i {
        assert next[i] == Sorted(ready)[i - |order|] && next[j] == Sorted(ready)[j - |order|];
      }
    }
  }

  lemma LeftReachCycles(g: Graph, parents: Graph)
    requires Waiting(g, parents) && Ready(parents) == {} && forall t :: t in g ==> t !in g[t]
    ensures forall t :: t in parents ==> ReachesCycle(g, t)
  {
    forall a | a in parents.Keys
      ensures exists b :: b in parents.Keys && References(g, a, b)
    {
      assert a !in Ready(parents);
      var b :| b in parents[a];
    }
    forall t | t in parents
      ensures ReachesCycle(g, t)
    {
      EveryoneReferences(g, parents.Keys, t);
    }
  }

  lemma BehindAreNotBetween(g: Graph, parents: Graph, between: set<Name>)
    requires Waiting(g, parents)
    requires between == (set t | t in g && ReachesCycle(g, t) && ReachedFromCycle(g, t)) && between <= parents.Keys
    ensures between !! Behind(parents)
  {
    forall t | t in between
      ensures t !in Behind(parents)
    {
      var q := BetweenHasReferrer(g, t);
      assert q in between && t in parents[q];
    }
  }

  function Dropped(parents: Graph, behind: set<Name>): Graph {
    map t | t in parents && t !in behind :: parents[t]
  }

  lemma DroppingBehindKeeps(g: Graph, parents: Graph, left: Graph, between: set<Name>)
    requires Waiting(g, parents) && between <= parents.Keys <= left.Keys && between !! Behind(parents)
    ensures var next := Dropped(parents, Behind(parents));
            && Waiting(g, next) && between <= next.Keys <= left.Keys
            && (Behind(parents) != {} ==> next.Keys < parents.Keys)
  {
    var next := Dropped(parents, Behind(parents));
    assert next.Keys == parents.Keys - Behind(parents);
    if t :| t in Behind(parents) {
      assert t in parents && t !in next;
    }
  }

  lemma LeftAreBetween(g: Graph, parents: Graph)
    requires Waiting(g, parents) && Behind(parents) == {} && forall t :: t in g ==> t !in g[t]
    ensures forall t :: t in parents ==> ReachedFromCycle(g, t)
  {
    forall a | a in parents.Keys
      ensures exists b :: b in parents.Keys && References(g, b, a)
    {
      assert a !in Behind(parents);
      var b :| b in parents && a in parents[b];
    }
    forall t | t in parents
      ensures ReachedFromCycle(g, t)
    {
      EveryoneReferenced(g, parents.Keys, t);
    }
  }

  /** The first loop: the rounds, and the tables left when none is ready. */
  method OrderRounds(g: Graph) returns (order: seq<Name>, parents: Graph)
    requires forall t :: t in g ==> g[t] <= g.Keys - {t}
    ensures Ordering(g, parents, order) && Ready(parents) == {}
  {
    order, parents := [], g;
    var ready := Ready(parents);
    while ready != {}
      invariant Ordering(g, parents, order) && ready == Ready(parents)
      decreases parents.Keys
    {
      RoundKeeps(g, parents, order);
      assert exists t :: t in ready && t in parents;
      order := order + Sorted(ready);
      parents := Without(parents, ready);
      ready := Ready(parents);
    }
  }

  /** The second loop: of the tables left, those no other of them references are dropped, again and again. */
  method DropBehind(g: Graph, left: Graph) returns (parents: Graph)
    requires Waiting(g, left) && Ready(left) == {} && forall t :: t in g ==> t !in g[t]
    requires forall t :: t in g && ReachesCycle(g, t) ==> t in left
    ensures forall t :: t in parents <==> t in g && ReachesCycle(g, t) && ReachedFromCycle(g, t)
  {
    ghost var between := set t | t in g && ReachesCycle(g, t) && ReachedFromCycle(g, t);
    LeftReachCycles(g, left);
    parents := left;
    var behind := Behind(parents);
    while behind != {}
      invariant Waiting(g, parents) && behind == Behind(parents)
      invariant parents.Keys <= left.Keys && between <= parents.Keys
      decreases parents.Keys
    {
      BehindAreNotBetween(g, parents, between);
      DroppingBehindKeeps(g, parents, left, between);
      parents := Dropped(parents, behind);
      behind := Behind(parents);
    }
    LeftAreBetween(g, parents);
  }

  /**
   * `order` holds exactly the tables that reach no cycle of two or more, each after every
   * listed table it references; the rest of the answer is the tables that reference
   * themselves and those between cycles or on one.
   */
  method FkOrder(tables: seq<Name>, schema: Schema) returns (order: seq<Name>, unordered: set<Name>)
    requires forall t :: t in tables ==> t in schema
    ensures var g := WithoutSelf(ListedRefs(tables, schema));
      && order == Rounds(g)
      && (forall t :: t in order <==> t in tables && !ReachesCycle(g, t))
      && Precedes(g, order)
      && (forall t :: t in unordered <==>
            t in tables && (t in ListedRefs(tables, schema)[t] || (ReachesCycle(g, t) && ReachedFromCycle(g, t))))
  {
    var refs := ListedRefs(tables, schema);
    unordered := set t | t in tables && t in refs[t];
    var parents;
    order, parents := OrderRounds(WithoutSelf(refs));
    LeftReachCycles(WithoutSelf(refs), parents);
    assert order + [] == order;
    parents := DropBehind(WithoutSelf(refs), parents);
    unordered := unordered + parents.Keys;
  }

  // ---- More than is documented ---------------------------------------------------------

  /** On a cycle of two or more tables, or referencing itself: the tables the documentation calls unordered. */
  ghost predicate HasNoOrder(refs: Graph, t: Name) {
    t in refs && (t in refs[t] || OnCycle(WithoutSelf(refs), t))
  }

  /** On no cycle, but on a path from one to another. */
  ghost predicate BetweenCycles(refs: Graph, t: Name) {
    t in refs && !HasNoOrder(refs, t) && ReachesCycle(WithoutSelf(refs), t) && ReachedFromCycle(WithoutSelf(refs), t)
  }

  /** The tables called unordered are those documented exactly when no other table is on a path between cycles. */
  lemma AsDocumentedExactly(refs: Graph, unordered: set<Name>)
    requires var g := WithoutSelf(refs);
      forall t :: t in unordered <==> t in refs && (t in refs[t] || (ReachesCycle(g, t) && ReachedFromCycle(g, t)))
    ensures forall t :: HasNoOrder(refs, t) ==> t in unordered
    ensures (forall t :: t in unordered ==> HasNoOrder(refs, t)) <==> !exists t :: BetweenCycles(refs, t)
  {
    var g := WithoutSelf(refs);
    forall t | HasNoOrder(refs, t)
      ensures t in unordered
    {
      assert t in From(g, t);
    }
    if t :| t in unordered && !HasNoOrder(refs, t) {
      assert BetweenCycles(refs, t);
    }
  }

  function Key(target: Name): ForeignKey { ForeignKey(["id"], target, ["id"], NoAction) }

  /** Two cycles, `a` with `b` and `c` with `d`; `t` on the path from the second to the first; `e` ahead of the first. */
  function TwoCycles(): Schema {
    map["a" := Table({"id"}, [Key("b")]), "b" := Table({"id"}, [Key("a")]),
        "c" := Table({"id"}, [Key("d"), Key("t")]), "d" := Table({"id"}, [Key("c")]),
        "t" := Table({"id"}, [Key("a")]), "e" := Table({"id"}, [Key("a")])]
  }

  function Tables(): seq<Name> { ["a", "b", "c", "d", "t", "e"] }

  function Drawn(): Graph {
    map["a" := {"b"}, "b" := {"a"}, "c" := {"d", "t"}, "d" := {"c"}, "t" := {"a"}, "e" := {"a"}]
  }

  lemma OneKeyDrawn(name: Name, target: Name)
    requires name in Tables() && target in Tables() && TwoCycles()[name].fks == [Key(target)]
    ensures ListedRefs(Tables(), TwoCycles())[name] == {target}
  {
    assert TwoCycles()[name].fks[0].target == target;
  }

  lemma TwoKeysDrawn()
    ensures ListedRefs(Tables(), TwoCycles())["c"] == {"d", "t"}
  {
    var fks := TwoCycles()["c"].fks;
    assert fks[0].target == "d" && fks[1].target == "t";
    assert Tables()[3] == "d" && Tables()[4] == "t" && Tables()[2] == "c";
  }

  lemma TwoCyclesDrawn()
    ensures ListedRefs(Tables(), TwoCycles()) == Drawn() && WithoutSelf(Drawn()) == Drawn()
  {
    assert Tables()[0] == "a" && Tables()[1] == "b" && Tables()[2] == "c";
    assert Tables()[3] == "d" && Tables()[4] == "t" && Tables()[5] == "e";
    OneKeyDrawn("a", "b");
    OneKeyDrawn("b", "a");
    TwoKeysDrawn();
    OneKeyDrawn("d", "c");
    OneKeyDrawn("t", "a");
    OneKeyDrawn("e", "a");
    assert ListedRefs(Tables(), TwoCycles()).Keys == Drawn().Keys;
    NoneNamesItself();
  }

  lemma NoneNamesItself()
    ensures WithoutSelf(Drawn()) == Drawn()
  {
    var g := Drawn();
    forall x | x in g
      ensures x !in g[x]
    {
      assert x == "a" || x == "b" || x == "c" || x == "d" || x == "t" || x == "e";
    }
    assert WithoutSelf(g).Keys == g.Keys && forall x :: x in g ==> WithoutSelf(g)[x] == g[x];
  }

  predicate Line(x: Name, y: Name) {
    || (x == "a" && y == "b") || (x == "b" && y == "a") || (x == "c" && y == "d") || (x == "c" && y == "t")
    || (x == "d" && y == "c") || (x == "t" && y == "a") || (x == "e" && y == "a")
  }

  lemma LinesDrawn(x: Name, y: Name)
    ensures References(Drawn(), x, y) <==> Line(x, y)
  {
  }

  lemma CycleOfTwo(g: Graph, a: Name, b: Name)
    requires References(g, a, b) && References(g, b, a)
    ensures OnCycle(g, a)
  {
    FromOnward(g, b, a);
    assert a in From(g, a);
  }

  lemma OneBeside(g: Graph, t: Name, c: Name)
    requires OnCycle(g, c)
    ensures References(g, t, c) ==> ReachesCycle(g, t)
    ensures References(g, c, t) ==> ReachedFromCycle(g, t)
  {
    if References(g, t, c) {
      FromOnward(g, t, c);
      assert c in From(g, c);
    }
    if References(g, c, t) {
      FromOnward(g, c, t);
      assert t in From(g, t);
    }
  }

  /** A table whose only way leads onto two tables that lead nowhere else does not come back. */
  lemma OffTheCycle(g: Graph, t: Name, a: Name, b: Name)
    requires forall p :: References(g, t, p) ==> p == a
    requires forall p :: References(g, a, p) || References(g, b, p) ==> p in {a, b}
    requires t !in {a, b}
    ensures !OnCycle(g, t)
  {
    InEveryClosed(g.Keys, (y: Name, x: Name) => References(g, x, y), {a}, {a, b});
  }

  lemma ReachedFromItself(g: Graph, e: Name, c: Name)
    requires forall x :: !References(g, x, e)
    ensures e in From(g, c) ==> c == e
  {
    if e in From(g, c) && c != e {
      HasReason(g.Keys, (y: Name, x: Name) => References(g, x, y), {c}, e);
    }
  }

  lemma NotReachedFromACycle(g: Graph, e: Name)
    requires forall x :: !References(g, x, e)
    ensures !ReachedFromCycle(g, e)
  {
    forall c
      ensures e in From(g, c) ==> c == e
    {
      ReachedFromItself(g, e, c);
    }
    assert forall p :: References(g, e, p) ==> p != e;
  }

  lemma BetweenTwo(g: Graph, a: Name, b: Name, c: Name, d: Name, t: Name)
    requires References(g, a, b) && References(g, b, a) && References(g, c, d) && References(g, d, c)
    requires References(g, c, t) && References(g, t, a)
    ensures ReachesCycle(g, t) && ReachedFromCycle(g, t)
  {
    CycleOfTwo(g, a, b);
    CycleOfTwo(g, c, d);
    OneBeside(g, t, a);
    OneBeside(g, t, c);
  }

  lemma WhereTStands(g: Graph)
    requires forall x, y :: References(g, x, y) <==> Line(x, y)
    ensures ReachesCycle(g, "t") && ReachedFromCycle(g, "t") && !OnCycle(g, "t")
  {
    BetweenTwo(g, "a", "b", "c", "d", "t");
    OffTheCycle(g, "t", "a", "b");
  }

  lemma WhereEStands(g: Graph)
    requires forall x, y :: References(g, x, y) <==> Line(x, y)
    ensures ReachesCycle(g, "e") && !ReachedFromCycle(g, "e")
  {
    CycleOfTwo(g, "a", "b");
    OneBeside(g, "e", "a");
    NotReachedFromACycle(g, "e");
  }

  lemma WhereTheyStand()
    ensures BetweenCycles(Drawn(), "t") && WithoutSelf(Drawn()) == Drawn()
    ensures ReachesCycle(Drawn(), "e") && !ReachedFromCycle(Drawn(), "e") && "e" !in Drawn()["e"]
  {
    TwoCyclesDrawn();
    forall x, y
      ensures References(Drawn(), x, y) <==> Line(x, y)
    {
      LinesDrawn(x, y);
    }
    WhereTStands(Drawn());
    WhereEStands(Drawn());
  }

  /** So `t` is called unordered though it is on no cycle, and `e` is in neither answer. */
  method TablesBetweenCycles() returns (order: seq<Name>, unordered: set<Name>)
    ensures "t" in unordered && "e" !in unordered && "e" !in order
    ensures BetweenCycles(ListedRefs(Tables(), TwoCycles()), "t")
  {
    TwoCyclesDrawn();
    WhereTheyStand();
    order, unordered := OfGraph(Drawn());
  }

  /** `fk_order` on the two cycles. */
  method OfGraph(ghost g: Graph) returns (order: seq<Name>, unordered: set<Name>)
    requires g == ListedRefs(Tables(), TwoCycles()) && WithoutSelf(g) == g
    ensures forall t :: t in order <==> t in g && !ReachesCycle(g, t)
    ensures forall t :: t in unordered <==> t in g && (t in g[t] || (ReachesCycle(g, t) && ReachedFromCycle(g, t)))
  {
    order, unordered := FkOrder(Tables(), TwoCycles());
  }
}
