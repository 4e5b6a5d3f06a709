/** When the cascading keys have no loop, the generated conditions are exact (celerp/db_catalog.py). */
module UserDeletionExact {
  import opened Catalog
  import opened Closure
  import opened Sql
  import opened UserDeletion

  /** A table outside users whose rows go with the rows of `target`, also outside users. */
  ghost predicate GoesOnInto(schema: Schema, name: Name, target: Name) {
    && name in UserCascade(schema) && name != "users" && target != "users" && name in schema
    && exists fk :: fk in schema[name].fks && Carries(schema, fk) && fk.target == target
  }

  /** The tables `name`'s rows go with, through any number of tables but users. */
  ghost function Below(schema: Schema, name: Name): set<Name> {
    Least(UserCascade(schema), (b: Name, a: Name) => GoesOnInto(schema, a, b), {name})
  }

  /** No chain of carrying keys leads from a table back to itself. */
  ghost predicate NoLoop(schema: Schema) {
    forall name, target :: GoesOnInto(schema, name, target) ==> name !in Below(schema, target)
  }

  /** No such chain among the tables `top`'s rows go with, whatever loops there are elsewhere. */
  ghost predicate NoLoopFrom(schema: Schema, top: Name) {
    forall name, target :: name in Below(schema, top) && GoesOnInto(schema, name, target) ==> name !in Below(schema, target)
  }

  /** A row goes with a row it names by a carried key; a user's own row never does. */
  ghost predicate CarriedBy(schema: Schema, db: Db, r: RowId, t: RowId) {
    && r in db && r.table in schema && r.table in UserCascade(schema) && r.table != "users"
    && exists fk :: fk in schema[r.table].fks && Carries(schema, fk) && Refers(db, r, fk, t)
  }

  /** What the cascade reaches from the user without passing another user. */
  ghost function CarriedAlong(schema: Schema, db: Db, u: RowId): set<RowId> {
    Least(db.Keys, (r: RowId, t: RowId) => CarriedBy(schema, db, r, t), {u})
  }

  /** The condition misses nothing, loop or no loop. */
  lemma NothingIsMissed(schema: Schema, db: Db, user: Name, u: RowId)
    requires WellFormed(schema) && Conforms(schema, db) && user !in schema && u in db && u.table == "users"
    ensures forall r :: r in CarriedAlong(schema, db, u) ==> Covered(schema, db, user, db[u]["id"], r)
  {
    var from := (r: RowId, t: RowId) => CarriedBy(schema, db, r, t);
    var other := set r | r in db && Covered(schema, db, user, db[u]["id"], r);
    UserIsCovered(schema, db, user, u);
    forall r, t | r in db && t in other && from(r, t)
      ensures r in other
    {
      var fk :| fk in schema[r.table].fks && Carries(schema, fk) && Refers(db, r, fk, t);
      CoverGoesOn(schema, db, user, db[u]["id"], r, fk, t);
    }
    InEveryClosed(db.Keys, from, {u}, other);
  }

  /** Every table seen so far goes on down to `name`. */
  ghost predicate Trail(schema: Schema, name: Name, seen: set<Name>) {
    forall s :: s in seen ==> s != "users" && name in Below(schema, s)
  }

  /** The tables seen began at `top`, below which there is no loop. */
  ghost predicate Clear(schema: Schema, top: Name, seen: set<Name>) {
    NoLoopFrom(schema, top) && top in seen
  }

  lemma BelowGoesOn(schema: Schema, top: Name, name: Name, target: Name)
    requires name in Below(schema, top) && GoesOnInto(schema, name, target) && target in UserCascade(schema)
    ensures target in Below(schema, top)
  {
    var from := (b: Name, a: Name) => GoesOnInto(schema, a, b);
    assert from(target, name);
  }

  /** Without a loop no table is met twice, so no branch counts a whole table. */
  lemma TrailGoesOn(schema: Schema, top: Name, name: Name, seen: set<Name>, fk: ForeignKey)
    requires Clear(schema, top, seen) && Trail(schema, name, seen)
    requires name in UserCascade(schema) && name != "users" && name in schema
    requires fk in schema[name].fks && Carries(schema, fk)
    ensures fk.target !in seen
    ensures fk.target != "users" ==> Trail(schema, fk.target, seen + {fk.target}) && Clear(schema, top, seen + {fk.target})
  {
    if fk.target != "users" {
      assert GoesOnInto(schema, name, fk.target);
      forall s | s in seen
        ensures fk.target in Below(schema, s)
      {
        BelowGoesOn(schema, s, name, fk.target);
      }
    }
  }

  /** A row the condition picks names, by a carried key, a row the key's own branch picks. */
  lemma StepBack(schema: Schema, db: Db, user: Name, top: Name, r: RowId, seen: set<Name>, outer: seq<Scope>)
    returns (fk: ForeignKey, t: RowId)
    requires WellFormed(schema) && Conforms(schema, db)
    requires r in db && r.table in schema && r.table in UserCascade(schema) && r.table != "users"
    requires Clear(schema, top, seen) && Trail(schema, r.table, seen)
    requires Eval(db, [Scope(r.table, db[r])] + outer, Going(schema, user, r.table, seen)) == True
    ensures fk in schema[r.table].fks && Carries(schema, fk) && Refers(db, r, fk, t) && t.table in schema
    ensures Eval(db, [Scope(t.table, db[t])] + ([Scope(r.table, db[r])] + outer),
                 Going(schema, user, t.table, seen + {fk.target})) == True
  {
    var where: Cond;
    fk, where := BranchThatPicked(schema, db, user, top, r, seen, outer);
    t := NamedRow(schema, db, r, fk, where, outer);
  }

  lemma NamedRow(schema: Schema, db: Db, r: RowId, fk: ForeignKey, where: Cond, outer: seq<Scope>) returns (t: RowId)
    requires WellFormed(schema) && Conforms(schema, db) && r in db && fk in schema[r.table].fks && fk.target in schema
    requires Eval(db, [Scope(r.table, db[r])] + outer, PicksBy(fk, where)) == True
    ensures Refers(db, r, fk, t) && Eval(db, [Scope(t.table, db[t])] + ([Scope(r.table, db[r])] + outer), where) == True
  {
    PicksFits(schema, db, r, fk, where, outer);
    t :| Refers(db, r, fk, t) && Eval(db, [Scope(t.table, db[t]), Scope(r.table, db[r])] + outer, where) == True;
    Nested(Scope(t.table, db[t]), Scope(r.table, db[r]), outer);
  }

  lemma OnlyTheUser(schema: Schema, db: Db, user: Name, u: RowId, r: RowId, outer: seq<Scope>)
    requires Conforms(schema, db) && user != "users"
    requires u in db && r in db && u.table == r.table == "users" && Qualified(outer, user, "id") == db[u]["id"]
    requires Eval(db, [Scope(r.table, db[r])] + outer, SameId(user)) == True
    ensures r == u
  {
    var here := [Scope(r.table, db[r])] + outer;
    assert Column(here, "id") == db[r]["id"];
    assert Qualified(here, user, "id") == db[u]["id"];
    assert Compare([db[r]["id"]], [db[u]["id"]]) == True;
    assert [db[r]["id"]][0] == [db[u]["id"]][0];
  }

  /** What a condition without TRUE in it picks is named, step by step, back to the user. */
  lemma NothingIsAdded(schema: Schema, db: Db, user: Name, top: Name, u: RowId, r: RowId, seen: set<Name>, outer: seq<Scope>)
    requires WellFormed(schema) && Conforms(schema, db) && user !in schema && u in db && u.table == "users"
    requires r in db && r.table in UserCascade(schema)
    requires r.table != "users" ==> Clear(schema, top, seen) && Trail(schema, r.table, seen)
    requires Qualified(outer, user, "id") == db[u]["id"]
    requires Eval(db, [Scope(r.table, db[r])] + outer, Going(schema, user, r.table, seen)) == True
    ensures r in CarriedAlong(schema, db, u)
    decreases UserCascade(schema) - seen
  {
    if r.table == "users" {
      OnlyTheUser(schema, db, user, u, r, outer);
    } else {
      var fk, t := StepBack(schema, db, user, top, r, seen, outer);
      var here := [Scope(r.table, db[r])] + outer;
      assert Qualified(here, user, "id") == db[u]["id"];
      TrailGoesOn(schema, top, r.table, seen, fk);
      NothingIsAdded(schema, db, user, top, u, t, seen + {fk.target}, here);
      CarriedGoesOn(schema, db, u, r, fk, t);
    }
  }

  lemma CarriedGoesOn(schema: Schema, db: Db, u: RowId, r: RowId, fk: ForeignKey, t: RowId)
    requires r in db && r.table in schema && r.table in UserCascade(schema) && r.table != "users"
    requires fk in schema[r.table].fks && Carries(schema, fk) && Refers(db, r, fk, t)
    requires t in CarriedAlong(schema, db, u)
    ensures r in CarriedAlong(schema, db, u)
  {
    assert CarriedBy(schema, db, r, t);
  }

  lemma BranchThatPicked(schema: Schema, db: Db, user: Name, top: Name, r: RowId, seen: set<Name>, outer: seq<Scope>)
    returns (fk: ForeignKey, where: Cond)
    requires r in db && r.table in schema && r.table in UserCascade(schema) && r.table != "users"
    requires Clear(schema, top, seen) && Trail(schema, r.table, seen)
    requires Eval(db, [Scope(r.table, db[r])] + outer, Going(schema, user, r.table, seen)) == True
    ensures fk in schema[r.table].fks && Carries(schema, fk) && (fk.target == "users" || fk.target in schema)
    ensures where == Going(schema, user, fk.target, seen + {fk.target})
    ensures Eval(db, [Scope(r.table, db[r])] + outer, PicksBy(fk, where)) == True
  {
    var carried := Carried(schema, schema[r.table].fks);
    forall fk | fk in carried
      ensures fk.target !in seen
    {
      TrailGoesOn(schema, top, r.table, seen, fk);
    }
    var any := Going(schema, user, r.table, seen).any;
    var k :| 0 <= k < |any| && Eval(db, [Scope(r.table, db[r])] + outer, any[k]) == True;
    fk := carried[k];
    assert fk in carried;
    where := Going(schema, user, fk.target, seen + {fk.target});
  }

  lemma PicksFits(schema: Schema, db: Db, r: RowId, fk: ForeignKey, where: Cond, outer: seq<Scope>)
    requires WellFormed(schema) && Conforms(schema, db) && r in db && fk in schema[r.table].fks && fk.target in schema
    ensures Eval(db, [Scope(r.table, db[r])] + outer, PicksBy(fk, where)) == True
       <==> exists t :: Refers(db, r, fk, t) && Eval(db, [Scope(t.table, db[t]), Scope(r.table, db[r])] + outer, where) == True
  {
    var i :| 0 <= i < |schema[r.table].fks| && schema[r.table].fks[i] == fk;
    assert KeyFits(schema, r.table, schema[r.table].fks[i]);
    PicksWhatItNames(schema, db, r, fk, where, outer);
  }

  /**
   * Without a loop of carrying keys among the tables its rows go with, the condition generated for a
   * table of the cascade picks exactly the rows the cascade carries along with the user.
   */
  lemma GoingIsExact(schema: Schema, db: Db, u: RowId, r: RowId)
    requires WellFormed(schema) && Conforms(schema, db) && u in db && u.table == "users"
    requires r in db && r.table in UserCascade(schema) && NoLoopFrom(schema, r.table)
    ensures var user := FreshAlias(schema, "u");
      Eval(db, [Scope(r.table, db[r]), Scope(user, db[u])], Going(schema, user, r.table, {r.table})) == True
      <==> r in CarriedAlong(schema, db, u)
  {
    var user := FreshAlias(schema, "u");
    var outer := [Scope(user, db[u])];
    assert [Scope(r.table, db[r])] + outer == [Scope(r.table, db[r]), Scope(user, db[u])];
    if r in CarriedAlong(schema, db, u) {
      CarriedIsPicked(schema, db, user, u, r);
    } else if Eval(db, [Scope(r.table, db[r])] + outer, Going(schema, user, r.table, {r.table})) == True {
      NothingIsAdded(schema, db, user, r.table, u, r, {r.table}, outer);
    }
  }

  lemma CarriedIsPicked(schema: Schema, db: Db, user: Name, u: RowId, r: RowId)
    requires WellFormed(schema) && Conforms(schema, db) && user !in schema && u in db && u.table == "users"
    requires r in db && r.table in UserCascade(schema) && r in CarriedAlong(schema, db, u)
    ensures Eval(db, [Scope(r.table, db[r])] + [Scope(user, db[u])], Going(schema, user, r.table, {r.table})) == True
  {
    NothingIsMissed(schema, db, user, u);
    assert Covered(schema, db, user, db[u]["id"], r);
    assert Qualified([Scope(user, db[u])], user, "id") == db[u]["id"];
  }

  /** A row names one that would go by a key that makes the deletion reach past it. */
  ghost predicate HeldBack(schema: Schema, db: Db, u: RowId) {
    exists r, i, t :: HeldBackBy(schema, db, u, r, i, t)
  }

  ghost predicate HeldBackBy(schema: Schema, db: Db, u: RowId, r: RowId, i: int, t: RowId) {
    && r in db && r.table in schema && 0 <= i < |schema[r.table].fks| && Checked(schema, r.table, schema[r.table].fks[i])
    && t in CarriedAlong(schema, db, u) && Refers(db, r, schema[r.table].fks[i], t)
  }

  /** So without a loop a member is kept exactly when some row holds it back: no user is kept for nothing. */
  lemma PickedExactly(schema: Schema, db: Db, members: set<int>, u: RowId)
    requires WellFormed(schema) && Conforms(schema, db) && NoLoop(schema) && u in db && u.table == "users"
    ensures u in Picked(schema, db, members) <==> db[u]["id"].v in members && !HeldBack(schema, db, u)
  {
    var user := FreshAlias(schema, "u");
    var outer := [Scope(user, db[u])];
    if HeldBack(schema, db, u) && u in Picked(schema, db, members) {
      var r, i, t :| HeldBackBy(schema, db, u, r, i, t);
      NothingIsMissed(schema, db, user, u);
      assert RefOf(schema, user, r.table, schema[r.table].fks[i]) in Refs(schema, user);
      NothingNamesChecked(schema, db, user, u, r, schema[r.table].fks[i], t);
    }
    if !HeldBack(schema, db, u) {
      forall none | none in Refs(schema, user)
        ensures Holds(db, outer, none)
      {
        var name, i :| name in schema && 0 <= i < |schema[name].fks| && Checked(schema, name, schema[name].fks[i])
          && none == RefOf(schema, user, name, schema[name].fks[i]);
        NotHeldBackBy(schema, db, u, name, i);
      }
    }
  }

  lemma NotHeldBackBy(schema: Schema, db: Db, u: RowId, name: Name, i: nat)
    requires WellFormed(schema) && Conforms(schema, db) && NoLoop(schema) && u in db && u.table == "users"
    requires !HeldBack(schema, db, u)
    requires name in schema && i < |schema[name].fks| && Checked(schema, name, schema[name].fks[i])
    ensures var user := FreshAlias(schema, "u");
      Holds(db, [Scope(user, db[u])], RefOf(schema, user, name, schema[name].fks[i]))
  {
    var user := FreshAlias(schema, "u");
    var fk := schema[name].fks[i];
    var outer := [Scope(user, db[u])];
    var where := Going(schema, user, fk.target, {fk.target});
    forall r | r in db && r.table == name
      ensures Eval(db, [Scope(name, db[r])] + outer, PicksBy(fk, where)) != True
    {
      PicksFits(schema, db, r, fk, where, outer);
      forall t | Refers(db, r, fk, t)
        ensures Eval(db, [Scope(t.table, db[t]), Scope(r.table, db[r])] + outer, where) != True
      {
        if Eval(db, [Scope(t.table, db[t]), Scope(r.table, db[r])] + outer, where) == True {
          var here := [Scope(r.table, db[r])] + outer;
          assert [Scope(t.table, db[t])] + here == [Scope(t.table, db[t]), Scope(r.table, db[r])] + outer;
          assert Qualified(here, user, "id") == db[u]["id"];
          assert NoLoopFrom(schema, t.table);
          NothingIsAdded(schema, db, user, t.table, u, t, {t.table}, here);
          assert HeldBackBy(schema, db, u, r, i, t);
        }
      }
    }
  }

  // ---- Read off the schema and the rows alone -------------------------------------------

  /**
   * Deleting the user goes no further than rows holding no company's data: whatever names a row that goes
   * with it does so by a cascading key, and is no user and no company's row.
   */
  ghost predicate GoesNoFurther(schema: Schema, db: Db, u: RowId) {
    forall r, i, t :: t in CascadeOf(schema, db, {u}) && Names(schema, db, r, i, t) ==>
      schema[r.table].fks[i].Cascades() && r.table != "users" && r.table !in CompanyTables(schema, false)
  }

  ghost predicate Names(schema: Schema, db: Db, r: RowId, i: int, t: RowId) {
    r in db && r.table in schema && 0 <= i < |schema[r.table].fks| && Refers(db, r, schema[r.table].fks[i], t)
  }

  /** What is carried along goes in the database's own cascade. */
  lemma CarriedGoes(schema: Schema, db: Db, u: RowId)
    ensures CarriedAlong(schema, db, u) <= CascadeOf(schema, db, {u})
  {
    var from := (r: RowId, t: RowId) => CarriedBy(schema, db, r, t);
    var all := CascadeOf(schema, db, {u});
    forall r, t | r in db && t in all && from(r, t)
      ensures r in all
    {
      var fk :| fk in schema[r.table].fks && Carries(schema, fk) && Refers(db, r, fk, t);
      var i :| 0 <= i < |schema[r.table].fks| && schema[r.table].fks[i] == fk;
      GoesOn(schema, db, {u}, r, t);
    }
    InEveryClosed(db.Keys, from, {u}, all);
  }

  /** A table outside the companies with a cascading key naming one the deletion goes into is one itself. */
  lemma CascadeGoesInto(schema: Schema, name: Name, i: nat)
    requires name in schema && i < |schema[name].fks| && schema[name].fks[i].Cascades()
    requires schema[name].fks[i].target in UserCascade(schema) && name !in CompanyTables(schema, false)
    ensures name in UserCascade(schema)
  {
    var fk := schema[name].fks[i];
    var company := CompanyTables(schema, false);
    var follows := (name: Name, fk: ForeignKey) => fk.Cascades() && name !in company && fk.target !in company;
    if fk.target in company {
      KeyReaches(schema, name, fk.target);
    }
    assert Follow(schema, follows, name, fk.target);
    assert Edges(schema, follows)(name, fk.target);
    assert Closed(schema.Keys, Edges(schema, follows), Least(schema.Keys, Edges(schema, follows), {"users"}));
  }

  /** Nothing holds back a user whose deletion goes no further. */
  lemma NoneHoldsBack(schema: Schema, db: Db, u: RowId)
    requires GoesNoFurther(schema, db, u)
    ensures !HeldBack(schema, db, u)
  {
    CarriedGoes(schema, db, u);
    if r, i, t :| HeldBackBy(schema, db, u, r, i, t) {
      assert Names(schema, db, r, i, t);
      CascadeGoesInto(schema, r.table, i);
    }
  }

  /** A picked user's deletion goes no further, loops or not. */
  lemma PickedGoesNoFurther(schema: Schema, db: Db, members: set<int>, u: RowId)
    requires WellFormed(schema) && Conforms(schema, db) && u in Picked(schema, db, members)
    ensures GoesNoFurther(schema, db, u)
  {
    var gone := CascadeOf(schema, db, {u});
    OneUserGoesAlone(schema, db, members, u);
    forall r, i, t | t in gone && Names(schema, db, r, i, t)
      ensures schema[r.table].fks[i].Cascades() && r.table != "users" && r.table !in CompanyTables(schema, false)
    {
      NamersAreFree(schema, db, members, u, r, i, t);
    }
  }

  lemma NamersAreFree(schema: Schema, db: Db, members: set<int>, u: RowId, r: RowId, i: nat, t: RowId)
    requires WellFormed(schema) && Conforms(schema, db) && u in Picked(schema, db, members)
    requires t in CascadeOf(schema, db, {u}) && Names(schema, db, r, i, t)
    ensures schema[r.table].fks[i].Cascades() && r.table != "users" && r.table !in CompanyTables(schema, false)
  {
    OneUserGoesAlone(schema, db, members, u);
    NamingACoveredRow(schema, db, FreshAlias(schema, "u"), u, r, i, t);
    assert r.table in UserCascade(schema) && r.table != "users";
    CascadeIsOutsideCompanies(schema, r.table);
  }

  /**
   * Without a loop of carrying keys a member is deleted exactly when its deletion goes no further than rows
   * holding no company's data: none is deleted that should not be, and none is kept for nothing.
   */
  lemma DeletedExactly(schema: Schema, db: Db, members: set<int>, u: RowId)
    requires WellFormed(schema) && Conforms(schema, db) && NoLoop(schema) && u in db && u.table == "users"
    ensures u in Picked(schema, db, members) <==> db[u]["id"].v in members && GoesNoFurther(schema, db, u)
  {
    PickedExactly(schema, db, members, u);
    if u in Picked(schema, db, members) {
      PickedGoesNoFurther(schema, db, members, u);
    }
    if GoesNoFurther(schema, db, u) {
      NoneHoldsBack(schema, db, u);
    }
  }

  // ---- The statement is well formed ---------------------------------------------------

  ghost predicate NoEmptyOr(c: Cond) {
    match c
    case Or(any) => any != [] && forall i :: 0 <= i < |any| ==> NoEmptyOr(any[i])
    case Picks(_, _, _, where) => NoEmptyOr(where)
    case _ => true
  }

  /** No generated OR is empty, and every table a condition reads is one the deletion goes into. */
  lemma ConditionIsWellFormed(schema: Schema, user: Name, name: Name, seen: set<Name>)
    requires name in UserCascade(schema)
    ensures NoEmptyOr(Going(schema, user, name, seen))
    ensures Tables(Going(schema, user, name, seen)) <= UserCascade(schema)
    decreases UserCascade(schema) - seen
  {
    if name != "users" {
      CascadeIsOutsideCompanies(schema, name);
      var carried := Carried(schema, schema[name].fks);
      var first :| first in schema[name].fks && Carries(schema, first);
      assert first in carried;
      if !exists fk :: fk in carried && fk.target in seen {
        var any := Going(schema, user, name, seen).any;
        forall k | 0 <= k < |any|
          ensures NoEmptyOr(any[k]) && Tables(any[k]) <= UserCascade(schema)
        {
          assert carried[k] in carried;
          ConditionIsWellFormed(schema, user, carried[k].target, seen + {carried[k].target});
        }
      }
    }
  }

  /** Every table the statement reads is keyed, and none goes by the alias of the users being deleted. */
  lemma StatementIsWellFormed(schema: Schema, none: NoneOf)
    requires "users" in schema && none in Refs(schema, FreshAlias(schema, "u"))
    ensures none.table in Keyed(schema) && Tables(none.where) <= Keyed(schema) && NoEmptyOr(none.where)
    ensures FreshAlias(schema, "u") != none.table && FreshAlias(schema, "u") !in Tables(none.where)
  {
    var user := FreshAlias(schema, "u");
    var name, i :| name in schema && 0 <= i < |schema[name].fks| && Checked(schema, name, schema[name].fks[i])
      && none == RefOf(schema, user, name, schema[name].fks[i]);
    ConditionIsWellFormed(schema, user, schema[name].fks[i].target, {schema[name].fks[i].target});
  }

  /** What is keyed: the companies' tables, those the deletion goes into, and those the statement looks for rows in. */
  lemma KeyedExactly(schema: Schema, name: Name)
    requires "users" in schema
    ensures name in Keyed(schema)
       <==> name in CompanyTables(schema, false) || name in UserCascade(schema)
            || exists none :: none in Refs(schema, FreshAlias(schema, "u")) && none.table == name
  {
    var user, cascade := FreshAlias(schema, "u"), UserCascade(schema);
    if i :| name in schema && 0 <= i < |schema[name].fks| && schema[name].fks[i].target in cascade {
      if Checked(schema, name, schema[name].fks[i]) {
        assert RefOf(schema, user, name, schema[name].fks[i]) in Refs(schema, user);
      }
    }
    if none :| none in Refs(schema, user) && none.table == name {
      StatementIsWellFormed(schema, none);
    }
  }
}
