/** The DELETE that removes the users left without a company (celerp/db_catalog.py). */
module UserDeletion {
  import opened Wrappers
  import opened Catalog
  import opened Closure
  import opened Sql

  // ---- The generated statement --------------------------------------------------------

  ghost function NoShorter(schema: Schema, than: Name): set<Name> {
    set name | name in schema && |name| >= |than|
  }

  /** The alias the users being deleted go by: `from` with underscores until no table has it. */
  function FreshAlias(schema: Schema, from: Name): (user: Name)
    ensures user !in schema && from <= user
    decreases NoShorter(schema, from)
  {
    if from !in schema then from else
      assert from in NoShorter(schema, from) - NoShorter(schema, from + "_");
      FreshAlias(schema, from + "_")
  }

  method PickAlias(schema: Schema) returns (user: Name)
    ensures user == FreshAlias(schema, "u")
  {
    user := "u";
    while user in schema
      invariant FreshAlias(schema, user) == FreshAlias(schema, "u")
      decreases NoShorter(schema, user)
    {
      assert user in NoShorter(schema, user) - NoShorter(schema, user + "_");
      user := user + "_";
    }
  }

  /** `carries`: deleting a row it names outside any company deletes the row holding it. */
  ghost predicate Carries(schema: Schema, fk: ForeignKey) {
    fk.Cascades() && fk.target in UserCascade(schema) && fk.target !in CompanyTables(schema, false)
  }

  ghost function Carried(schema: Schema, fks: seq<ForeignKey>): (carried: seq<ForeignKey>)
    ensures forall fk :: fk in carried <==> fk in fks && Carries(schema, fk)
  {
    if fks == [] then []
    else (if Carries(schema, fks[0]) then [fks[0]] else []) + Carried(schema, fks[1..])
  }

  /** `going`: the condition picking the rows of `name` deleted with the user. */
  ghost function Going(schema: Schema, user: Name, name: Name, seen: set<Name>): Cond
    requires name == "users" || name in schema
    decreases UserCascade(schema) - seen
  {
    if name == "users" then SameId(user) else
      var carried := Carried(schema, schema[name].fks);
      if exists fk :: fk in carried && fk.target in seen then All
      else Or(seq(|carried|, i requires 0 <= i < |carried| =>
        assert carried[i] in carried;
        PicksBy(carried[i], Going(schema, user, carried[i].target, seen + {carried[i].target}))))
  }

  ghost function PicksBy(fk: ForeignKey, where: Cond): Cond {
    Picks(fk.cols, fk.tcols, fk.target, where)
  }

  /** One `NOT EXISTS (SELECT 1 FROM table WHERE where)` of the statement. */
  datatype NoneOf = NoneOf(table: Name, where: Cond)

  /** The key needs a NOT EXISTS: it names a table the deletion goes into, and is not one of those it goes on by. */
  ghost predicate Checked(schema: Schema, name: Name, fk: ForeignKey) {
    var deleted := UserCascade(schema);
    fk.target in deleted && !(fk.Cascades() && name in deleted && name != "users")
  }

  /** The statement's NOT EXISTS conditions; they are joined by AND, so their order does not matter. */
  ghost function Refs(schema: Schema, user: Name): set<NoneOf> {
    set name, i | name in schema && 0 <= i < |schema[name].fks| && Checked(schema, name, schema[name].fks[i]) ::
      RefOf(schema, user, name, schema[name].fks[i])
  }

  ghost function RefOf(schema: Schema, user: Name, name: Name, fk: ForeignKey): NoneOf
    requires Checked(schema, name, fk)
  {
    NoneOf(name, PicksBy(fk, Going(schema, user, fk.target, {fk.target})))
  }

  ghost predicate Holds(db: Db, outer: seq<Scope>, none: NoneOf) {
    !exists r :: r in db && r.table == none.table && Eval(db, [Scope(r.table, db[r])] + outer, none.where) == True
  }

  /** The rows of users the statement deletes: those bound as members that every NOT EXISTS lets go. */
  ghost function Picked(schema: Schema, db: Db, members: set<int>): set<RowId> {
    var user := FreshAlias(schema, "u");
    set u | u in db && u.table == "users" && "id" in db[u] && db[u]["id"].Val? && db[u]["id"].v in members
      && forall none :: none in Refs(schema, user) ==> Holds(db, [Scope(user, db[u])], none)
  }

  // ---- What the database does ---------------------------------------------------------

  /** ON DELETE CASCADE: a row goes when a row it names by a cascading key goes. */
  ghost predicate GoesWith(schema: Schema, db: Db, r: RowId, t: RowId) {
    r.table in schema && exists i :: 0 <= i < |schema[r.table].fks|
                                  && schema[r.table].fks[i].Cascades() && Refers(db, r, schema[r.table].fks[i], t)
  }

  ghost function CascadeOf(schema: Schema, db: Db, rows: set<RowId>): set<RowId> {
    Least(db.Keys, (r: RowId, t: RowId) => GoesWith(schema, db, r, t), rows)
  }

  /** Row `r` names a row of `gone` by its `i`th key. */
  ghost predicate NamesGone(schema: Schema, db: Db, gone: set<RowId>, r: RowId, i: int) {
    && r in db && r.table in schema && 0 <= i < |schema[r.table].fks|
    && exists t :: t in gone && Refers(db, r, schema[r.table].fks[i], t)
  }

  /** A row left over names a deleted one by a key that forbids it, or any row does by RESTRICT. */
  ghost predicate Trips(schema: Schema, db: Db, gone: set<RowId>) {
    exists r, i :: NamesGone(schema, db, gone, r, i)
                && (schema[r.table].fks[i].onDelete.Restrict? || (schema[r.table].fks[i].onDelete.NoAction? && r !in gone))
  }

  /** A column of a surviving row, after the keys that clear on delete have acted. */
  ghost function Cleared(schema: Schema, db: Db, gone: set<RowId>, defaults: (Name, Name) -> Value, r: RowId, c: Name): Value
    requires r in db && c in db[r] && r.table in schema
  {
    if exists i :: NamesGone(schema, db, gone, r, i) && schema[r.table].fks[i].onDelete.SetNull? && c in schema[r.table].fks[i].cols
    then Null
    else if exists i :: NamesGone(schema, db, gone, r, i) && schema[r.table].fks[i].onDelete.SetDefault? && c in schema[r.table].fks[i].cols
    then defaults(r.table, c)
    else db[r][c]
  }

  /** What deleting `rows` leaves, or None when the database refuses it. */
  ghost function AfterDelete(schema: Schema, db: Db, rows: set<RowId>, defaults: (Name, Name) -> Value): (after: Option<Db>)
    requires Conforms(schema, db)
  {
    var gone := CascadeOf(schema, db, rows);
    if Trips(schema, db, gone) then None
    else Some(map r | r in db && r !in gone :: map c | c in db[r] :: Cleared(schema, db, gone, defaults, r, c))
  }

  /** Every key of every row is null in part or names a row. */
  ghost predicate Intact(schema: Schema, db: Db) {
    forall r, i :: r in db && r.table in schema && 0 <= i < |schema[r.table].fks| && schema[r.table].fks[i].target in schema
      ==> Satisfied(db, r, schema[r.table].fks[i])
  }

  ghost predicate Satisfied(db: Db, r: RowId, fk: ForeignKey)
    requires r in db
  {
    Null in Columns([Scope(r.table, db[r])], fk.cols) || exists t :: Refers(db, r, fk, t)
  }

  // ---- The condition covers the cascade -----------------------------------------------

  /** Below the user's scope, and whatever tables were seen, the condition picks the row. */
  ghost predicate Covered(schema: Schema, db: Db, user: Name, id: Value, r: RowId) {
    && r in db && r.table in UserCascade(schema)
    && forall seen, outer :: Qualified(outer, user, "id") == id ==>
         Eval(db, [Scope(r.table, db[r])] + outer, Going(schema, user, r.table, seen)) == True
  }

  lemma UserIsCovered(schema: Schema, db: Db, user: Name, u: RowId)
    requires Conforms(schema, db) && u in db && u.table == "users"
    ensures Covered(schema, db, user, db[u]["id"], u)
  {
  }

  /** Either the whole table counts, or each carried key has its branch. */
  lemma BranchOf(schema: Schema, user: Name, name: Name, seen: set<Name>, fk: ForeignKey)
    requires name in schema && name != "users" && fk in schema[name].fks && Carries(schema, fk)
    ensures fk.target == "users" || fk.target in schema
    ensures var going := Going(schema, user, name, seen);
      going == All || (going.Or? && PicksBy(fk, Going(schema, user, fk.target, seen + {fk.target})) in going.any)
  {
    var carried := Carried(schema, schema[name].fks);
    assert fk in carried;
    var k :| 0 <= k < |carried| && carried[k] == fk;
    var going := Going(schema, user, name, seen);
    if going != All {
      assert going.any[k] == PicksBy(fk, Going(schema, user, fk.target, seen + {fk.target}));
    }
  }

  lemma OneBranchIsEnough(db: Db, scopes: seq<Scope>, any: seq<Cond>, c: Cond)
    requires c in any && Eval(db, scopes, c) == True
    ensures Eval(db, scopes, Or(any)) == True
  {
  }

  /** A row naming a covered row by a key the condition carries is covered. */
  lemma CoverGoesOn(schema: Schema, db: Db, user: Name, id: Value, r: RowId, fk: ForeignKey, t: RowId)
    requires WellFormed(schema) && Conforms(schema, db) && user !in schema
    requires r in db && r.table in UserCascade(schema) && r.table != "users" && fk in schema[r.table].fks
    requires Carries(schema, fk) && Refers(db, r, fk, t)
    requires Covered(schema, db, user, id, t)
    ensures Covered(schema, db, user, id, r)
  {
    forall seen, outer | Qualified(outer, user, "id") == id
      ensures Eval(db, [Scope(r.table, db[r])] + outer, Going(schema, user, r.table, seen)) == True
    {
      CoverGoesOnBelow(schema, db, user, id, r, fk, t, seen, outer);
    }
  }

  lemma CoverGoesOnBelow(schema: Schema, db: Db, user: Name, id: Value, r: RowId, fk: ForeignKey, t: RowId,
                         seen: set<Name>, outer: seq<Scope>)
    requires WellFormed(schema) && Conforms(schema, db) && user !in schema
    requires r in db && r.table in UserCascade(schema) && r.table != "users" && fk in schema[r.table].fks
    requires Carries(schema, fk) && Refers(db, r, fk, t)
    requires Covered(schema, db, user, id, t) && Qualified(outer, user, "id") == id
    ensures Eval(db, [Scope(r.table, db[r])] + outer, Going(schema, user, r.table, seen)) == True
  {
    BranchOf(schema, user, r.table, seen, fk);
    var going := Going(schema, user, r.table, seen);
    if going != All {
      NamingIsPicked(schema, db, user, id, r, fk, t, seen + {fk.target}, outer);
      OneBranchIsEnough(db, [Scope(r.table, db[r])] + outer, going.any,
                        PicksBy(fk, Going(schema, user, fk.target, seen + {fk.target})));
    }
  }

  /** A covered row meets its own table's condition under any further scope, so a row naming it is picked. */
  lemma NamingIsPicked(schema: Schema, db: Db, user: Name, id: Value, r: RowId, fk: ForeignKey, t: RowId, seen: set<Name>, outer: seq<Scope>)
    requires WellFormed(schema) && Conforms(schema, db) && user !in schema
    requires r in db && fk in schema[r.table].fks && Refers(db, r, fk, t)
    requires Qualified(outer, user, "id") == id && Covered(schema, db, user, id, t)
    ensures Eval(db, [Scope(r.table, db[r])] + outer, PicksBy(fk, Going(schema, user, t.table, seen))) == True
  {
    var here := [Scope(r.table, db[r])] + outer;
    assert Qualified(here, user, "id") == id;
    assert Eval(db, [Scope(t.table, db[t])] + here, Going(schema, user, t.table, seen)) == True;
    Nested(Scope(t.table, db[t]), Scope(r.table, db[r]), outer);
    NamedIsPicked(schema, db, r, fk, t, Going(schema, user, t.table, seen), outer);
  }

  lemma NamedIsPicked(schema: Schema, db: Db, r: RowId, fk: ForeignKey, t: RowId, where: Cond, outer: seq<Scope>)
    requires WellFormed(schema) && Conforms(schema, db)
    requires r in db && fk in schema[r.table].fks && Refers(db, r, fk, t)
    requires Eval(db, [Scope(t.table, db[t]), Scope(r.table, db[r])] + outer, where) == True
    ensures Eval(db, [Scope(r.table, db[r])] + outer, PicksBy(fk, where)) == True
  {
    var i :| 0 <= i < |schema[r.table].fks| && schema[r.table].fks[i] == fk;
    assert KeyFits(schema, r.table, schema[r.table].fks[i]);
    PicksWhatItNames(schema, db, r, fk, where, outer);
  }

  /** Every table of the cascade but users is outside the companies, and so is each table it is reached by. */
  lemma CascadeIsOutsideCompanies(schema: Schema, name: Name)
    requires name in UserCascade(schema) && name != "users"
    ensures name in schema && name !in CompanyTables(schema, false)
    ensures exists i :: 0 <= i < |schema[name].fks| && Carries(schema, schema[name].fks[i])
  {
    var company := CompanyTables(schema, false);
    var follows := (name: Name, fk: ForeignKey) => fk.Cascades() && name !in company && fk.target !in company;
    HasReason(schema.Keys, Edges(schema, follows), {"users"}, name);
  }

  /** What a key of the cascade names is outside the companies too, users included. */
  lemma CascadeKeysCarry(schema: Schema, name: Name, fk: ForeignKey)
    requires name in UserCascade(schema) && name != "users" && fk.target in UserCascade(schema) && fk.Cascades()
    ensures Carries(schema, fk)
  {
    var company := CompanyTables(schema, false);
    var follows := (name: Name, fk: ForeignKey) => fk.Cascades() && name !in company && fk.target !in company;
    if fk.target != "users" {
      CascadeIsOutsideCompanies(schema, fk.target);
    } else if "users" in company {
      InEveryClosed(schema.Keys, Edges(schema, follows), {"users"}, {"users"});
      assert false;
    }
  }

  /** While a NOT EXISTS holds, no row names a covered row by the key it checks. */
  lemma NothingNamesChecked(schema: Schema, db: Db, user: Name, u: RowId, r: RowId, fk: ForeignKey, t: RowId)
    requires WellFormed(schema) && Conforms(schema, db) && user !in schema
    requires u in db && u.table == "users"
    requires r in db && fk in schema[r.table].fks && Checked(schema, r.table, fk)
    requires Covered(schema, db, user, db[u]["id"], t) && t.table == fk.target
    requires Holds(db, [Scope(user, db[u])], RefOf(schema, user, r.table, fk))
    ensures !Refers(db, r, fk, t)
  {
    if Refers(db, r, fk, t) {
      NamingIsPicked(schema, db, user, db[u]["id"], r, fk, t, {fk.target}, [Scope(user, db[u])]);
    }
  }

  /** While every NOT EXISTS holds, a row naming a covered row does so by a key the deletion goes on by. */
  lemma NamingACoveredRow(schema: Schema, db: Db, user: Name, u: RowId, r: RowId, i: nat, t: RowId)
    requires WellFormed(schema) && Conforms(schema, db) && user !in schema
    requires u in db && u.table == "users"
    requires forall none :: none in Refs(schema, user) ==> Holds(db, [Scope(user, db[u])], none)
    requires r in db && i < |schema[r.table].fks| && Refers(db, r, schema[r.table].fks[i], t)
    requires Covered(schema, db, user, db[u]["id"], t)
    ensures !Checked(schema, r.table, schema[r.table].fks[i]) && Carries(schema, schema[r.table].fks[i])
  {
    var fk := schema[r.table].fks[i];
    if Checked(schema, r.table, fk) {
      assert RefOf(schema, user, r.table, fk) in Refs(schema, user);
      NothingNamesChecked(schema, db, user, u, r, fk, t);
    } else {
      CascadeKeysCarry(schema, r.table, fk);
    }
  }

  /** The rows going with one picked user are covered by its condition, and none is another user. */
  lemma OneUserGoesAlone(schema: Schema, db: Db, members: set<int>, u: RowId)
    requires WellFormed(schema) && Conforms(schema, db) && u in Picked(schema, db, members)
    ensures forall r :: r in CascadeOf(schema, db, {u}) ==> Covered(schema, db, FreshAlias(schema, "u"), db[u]["id"], r)
    ensures forall r :: r in CascadeOf(schema, db, {u}) && r != u ==> r.table != "users"
  {
    var user := FreshAlias(schema, "u");
    var from := (r: RowId, t: RowId) => GoesWith(schema, db, r, t);
    var other := set r | r in db && Covered(schema, db, user, db[u]["id"], r) && (r == u || r.table != "users");
    UserIsCovered(schema, db, user, u);
    forall r, t | r in db && t in other && from(r, t)
      ensures r in other
    {
      var i :| 0 <= i < |schema[r.table].fks| && schema[r.table].fks[i].Cascades() && Refers(db, r, schema[r.table].fks[i], t);
      NamingACoveredRow(schema, db, user, u, r, i, t);
      CoverGoesOn(schema, db, user, db[u]["id"], r, schema[r.table].fks[i], t);
    }
    InEveryClosed(db.Keys, from, {u}, other);
  }

  /** A row naming one that goes with a picked user goes with it too, by a cascading key. */
  lemma NamersGoToo(schema: Schema, db: Db, members: set<int>, u: RowId, r: RowId, i: nat, t: RowId)
    requires WellFormed(schema) && Conforms(schema, db) && u in Picked(schema, db, members)
    requires t in CascadeOf(schema, db, {u})
    requires r in db && i < |schema[r.table].fks| && Refers(db, r, schema[r.table].fks[i], t)
    ensures schema[r.table].fks[i].Cascades() && r in CascadeOf(schema, db, {u})
  {
    OneUserGoesAlone(schema, db, members, u);
    NamingACoveredRow(schema, db, FreshAlias(schema, "u"), u, r, i, t);
    GoesOn(schema, db, {u}, r, t);
  }

  lemma GoesOn(schema: Schema, db: Db, rows: set<RowId>, r: RowId, t: RowId)
    requires t in CascadeOf(schema, db, rows) && r in db && GoesWith(schema, db, r, t)
    ensures r in CascadeOf(schema, db, rows)
  {
    assert Closed(db.Keys, (r: RowId, t: RowId) => GoesWith(schema, db, r, t), CascadeOf(schema, db, rows));
  }

  lemma CascadeOfMore(schema: Schema, db: Db, few: set<RowId>, more: set<RowId>)
    requires few <= more
    ensures CascadeOf(schema, db, few) <= CascadeOf(schema, db, more)
  {
    InEveryClosed(db.Keys, (r: RowId, t: RowId) => GoesWith(schema, db, r, t), few, CascadeOf(schema, db, more));
  }

  lemma CascadeOneByOne(schema: Schema, db: Db, rows: set<RowId>, r: RowId) returns (u: RowId)
    requires r in CascadeOf(schema, db, rows)
    ensures u in rows && r in CascadeOf(schema, db, {u})
  {
    LeastOfUnion(db.Keys, (r: RowId, t: RowId) => GoesWith(schema, db, r, t), rows);
    u :| u in rows && r in CascadeOf(schema, db, {u});
  }

  /**
   * The statement is safe, for every schema and every database: what the deletion of all
   * picked users takes with it is those users and rows of no company, and any row naming
   * one of those by any key does so by a cascading key and goes too.
   */
  lemma DeletionTakesOnlyItsOwn(schema: Schema, db: Db, members: set<int>)
    requires WellFormed(schema) && Conforms(schema, db)
    ensures var picked := Picked(schema, db, members); var gone := CascadeOf(schema, db, picked);
      && (forall r :: r in gone ==> r in picked || (r.table != "users" && r.table !in CompanyTables(schema, false)))
      && (forall r, i :: NamesGone(schema, db, gone, r, i) ==> schema[r.table].fks[i].Cascades() && r in gone)
  {
    var picked := Picked(schema, db, members);
    var gone := CascadeOf(schema, db, picked);
    forall r | r in gone
      ensures r in picked || (r.table != "users" && r.table !in CompanyTables(schema, false))
    {
      var u := CascadeOneByOne(schema, db, picked, r);
      OneUserGoesAlone(schema, db, members, u);
      if r != u {
        CascadeIsOutsideCompanies(schema, r.table);
      }
    }
    forall r, i | NamesGone(schema, db, gone, r, i)
      ensures schema[r.table].fks[i].Cascades() && r in gone
    {
      var t :| t in gone && Refers(db, r, schema[r.table].fks[i], t);
      var u := CascadeOneByOne(schema, db, picked, t);
      NamersGoToo(schema, db, members, u, r, i, t);
      CascadeOfMore(schema, db, {u}, picked);
    }
  }

  /**
   * So the database refuses nothing, changes no surviving row, and leaves no key dangling:
   * the rows of every company, and every user kept, are exactly as they were.
   */
  lemma DeletionChangesNothingElse(schema: Schema, db: Db, members: set<int>, defaults: (Name, Name) -> Value)
    requires WellFormed(schema) && Conforms(schema, db)
    ensures var picked := Picked(schema, db, members);
      var after := AfterDelete(schema, db, picked, defaults);
      && after == Some(db - CascadeOf(schema, db, picked))
      && (forall r :: r in db && (r.table in CompanyTables(schema, false) || r.table == "users") && r !in picked
            ==> r in after.value && after.value[r] == db[r])
      && (Intact(schema, db) ==> Intact(schema, after.value))
  {
    var picked := Picked(schema, db, members);
    var gone := CascadeOf(schema, db, picked);
    DeletionTakesOnlyItsOwn(schema, db, members);
    assert !Trips(schema, db, gone);
    var after := AfterDelete(schema, db, picked, defaults).value;
    forall r | r in db && r !in gone
      ensures after[r] == db[r]
    {
      assert forall i :: !NamesGone(schema, db, gone, r, i);
    }
    assert after == db - gone;
    if Intact(schema, db) {
      forall r, i | r in after && r.table in schema && 0 <= i < |schema[r.table].fks| && schema[r.table].fks[i].target in schema
        ensures Satisfied(after, r, schema[r.table].fks[i])
      {
        var fk := schema[r.table].fks[i];
        assert Satisfied(db, r, fk);
        if Null !in Columns([Scope(r.table, db[r])], fk.cols) {
          var t :| Refers(db, r, fk, t);
          assert !NamesGone(schema, db, gone, r, i);
          assert Refers(after, r, fk, t);
        }
      }
    }
  }

  // ---- Rows a company holds -----------------------------------------------------------

  /**
   * Whatever company rows are deleted, the database's cascade stays in the tables the company holds: a row
   * reached only by a key that clears outlives it.
   */
  lemma CascadeStaysHeld(schema: Schema, db: Db, rows: set<RowId>)
    requires forall r :: r in rows ==> r.table in CompanyTables(schema, true)
    ensures forall r :: r in CascadeOf(schema, db, rows) ==> r.table in CompanyTables(schema, true)
  {
    var from := (r: RowId, t: RowId) => GoesWith(schema, db, r, t);
    var all := CascadeOf(schema, db, rows);
    var other := set r | r in all && r.table in CompanyTables(schema, true);
    forall r, t | r in db.Keys && t in other && from(r, t)
      ensures r in other
    {
      assert HeldBy(schema, true, r.table, t.table);
      HeldReaches(schema, true, r.table, t.table);
    }
    InEveryClosed(db.Keys, from, rows, other);
  }

  // ---- What the database itself promises ------------------------------------------------

  /** Keys have columns, none is set to a default, and what a key names is not itself cleared by another. */
  ghost predicate ClearsApart(schema: Schema) {
    && (forall name, i :: name in schema && 0 <= i < |schema[name].fks| ==>
          schema[name].fks[i].cols != [] && !schema[name].fks[i].onDelete.SetDefault?)
    && (forall name, i, other, j :: name in schema && 0 <= i < |schema[name].fks| && other in schema && 0 <= j < |schema[other].fks| ==>
          NotClearedBy(schema[name].fks[i], other, schema[other].fks[j]))
  }

  predicate NotClearedBy(key: ForeignKey, other: Name, clearing: ForeignKey) {
    key.target == other && clearing.Clears() ==> forall c :: c in key.tcols ==> c !in clearing.cols
  }

  lemma NamedColumnStays(schema: Schema, db: Db, gone: set<RowId>, defaults: (Name, Name) -> Value, name: Name, i: nat, t: RowId, c: Name)
    requires Conforms(schema, db) && ClearsApart(schema) && t in db && c in db[t]
    requires name in schema && i < |schema[name].fks| && schema[name].fks[i].target == t.table && c in schema[name].fks[i].tcols
    ensures Cleared(schema, db, gone, defaults, t, c) == db[t][c]
  {
  }

  lemma ClearedOrKept(schema: Schema, db: Db, gone: set<RowId>, defaults: (Name, Name) -> Value, r: RowId, c: Name)
    requires Conforms(schema, db) && ClearsApart(schema) && r in db && c in db[r]
    ensures var v := Cleared(schema, db, gone, defaults, r, c); v == db[r][c] || v == Null
  {
  }

  lemma GoneIsCleared(schema: Schema, db: Db, gone: set<RowId>, defaults: (Name, Name) -> Value, r: RowId, i: nat)
    requires WellFormed(schema) && Conforms(schema, db) && ClearsApart(schema) && NamesGone(schema, db, gone, r, i)
    requires schema[r.table].fks[i].onDelete.SetNull?
    ensures var c := schema[r.table].fks[i].cols[0]; c in db[r] && Cleared(schema, db, gone, defaults, r, c) == Null
  {
    assert KeyFits(schema, r.table, schema[r.table].fks[i]);
  }

  /** A key of a surviving row, after the delete: the values it had, or a null among them. */
  lemma KeyAfter(schema: Schema, db: Db, gone: set<RowId>, defaults: (Name, Name) -> Value, after: Db, r: RowId, i: nat)
    requires WellFormed(schema) && Conforms(schema, db) && ClearsApart(schema) && r in db && r !in gone && i < |schema[r.table].fks|
    requires r in after && after[r].Keys == db[r].Keys && forall c :: c in db[r] ==> after[r][c] == Cleared(schema, db, gone, defaults, r, c)
    ensures var cols := schema[r.table].fks[i].cols;
      var was, now := Columns([Scope(r.table, db[r])], cols), Columns([Scope(r.table, after[r])], cols);
      now == was || Null in now
    ensures NamesGone(schema, db, gone, r, i) && schema[r.table].fks[i].onDelete.SetNull? ==>
              Null in Columns([Scope(r.table, after[r])], schema[r.table].fks[i].cols)
    ensures Null in Columns([Scope(r.table, db[r])], schema[r.table].fks[i].cols) ==>
              Null in Columns([Scope(r.table, after[r])], schema[r.table].fks[i].cols)
  {
    var cols := schema[r.table].fks[i].cols;
    assert KeyFits(schema, r.table, schema[r.table].fks[i]);
    var was, now := Columns([Scope(r.table, db[r])], cols), Columns([Scope(r.table, after[r])], cols);
    forall k | 0 <= k < |cols|
      ensures now[k] == was[k] || now[k] == Null
    {
      ClearedOrKept(schema, db, gone, defaults, r, cols[k]);
    }
    if NamesGone(schema, db, gone, r, i) && schema[r.table].fks[i].onDelete.SetNull? {
      GoneIsCleared(schema, db, gone, defaults, r, i);
      assert now[0] == Null;
    }
    if Null in was {
      var k :| 0 <= k < |cols| && was[k] == Null;
      assert now[k] == Null;
    }
  }

  /** What a surviving row names it still names, unless it was cleared. */
  lemma KeyStillHolds(schema: Schema, db: Db, gone: set<RowId>, defaults: (Name, Name) -> Value, after: Db, r: RowId, i: nat, t: RowId)
    requires WellFormed(schema) && Conforms(schema, db) && ClearsApart(schema) && r in db && i < |schema[r.table].fks|
    requires Refers(db, r, schema[r.table].fks[i], t) && r in after && t in after
    requires after[t].Keys == db[t].Keys && forall c :: c in db[t] ==> after[t][c] == Cleared(schema, db, gone, defaults, t, c)
    requires var cols := schema[r.table].fks[i].cols; Columns([Scope(r.table, after[r])], cols) == Columns([Scope(r.table, db[r])], cols)
    ensures Refers(after, r, schema[r.table].fks[i], t)
  {
    var fk := schema[r.table].fks[i];
    assert KeyFits(schema, r.table, fk);
    forall k | 0 <= k < |fk.tcols|
      ensures fk.tcols[k] in db[t] && after[t][fk.tcols[k]] == db[t][fk.tcols[k]]
    {
      NamedColumnStays(schema, db, gone, defaults, r.table, i, t, fk.tcols[k]);
    }
    assert Columns([Scope(t.table, after[t])], fk.tcols) == Columns([Scope(t.table, db[t])], fk.tcols);
  }

  /** Whatever is deleted: if the database goes through with it, every key that held still holds. */
  lemma DeletingKeepsKeys(schema: Schema, db: Db, rows: set<RowId>, defaults: (Name, Name) -> Value)
    requires WellFormed(schema) && Conforms(schema, db) && ClearsApart(schema) && Intact(schema, db)
    requires AfterDelete(schema, db, rows, defaults).Some?
    ensures Intact(schema, AfterDelete(schema, db, rows, defaults).value)
  {
    var gone, after := CascadeOf(schema, db, rows), AfterDelete(schema, db, rows, defaults).value;
    forall r, i | r in after && r.table in schema && 0 <= i < |schema[r.table].fks| && schema[r.table].fks[i].target in schema
      ensures Satisfied(after, r, schema[r.table].fks[i])
    {
      KeyIsKept(schema, db, rows, defaults, r, i);
    }
  }

  lemma KeyIsKept(schema: Schema, db: Db, rows: set<RowId>, defaults: (Name, Name) -> Value, r: RowId, i: nat)
    requires WellFormed(schema) && Conforms(schema, db) && ClearsApart(schema) && Intact(schema, db)
    requires AfterDelete(schema, db, rows, defaults).Some?
    requires r in AfterDelete(schema, db, rows, defaults).value && i < |schema[r.table].fks| && schema[r.table].fks[i].target in schema
    ensures Satisfied(AfterDelete(schema, db, rows, defaults).value, r, schema[r.table].fks[i])
  {
    var gone, after := CascadeOf(schema, db, rows), AfterDelete(schema, db, rows, defaults).value;
    var fk := schema[r.table].fks[i];
    KeyAfter(schema, db, gone, defaults, after, r, i);
    assert Satisfied(db, r, fk);
    if Null !in Columns([Scope(r.table, after[r])], fk.cols) {
      var t :| Refers(db, r, fk, t);
      if t in gone {
        assert NamesGone(schema, db, gone, r, i);
        if fk.Cascades() {
          GoesOn(schema, db, rows, r, t);
        }
        assert false;
      }
      KeyStillHolds(schema, db, gone, defaults, after, r, i, t);
    }
  }

  /** And it goes through where each row naming a deleted one goes too, or is cleared, by a key that does not restrict. */
  lemma NothingIsRefused(schema: Schema, db: Db, rows: set<RowId>, defaults: (Name, Name) -> Value)
    requires Conforms(schema, db)
    requires var gone := CascadeOf(schema, db, rows);
      forall r, i :: NamesGone(schema, db, gone, r, i) ==>
        !schema[r.table].fks[i].onDelete.Restrict? && (r in gone || !schema[r.table].fks[i].onDelete.NoAction?)
    ensures AfterDelete(schema, db, rows, defaults).Some?
  {
  }

  /** A row that is not cleared by a key naming a deleted one is as it was. */
  lemma OthersStayAsTheyWere(schema: Schema, db: Db, rows: set<RowId>, defaults: (Name, Name) -> Value, r: RowId, c: Name)
    requires Conforms(schema, db) && AfterDelete(schema, db, rows, defaults).Some?
    requires r in db && r !in CascadeOf(schema, db, rows) && c in db[r]
    requires forall i :: NamesGone(schema, db, CascadeOf(schema, db, rows), r, i) ==>
               !schema[r.table].fks[i].Clears() || c !in schema[r.table].fks[i].cols
    ensures var after := AfterDelete(schema, db, rows, defaults).value; r in after && c in after[r] && after[r][c] == db[r][c]
  {
  }
}
