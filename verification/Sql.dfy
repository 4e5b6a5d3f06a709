/** The conditions a generated DELETE is made of, and what the database makes of them. */
module Sql {
  import opened Catalog
  import opened Closure

  datatype Value = Null | Val(v: int)

  type Row = map<Name, Value>

  datatype RowId = RowId(table: Name, nr: nat)

  type Db = map<RowId, Row>

  /** SQL's three-valued logic: only True picks a row. */
  datatype Truth = True | False | Unknown

  datatype Cond =
    | SameId(user: Name)                                                    // id = user.id
    | All                                                                   // TRUE
    | Picks(cols: seq<Name>, tcols: seq<Name>, target: Name, where: Cond)   // (cols) IN (SELECT tcols FROM target WHERE where)
    | Or(any: seq<Cond>)                                                    // joined by OR

  /** A table named in FROM, under its name or alias, and the row it stands at. Innermost first. */
  datatype Scope = Scope(name: Name, row: Row)

  /** A bare column is the innermost table's that has it. */
  function Column(scopes: seq<Scope>, c: Name): Value {
    if scopes == [] then Null
    else if c in scopes[0].row then scopes[0].row[c] else Column(scopes[1..], c)
  }

  /** A qualified column is the innermost table's of that name, so an inner table can hide an outer one. */
  function Qualified(scopes: seq<Scope>, name: Name, c: Name): Value {
    if scopes == [] then Null
    else if scopes[0].name == name then (if c in scopes[0].row then scopes[0].row[c] else Null)
    else Qualified(scopes[1..], name, c)
  }

  function Columns(scopes: seq<Scope>, cols: seq<Name>): seq<Value> {
    seq(|cols|, i requires 0 <= i < |cols| => Column(scopes, cols[i]))
  }

  /** Comparing row values: one difference is enough for False, else a null leaves it Unknown. */
  function Compare(a: seq<Value>, b: seq<Value>): Truth {
    if |a| != |b| then Unknown
    else if exists i :: 0 <= i < |a| && a[i].Val? && b[i].Val? && a[i] != b[i] then False
    else if exists i :: 0 <= i < |a| && (a[i].Null? || b[i].Null?) then Unknown
    else True
  }

  function AnyOf(truths: set<Truth>): Truth {
    if True in truths then True else if Unknown in truths then Unknown else False
  }

  function Eval(db: Db, scopes: seq<Scope>, c: Cond): Truth
    decreases c
  {
    match c
    case SameId(user) => Compare([Column(scopes, "id")], [Qualified(scopes, user, "id")])
    case All => True
    case Picks(cols, tcols, target, where) =>
      AnyOf(set t | t in db && t.table == target && Eval(db, [Scope(target, db[t])] + scopes, where) == True ::
              Compare(Columns(scopes, cols), Columns([Scope(target, db[t])] + scopes, tcols)))
    case Or(any) => AnyOf(set i | 0 <= i < |any| :: Eval(db, scopes, any[i]))
  }

  /** The tables a condition reads. */
  function Tables(c: Cond): set<Name> {
    match c
    case SameId(_) => {}
    case All => {}
    case Picks(_, _, target, where) => {target} + Tables(where)
    case Or(any) => set i, t | 0 <= i < |any| && t in Tables(any[i]) :: t
  }

  /** A catalog the database could hold: keys pair existing columns, and users has an id. */
  ghost predicate WellFormed(schema: Schema) {
    && "users" in schema && "id" in schema["users"].columns
    && forall name, i :: name in schema && 0 <= i < |schema[name].fks| ==> KeyFits(schema, name, schema[name].fks[i])
  }

  ghost predicate KeyFits(schema: Schema, name: Name, fk: ForeignKey)
    requires name in schema
  {
    && |fk.cols| == |fk.tcols|
    && (forall i :: 0 <= i < |fk.cols| ==> fk.cols[i] in schema[name].columns)
    && (fk.target in schema ==> forall i :: 0 <= i < |fk.tcols| ==> fk.tcols[i] in schema[fk.target].columns)
  }

  /** Every row has its table's columns, and a user's id is its primary key. */
  ghost predicate Conforms(schema: Schema, db: Db) {
    && (forall r :: r in db ==> r.table in schema && db[r].Keys == schema[r.table].columns)
    && (forall r :: r in db && r.table == "users" ==> "id" in db[r] && db[r]["id"].Val?)
    && (forall r, s :: r in db && s in db && r.table == s.table == "users" && db[r]["id"] == db[s]["id"] ==> r == s)
  }

  /** What a foreign key enforces: the row names `t` when no key column is null and all are equal. */
  ghost predicate Refers(db: Db, r: RowId, fk: ForeignKey, t: RowId) {
    && r in db && t in db && t.table == fk.target
    && Compare(Columns([Scope(r.table, db[r])], fk.cols), Columns([Scope(t.table, db[t])], fk.tcols)) == True
  }

  /** In a catalog that fits, the columns a key names are read from the row at hand, never from an outer one. */
  lemma ColumnsOfRow(scope: Scope, outer: seq<Scope>, cols: seq<Name>)
    requires forall i :: 0 <= i < |cols| ==> cols[i] in scope.row
    ensures Columns([scope] + outer, cols) == Columns([scope], cols)
  {
  }

  /** `(cols) IN (SELECT ...)` picks a row exactly when it names a picked row by that key. */
  lemma PicksWhatItNames(schema: Schema, db: Db, r: RowId, fk: ForeignKey, where: Cond, outer: seq<Scope>)
    requires Conforms(schema, db) && r in db && fk.target in schema && KeyFits(schema, r.table, fk)
    ensures Eval(db, [Scope(r.table, db[r])] + outer, Picks(fk.cols, fk.tcols, fk.target, where)) == True
       <==> exists t :: Refers(db, r, fk, t) && Eval(db, [Scope(t.table, db[t]), Scope(r.table, db[r])] + outer, where) == True
  {
    var here := [Scope(r.table, db[r])] + outer;
    ColumnsOfRow(Scope(r.table, db[r]), outer, fk.cols);
    forall t | t in db && t.table == fk.target
      ensures Columns([Scope(t.table, db[t])] + here, fk.tcols) == Columns([Scope(t.table, db[t])], fk.tcols)
      ensures [Scope(t.table, db[t])] + here == [Scope(t.table, db[t]), Scope(r.table, db[r])] + outer
    {
      ColumnsOfRow(Scope(t.table, db[t]), here, fk.tcols);
    }
  }

  lemma Nested(inner: Scope, next: Scope, outer: seq<Scope>)
    ensures [inner] + ([next] + outer) == [inner, next] + outer
  {
  }

  /** Row values are equal when every pair is, differ when some pair does, and a null leaves the rest unknown. */
  lemma ComparesAsSql(a: seq<Value>, b: seq<Value>)
    requires |a| == |b|
    ensures Compare(a, b) == True <==> forall i :: 0 <= i < |a| ==> a[i].Val? && b[i].Val? && a[i].v == b[i].v
    ensures Compare(a, b) == False <==> exists i :: 0 <= i < |a| && a[i].Val? && b[i].Val? && a[i].v != b[i].v
    ensures Compare(a, b) == Compare(b, a)
  {
  }

  /** OR and IN are true when one is, and false only when every one is. */
  lemma AnyOfAsSql(truths: set<Truth>)
    ensures AnyOf(truths) == True <==> True in truths
    ensures AnyOf(truths) == False <==> forall t :: t in truths ==> t == False
  {
  }

  /** The databases hold the same rows of these tables. */
  ghost predicate SameRows(db: Db, other: Db, tables: set<Name>) {
    forall r: RowId :: r.table in tables ==> (r in db <==> r in other) && (r in db ==> db[r] == other[r])
  }

  /** What a condition says is settled by the tables it is said to read. */
  lemma {:induction false} ReadsOnlyItsTables(db: Db, other: Db, scopes: seq<Scope>, c: Cond)
    requires SameRows(db, other, Tables(c))
    ensures Eval(db, scopes, c) == Eval(other, scopes, c)
    decreases c
  {
    match c {
      case SameId(_) =>
      case All =>
      case Picks(cols, tcols, target, where) =>
        forall t: RowId | t.table == target && t in db
          ensures t in other && Eval(db, [Scope(target, db[t])] + scopes, where) == Eval(other, [Scope(target, other[t])] + scopes, where)
        {
          assert target in Tables(c);
          ReadsOnlyItsTables(db, other, [Scope(target, db[t])] + scopes, where);
        }
        PicksAlike(db, other, scopes, cols, tcols, target, where);
      case Or(any) =>
        forall i | 0 <= i < |any|
          ensures Eval(db, scopes, any[i]) == Eval(other, scopes, any[i])
        {
          assert forall t :: t in Tables(any[i]) ==> t in Tables(c);
          ReadsOnlyItsTables(db, other, scopes, any[i]);
        }
        assert (set i | 0 <= i < |any| :: Eval(db, scopes, any[i])) == (set i | 0 <= i < |any| :: Eval(other, scopes, any[i]));
    }
  }

  lemma PicksAlike(db: Db, other: Db, scopes: seq<Scope>, cols: seq<Name>, tcols: seq<Name>, target: Name, where: Cond)
    requires forall t: RowId :: t.table == target ==> (t in db <==> t in other) && (t in db ==> db[t] == other[t])
    requires forall t: RowId :: t.table == target && t in db ==>
               Eval(db, [Scope(target, db[t])] + scopes, where) == Eval(other, [Scope(target, other[t])] + scopes, where)
    ensures Eval(db, scopes, Picks(cols, tcols, target, where)) == Eval(other, scopes, Picks(cols, tcols, target, where))
  {
    var here := set t | t in db && t.table == target && Eval(db, [Scope(target, db[t])] + scopes, where) == True ::
      Compare(Columns(scopes, cols), Columns([Scope(target, db[t])] + scopes, tcols));
    var there := set t | t in other && t.table == target && Eval(other, [Scope(target, other[t])] + scopes, where) == True ::
      Compare(Columns(scopes, cols), Columns([Scope(target, other[t])] + scopes, tcols));
    assert here == there;
  }
}
