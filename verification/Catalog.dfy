/** The catalog's tables and keys, and the table sets a delete reads (celerp/db_catalog.py). */
module Catalog {
  import opened Closure

  type Name = string

  datatype OnDelete = NoAction | Restrict | Cascade | SetNull | SetDefault

  datatype ForeignKey = ForeignKey(cols: seq<Name>, target: Name, tcols: seq<Name>, onDelete: OnDelete) {
    predicate Cascades() { onDelete.Cascade? }

    /** The row outlives the one it names. */
    predicate Clears() { onDelete.SetNull? || onDelete.SetDefault? }
  }

  datatype Table = Table(columns: set<Name>, fks: seq<ForeignKey>)

  type Schema = map<Name, Table>

  type Follows = (Name, ForeignKey) -> bool

  /** Whether `name` holds a key `follows` naming `target`. */
  predicate Follow(schema: Schema, follows: Follows, name: Name, target: Name) {
    name in schema
    && (exists i :: 0 <= i < |schema[name].fks|
          && schema[name].fks[i].target == target && follows(name, schema[name].fks[i]))
  }

  ghost function Edges(schema: Schema, follows: Follows): Relation<Name> {
    (name, target) => Follow(schema, follows, name, target)
  }

  ghost function Reached(schema: Schema, tables: set<Name>, follows: Follows): set<Name> {
    Least(schema.Keys, Edges(schema, follows), tables)
  }

  /** `reach`: the loop that grows the set finds exactly the least closed set. */
  method Reach(schema: Schema, tables: set<Name>, follows: Follows) returns (reached: set<Name>)
    ensures reached == Reached(schema, tables, follows)
  {
    reached := tables;
    var grown := Step(schema, reached, follows);
    while grown != {}
      invariant grown == Step(schema, reached, follows)
      invariant Reached(schema, reached, follows) == Reached(schema, tables, follows)
      decreases schema.Keys - reached
    {
      OpenGrows(schema.Keys, Edges(schema, follows), reached);
      reached := reached + grown;
      grown := Step(schema, reached, follows);
    }
    OpenGrows(schema.Keys, Edges(schema, follows), reached);
  }

  function Step(schema: Schema, reached: set<Name>, follows: Follows): (grown: set<Name>)
    ensures grown == Grown(schema.Keys, Edges(schema, follows), reached)
  {
    set name | name in schema && name !in reached
      && (exists i :: 0 <= i < |schema[name].fks|
            && schema[name].fks[i].target in reached && follows(name, schema[name].fks[i]))
  }

  /** `company_tables`: the tables whose rows name a company. */
  ghost function CompanyTables(schema: Schema, held: bool): set<Name> {
    Reached(schema, {"companies"} + (set name | name in schema && "company_id" in schema[name].columns),
            (name: Name, fk: ForeignKey) => !(held && fk.Clears()))
  }

  /** `_user_cascade`: users, and the tables outside any company their deletion goes into. */
  ghost function UserCascade(schema: Schema): set<Name> {
    var company := CompanyTables(schema, false);
    Reached(schema, {"users"}, (name: Name, fk: ForeignKey) => fk.Cascades() && name !in company && fk.target !in company)
  }

  /** `keyed`: the tables a discard reads or deletes rows of. */
  ghost function Keyed(schema: Schema): set<Name> {
    var cascade := UserCascade(schema);
    CompanyTables(schema, false) + cascade
    + (set name | name in schema && exists i :: 0 <= i < |schema[name].fks| && schema[name].fks[i].target in cascade)
  }

  /** The tables that say themselves whose rows they hold. */
  predicate SaysSo(schema: Schema, name: Name) {
    name == "companies" || (name in schema && "company_id" in schema[name].columns)
  }

  /** One key of `name` names `target`; where rows are `held`, one that does not clear on delete. */
  predicate HeldBy(schema: Schema, held: bool, name: Name, target: Name) {
    name in schema && exists i :: 0 <= i < |schema[name].fks|
                               && schema[name].fks[i].target == target && !(held && schema[name].fks[i].Clears())
  }

  ghost predicate KeyChain(schema: Schema, held: bool, path: seq<Name>) {
    && path != [] && SaysSo(schema, path[|path| - 1])
    && forall i :: 0 <= i < |path| - 1 ==> HeldBy(schema, held, path[i], path[i + 1])
  }

  lemma HeldReaches(schema: Schema, held: bool, name: Name, target: Name)
    requires target in CompanyTables(schema, held) && HeldBy(schema, held, name, target)
    ensures name in CompanyTables(schema, held)
  {
    var follows := (name: Name, fk: ForeignKey) => !(held && fk.Clears());
    var seeds := {"companies"} + (set name | name in schema && "company_id" in schema[name].columns);
    assert Follow(schema, follows, name, target);
    assert Edges(schema, follows)(name, target);
    assert Closed(schema.Keys, Edges(schema, follows), Least(schema.Keys, Edges(schema, follows), seeds));
  }

  /** A table with any key naming a company table is one. */
  lemma KeyReaches(schema: Schema, name: Name, target: Name)
    requires target in CompanyTables(schema, false)
    requires name in schema && exists i :: 0 <= i < |schema[name].fks| && schema[name].fks[i].target == target
    ensures name in CompanyTables(schema, false)
  {
    HeldReaches(schema, false, name, target);
  }

  lemma {:induction false} ChainReaches(schema: Schema, held: bool, path: seq<Name>)
    requires KeyChain(schema, held, path)
    ensures path[0] in CompanyTables(schema, held)
    decreases |path|
  {
    if |path| > 1 {
      ChainReaches(schema, held, path[1..]);
      HeldReaches(schema, held, path[0], path[1]);
    }
  }

  ghost predicate Chained(schema: Schema, held: bool, name: Name) {
    exists path :: KeyChain(schema, held, path) && path[0] == name
  }

  lemma ChainGoesOn(schema: Schema, held: bool, name: Name, target: Name)
    requires HeldBy(schema, held, name, target) && Chained(schema, held, target)
    ensures Chained(schema, held, name)
  {
    var path :| KeyChain(schema, held, path) && path[0] == target;
    assert KeyChain(schema, held, [name] + path) && ([name] + path)[0] == name;
  }

  lemma ChainOfOne(schema: Schema, held: bool, name: Name)
    requires SaysSo(schema, name)
    ensures Chained(schema, held, name)
  {
    assert KeyChain(schema, held, [name]);
  }

  /** The company tables are those some chain of keys leads from to a table that says so itself: for `held`, of keys that do not clear. */
  lemma CompanyTablesExactly(schema: Schema, held: bool, name: Name)
    ensures name in CompanyTables(schema, held) <==> exists path :: KeyChain(schema, held, path) && path[0] == name
  {
    if path :| KeyChain(schema, held, path) && path[0] == name {
      ChainReaches(schema, held, path);
    }
    var all := CompanyTables(schema, held);
    var follows := (name: Name, fk: ForeignKey) => !(held && fk.Clears());
    var seeds := {"companies"} + (set name | name in schema && "company_id" in schema[name].columns);
    var chained := set t | t in all && Chained(schema, held, t);
    forall t | t in seeds
      ensures t in chained
    {
      ChainOfOne(schema, held, t);
    }
    forall x, y | x in schema.Keys && y in chained && Edges(schema, follows)(x, y)
      ensures x in chained
    {
      ChainGoesOn(schema, held, x, y);
    }
    InEveryClosed(schema.Keys, Edges(schema, follows), seeds, chained);
  }
}
