/** Whether a table holds company data, as the write observer decides it (mutation_observer.py). */
module Ownership {
  import opened Closure
  import opened Catalog

  /** What one table says of itself: a company column, and the tables it names by key or as its partition. */
  datatype Shape = Shape(direct: bool, refs: set<Name>)

  /** The declared models, and the tables only migrations make. A model's entry wins. */
  datatype Shapes = Shapes(models: map<Name, Shape>, made: map<Name, Shape>) {
    predicate Has(table: Name) { table in models || table in made }

    function At(table: Name): Shape
      requires Has(table)
    {
      if table in models then models[table] else made[table]
    }

    function Names(): set<Name> { models.Keys + made.Keys }
  }

  /** `_owned`: a search that never enters a table twice on one path. */
  predicate Owned(shapes: Shapes, table: Name, seen: set<Name>)
    decreases shapes.Names() - seen
  {
    if table == "companies" then true
    else if table in seen then false
    else if !shapes.Has(table) then false
    else
      assert table in shapes.Names() - seen;
      shapes.At(table).direct
      || exists ref :: ref in shapes.At(table).refs && Owned(shapes, ref, seen + {table})
  }

  /** A chain of references from its first table to company data. Tables may repeat. */
  ghost predicate Chain(shapes: Shapes, path: seq<Name>) {
    && path != []
    && Ends(shapes, path[|path| - 1])
    && (forall i :: 0 <= i < |path| - 1 ==> Names(shapes, path[i], path[i + 1]))
  }

  predicate Ends(shapes: Shapes, table: Name) {
    table == "companies" || (shapes.Has(table) && shapes.At(table).direct)
  }

  predicate Names(shapes: Shapes, table: Name, ref: Name) {
    shapes.Has(table) && ref in shapes.At(table).refs
  }

  ghost predicate Avoids(path: seq<Name>, seen: set<Name>) {
    forall i :: 0 <= i < |path| ==> path[i] !in seen
  }

  /** What the search finds is a chain that avoids the tables already on its path. */
  lemma {:induction false} FindsAChain(shapes: Shapes, table: Name, seen: set<Name>) returns (path: seq<Name>)
    requires "companies" !in seen && Owned(shapes, table, seen)
    ensures Chain(shapes, path) && path[0] == table && Avoids(path, seen)
    decreases shapes.Names() - seen
  {
    if Ends(shapes, table) {
      path := [table];
    } else {
      var ref :| ref in shapes.At(table).refs && Owned(shapes, ref, seen + {table});
      assert table in shapes.Names() - seen;
      var rest := FindsAChain(shapes, ref, seen + {table});
      path := [table] + rest;
    }
  }

  /** A chain cut at the last place it passes its own start: the rest never comes back. */
  lemma {:induction false} CutLoops(shapes: Shapes, path: seq<Name>) returns (cut: seq<Name>)
    requires Chain(shapes, path)
    ensures Chain(shapes, cut) && cut[0] == path[0] && |cut| <= |path|
    ensures forall x :: x in cut ==> x in path
    ensures cut[0] !in cut[1..]
    decreases |path|
  {
    if path[0] in path[1..] {
      var i :| 1 <= i < |path| && path[i] == path[0];
      cut := CutLoops(shapes, path[i..]);
    } else {
      cut := path;
    }
  }

  /** Any chain avoiding the path so far is found, although the search refuses to walk in circles. */
  lemma {:induction false} ChainIsFound(shapes: Shapes, path: seq<Name>, seen: set<Name>)
    requires Chain(shapes, path) && Avoids(path, seen)
    ensures Owned(shapes, path[0], seen)
    decreases |path|
  {
    if Ends(shapes, path[0]) {
      assert path[0] !in seen;
    } else {
      var cut := CutLoops(shapes, path);
      forall x | x in cut
        ensures x !in seen
      {
        var i :| 0 <= i < |path| && path[i] == x;
      }
      assert |cut| > 1 && Names(shapes, cut[0], cut[1]);
      ChainIsFound(shapes, cut[1..], seen + {cut[0]});
      assert cut[0] in shapes.Names() - seen;
    }
  }

  /** The path-limited search is exact on every graph, cyclic ones included. */
  lemma OwnedExactly(shapes: Shapes, table: Name)
    ensures Owned(shapes, table, {}) <==> exists path :: Chain(shapes, path) && path[0] == table
  {
    if Owned(shapes, table, {}) {
      var path := FindsAChain(shapes, table, {});
    }
    if path :| Chain(shapes, path) && path[0] == table {
      ChainIsFound(shapes, path, {});
    }
  }

  /** Tables already on the search's path change no answer but for tables reaching company data only through them. */
  lemma OwnedBeside(shapes: Shapes, table: Name, seen: set<Name>)
    requires "companies" !in seen
    ensures Owned(shapes, table, seen) <==> exists path :: Chain(shapes, path) && path[0] == table && Avoids(path, seen)
  {
    if Owned(shapes, table, seen) {
      var path := FindsAChain(shapes, table, seen);
    }
    if path :| Chain(shapes, path) && path[0] == table && Avoids(path, seen) {
      ChainIsFound(shapes, path, seen);
    }
  }

  /** The models read as a database catalog says the same of each table. */
  ghost predicate Describes(shapes: Shapes, schema: Schema) {
    && shapes.Names() == schema.Keys
    && (forall name :: name in schema ==>
          && (shapes.At(name).direct <==> "company_id" in schema[name].columns)
          && (forall ref :: ref in shapes.At(name).refs <==>
                (exists i :: 0 <= i < |schema[name].fks| && schema[name].fks[i].target == ref)))
  }

  lemma {:induction false} ChainIsReached(shapes: Shapes, schema: Schema, path: seq<Name>)
    requires Describes(shapes, schema) && Chain(shapes, path)
    ensures path[0] in CompanyTables(schema, false)
    decreases |path|
  {
    if !Ends(shapes, path[0]) {
      ChainIsReached(shapes, schema, path[1..]);
      assert Names(shapes, path[0], path[1]);
      var i :| 0 <= i < |schema[path[0]].fks| && schema[path[0]].fks[i].target == path[1];
      KeyReaches(schema, path[0], path[1]);
    }
  }

  /** The observer's search over the models and the delete's growing set over the catalog are one answer. */
  lemma OwnedIsACompanyTable(shapes: Shapes, schema: Schema, table: Name)
    requires Describes(shapes, schema)
    ensures Owned(shapes, table, {}) <==> table in CompanyTables(schema, false)
  {
    OwnedExactly(shapes, table);
    if Owned(shapes, table, {}) {
      var path :| Chain(shapes, path) && path[0] == table;
      ChainIsReached(shapes, schema, path);
    }
    var all := CompanyTables(schema, false);
    var owned := set t | t in all && Owned(shapes, t, {});
    var seeds := {"companies"} + (set name | name in schema && "company_id" in schema[name].columns);
    var follows := (name: Name, fk: ForeignKey) => !(false && fk.Clears());
    forall x, y | x in schema.Keys && y in owned && Edges(schema, follows)(x, y)
      ensures x in owned
    {
      OwnedExactly(shapes, y);
      var path :| Chain(shapes, path) && path[0] == y;
      assert Names(shapes, x, y);
      assert Chain(shapes, [x] + path);
      OwnedExactly(shapes, x);
    }
    forall t | t in seeds
      ensures t in owned
    {
      assert t == "companies" || shapes.Has(t);
    }
    InEveryClosed(schema.Keys, Edges(schema, follows), seeds, owned);
  }
}
