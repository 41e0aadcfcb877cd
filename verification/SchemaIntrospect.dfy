/** Which tables a plan looks at and what it sees of them (src/schema/introspect.rs). */
module SchemaIntrospect {
  import opened Prelude
  import opened Ordering
  import opened SchemaTypes
  import opened SchemaPlan
  import opened SchemaDiff
  import opened SchemaMachine

  const MANAGED_PREFIX := "seekwel_idx_"

  predicate IsManaged(name: string) {
    MANAGED_PREFIX <= name
  }

  function Managed(indexes: seq<IndexDef>): seq<IndexDef> {
    if indexes == [] then []
    else (if IsManaged(indexes[0].name) then [indexes[0]] else []) + Managed(indexes[1..])
  }

  function Unmanaged(indexes: seq<IndexDef>): seq<IndexDef> {
    if indexes == [] then []
    else (if IsManaged(indexes[0].name) then [] else [indexes[0]]) + Unmanaged(indexes[1..])
  }

  lemma {:induction false} ManagedElements(indexes: seq<IndexDef>)
    ensures forall i :: i in Managed(indexes) <==> i in indexes && IsManaged(i.name)
    ensures forall i :: i in Unmanaged(indexes) <==> i in indexes && !IsManaged(i.name)
  {
    if indexes != [] {
      ManagedElements(indexes[1..]);
      assert indexes == [indexes[0]] + indexes[1..];
    }
  }

  ghost predicate DistinctIndexes(indexes: seq<IndexDef>) {
    forall i, j :: 0 <= i < j < |indexes| ==> indexes[i].name != indexes[j].name
  }

  lemma {:induction false} ManagedDistinct(indexes: seq<IndexDef>)
    requires DistinctIndexes(indexes)
    ensures DistinctIndexes(Managed(indexes)) && DistinctIndexes(Unmanaged(indexes))
  {
    if indexes != [] {
      ManagedDistinct(indexes[1..]);
      ManagedElements(indexes[1..]);
      forall x | x in indexes[1..] ensures x.name != indexes[0].name {
        var i :| 0 <= i < |indexes[1..]| && indexes[1..][i] == x;
        assert indexes[i + 1] == x;
      }
    }
  }

  /** `introspect_managed` for one existing table; `o` is what the PRAGMAs and
      `sqlite_schema` report besides columns and single-column indexes. */
  function Report(t: LiveTable, o: Obstacles): ActualTable {
    ActualTable(t.def.(indexes := Managed(t.def.indexes)), o, Unmanaged(t.def.indexes))
  }

  /** `introspect_managed`: the named tables that exist, in the order of the names. */
  function Introspect(db: Tables, names: seq<string>, obstacles: string -> Obstacles): seq<ActualTable> {
    if names == [] then []
    else
      (if names[0] in db then [Report(db[names[0]], obstacles(names[0]))] else [])
      + Introspect(db, names[1..], obstacles)
  }

  /** Every table is stored under its own name. */
  ghost predicate Named(db: Tables) {
    forall n :: n in db ==> db[n].def.name == n
  }

  lemma {:induction false} IntrospectFinds(db: Tables, names: seq<string>, obstacles: string -> Obstacles, n: string)
    requires Named(db)
    ensures FindActual(Introspect(db, names, obstacles), n)
         == if n in names && n in db then Some(Report(db[n], obstacles(n))) else None
  {
    if names != [] {
      IntrospectFinds(db, names[1..], obstacles, n);
      var rest := Introspect(db, names[1..], obstacles);
      if names[0] in db {
        assert ([Report(db[names[0]], obstacles(names[0]))] + rest)[1..] == rest;
      } else {
        assert [] + rest == rest;
      }
    }
  }

  /* ---------- Sets of names in order ---------- */

  ghost predicate Ascending(names: seq<string>) {
    forall i, j :: 0 <= i < j < |names| ==> Leq(names[i], names[j]) && names[i] != names[j]
  }

  function InsertName(name: string, names: seq<string>): seq<string> {
    if names == [] then [name]
    else if names[0] == name then names
    else if Leq(name, names[0]) then [name] + names
    else [names[0]] + InsertName(name, names[1..])
  }

  /** A `BTreeSet` of names, as the sequence it iterates. */
  function NameSet(names: seq<string>): seq<string> {
    if names == [] then [] else InsertName(names[0], NameSet(names[1..]))
  }

  lemma {:induction false} InsertNameElements(name: string, names: seq<string>)
    ensures forall n :: n in InsertName(name, names) <==> n == name || n in names
  {
    if names != [] {
      InsertNameElements(name, names[1..]);
      assert names == [names[0]] + names[1..];
    }
  }

  lemma {:induction false} InsertNameAscends(name: string, names: seq<string>)
    requires Ascending(names)
    ensures Ascending(InsertName(name, names))
  {
    if names != [] && names[0] != name {
      if Leq(name, names[0]) {
        forall j | 0 <= j < |names| ensures Leq(name, names[j]) && name != names[j] {
          if j > 0 {
            LeqTransitive(name, names[0], names[j]);
            if name == names[j] { LeqAntisymmetric(name, names[0]); }
          }
        }
      } else {
        LeqTotal(name, names[0]);
        InsertNameAscends(name, names[1..]);
        InsertNameElements(name, names[1..]);
        var rest := InsertName(name, names[1..]);
        forall j | 0 <= j < |rest| ensures Leq(names[0], rest[j]) && names[0] != rest[j] {
          assert rest[j] in rest;
          if rest[j] != name {
            var i :| 0 <= i < |names[1..]| && names[1..][i] == rest[j];
            assert names[i + 1] == rest[j];
          }
        }
      }
    }
  }

  lemma {:induction false} NameSetMeaning(names: seq<string>)
    ensures Ascending(NameSet(names))
    ensures forall n :: n in NameSet(names) <==> n in names
  {
    if names != [] {
      NameSetMeaning(names[1..]);
      InsertNameAscends(names[0], NameSet(names[1..]));
      InsertNameElements(names[0], NameSet(names[1..]));
      assert names == [names[0]] + names[1..];
    }
  }

  function TableNames(s: SchemaDef): seq<string> {
    seq(|s.tables|, i requires 0 <= i < |s.tables| => s.tables[i].name)
  }
}
