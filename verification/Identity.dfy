/** Canonical fields under join equalities, and key-based reduction of a grouping grain. */
module Identity {
  import opened Options
  import Sorting
  import opened Strings

  datatype FieldKey = FieldKey(table: string, column: string)

  type Pair = (FieldKey, FieldKey)

  // ----- the order of Python tuples of strings

  predicate KeyLe(a: FieldKey, b: FieldKey) {
    if a.table == b.table then StringLe(a.column, b.column) else StringLe(a.table, b.table)
  }

  lemma KeyOrder(a: FieldKey, b: FieldKey)
    ensures KeyLe(a, b) || KeyLe(b, a)
    ensures KeyLe(a, b) && KeyLe(b, a) ==> a == b
  {
    StringOrder(a.table, b.table);
    StringOrder(a.column, b.column);
  }

  lemma KeyTransitive(a: FieldKey, b: FieldKey, c: FieldKey)
    requires KeyLe(a, b) && KeyLe(b, c)
    ensures KeyLe(a, c)
  {
    StringOrder(a.table, b.table);
    StringOrder(b.table, c.table);
    if StringLe(a.table, b.table) && StringLe(b.table, c.table) {
      StringTransitive(a.table, b.table, c.table);
      StringOrder(a.table, c.table);
    }
    if StringLe(a.column, b.column) && StringLe(b.column, c.column) {
      StringTransitive(a.column, b.column, c.column);
    }
  }

  // ----- classes of equal fields

  /** A chain of equalities, each used in either direction. */
  ghost predicate Chain(path: seq<FieldKey>, pairs: set<Pair>) {
    path != [] && forall i | 0 <= i < |path| - 1 :: Joined(path[i], path[i + 1], pairs)
  }

  ghost predicate Joined(a: FieldKey, b: FieldKey, pairs: set<Pair>) {
    (a, b) in pairs || (b, a) in pairs
  }

  ghost predicate Linked(a: FieldKey, b: FieldKey, pairs: set<Pair>) {
    exists path :: Chain(path, pairs) && path[0] == a && path[|path| - 1] == b
  }

  lemma ChainTail(path: seq<FieldKey>, pairs: set<Pair>)
    requires Chain(path, pairs) && |path| > 1
    ensures Chain(path[1..], pairs)
  {
    var tail := path[1..];
    forall i | 0 <= i < |tail| - 1 ensures Joined(tail[i], tail[i + 1], pairs) {
      var k := i + 1;
      assert Joined(path[k], path[k + 1], pairs);
    }
  }

  lemma LinkedToItself(a: FieldKey, pairs: set<Pair>)
    ensures Linked(a, a, pairs)
  {
    assert Chain([a], pairs) && [a][0] == a;
  }

  lemma LinkedOneMore(a: FieldKey, b: FieldKey, c: FieldKey, pairs: set<Pair>)
    requires Linked(a, b, pairs) && Joined(b, c, pairs)
    ensures Linked(a, c, pairs)
  {
    var path :| Chain(path, pairs) && path[0] == a && path[|path| - 1] == b;
    var longer := path + [c];
    assert Chain(longer, pairs) && longer[0] == a && longer[|longer| - 1] == c;
  }

  lemma LinkedBack(a: FieldKey, b: FieldKey, pairs: set<Pair>)
    requires Linked(a, b, pairs)
    ensures Linked(b, a, pairs)
  {
    var path :| Chain(path, pairs) && path[0] == a && path[|path| - 1] == b;
    var back := seq(|path|, i requires 0 <= i < |path| => path[|path| - 1 - i]);
    forall i | 0 <= i < |back| - 1 ensures Joined(back[i], back[i + 1], pairs) {
      var k := |path| - 2 - i;
      assert Joined(path[k], path[k + 1], pairs);
    }
    assert Chain(back, pairs) && back[0] == b && back[|back| - 1] == a;
  }

  lemma LinkedOnward(a: FieldKey, b: FieldKey, c: FieldKey, pairs: set<Pair>)
    requires Linked(a, b, pairs) && Linked(b, c, pairs)
    ensures Linked(a, c, pairs)
  {
    var p :| Chain(p, pairs) && p[0] == a && p[|p| - 1] == b;
    var q :| Chain(q, pairs) && q[0] == b && q[|q| - 1] == c;
    var path := p + q[1..];
    forall i | 0 <= i < |path| - 1 ensures Joined(path[i], path[i + 1], pairs) {
      if i >= |p| - 1 {
        assert path[i] == q[i - (|p| - 1)] && path[i + 1] == q[i + 1 - (|p| - 1)];
      }
    }
    assert Chain(path, pairs) && path[0] == a && path[|path| - 1] == c;
  }

  /** A set closed under the equalities holds the whole class of each of its members. */
  lemma {:induction false} ClosedHoldsChains(closed: set<FieldKey>, path: seq<FieldKey>, pairs: set<Pair>)
    requires forall pair | pair in pairs :: pair.0 in closed <==> pair.1 in closed
    requires Chain(path, pairs) && path[0] in closed
    ensures path[|path| - 1] in closed
  {
    if |path| > 1 {
      assert Joined(path[0], path[1], pairs);
      assert path[1] in closed;
      ChainTail(path, pairs);
      ClosedHoldsChains(closed, path[1..], pairs);
    }
  }

  ghost predicate LeastOfClass(a: FieldKey, least: FieldKey, pairs: set<Pair>) {
    Linked(a, least, pairs) && forall b | Linked(a, b, pairs) :: KeyLe(least, b)
  }

  lemma LeastUnique(a: FieldKey, b: FieldKey, p: FieldKey, q: FieldKey, pairs: set<Pair>)
    requires Linked(a, b, pairs) && LeastOfClass(a, p, pairs) && LeastOfClass(b, q, pairs)
    ensures p == q
  {
    LinkedOnward(a, b, q, pairs);
    LinkedBack(a, b, pairs);
    LinkedOnward(b, a, p, pairs);
    KeyOrder(p, q);
  }

  /** One round of the source's loop: add both ends of every pair that touches `connected`. */
  function Expand(equalities: seq<Pair>, connected: set<FieldKey>): set<FieldKey> {
    connected
    + (set pair | pair in equalities && (pair.0 in connected || pair.1 in connected) :: pair.0)
    + (set pair | pair in equalities && (pair.0 in connected || pair.1 in connected) :: pair.1)
  }

  function Ends(equalities: seq<Pair>): set<FieldKey> {
    (set pair | pair in equalities :: pair.0) + (set pair | pair in equalities :: pair.1)
  }

  ghost function PairSet(equalities: seq<Pair>): set<Pair> {
    set pair | pair in equalities
  }

  /** `min` of a nonempty set of keys. */
  method Least(keys: set<FieldKey>) returns (least: FieldKey)
    requires keys != {}
    ensures least in keys && forall k | k in keys :: KeyLe(least, k)
  {
    least :| least in keys;
    var rest := keys - {least};
    KeyOrder(least, least);
    while rest != {}
      invariant rest <= keys && least in keys
      invariant forall k | k in keys && k !in rest :: KeyLe(least, k)
      decreases |rest|
    {
      var k :| k in rest;
      rest := rest - {k};
      KeyOrder(k, least);
      KeyOrder(k, k);
      if !KeyLe(least, k) {
        forall j | j in keys && j !in rest && j != k ensures KeyLe(k, j) {
          KeyTransitive(k, least, j);
        }
        least := k;
      }
    }
  }

  /** The canonical form of a field: the least field its class can reach. */
  method Field(equalities: seq<Pair>, field: FieldKey) returns (canonical: FieldKey)
    ensures LeastOfClass(field, canonical, PairSet(equalities))
  {
    ghost var pairs := PairSet(equalities);
    var connected := {field};
    LinkedToItself(field, pairs);
    while true
      invariant field in connected
      invariant connected <= {field} + Ends(equalities)
      invariant forall k | k in connected :: Linked(field, k, pairs)
      decreases |({field} + Ends(equalities)) - connected|
    {
      var expanded := Expand(equalities, connected);
      if expanded == connected {
        ClosedIsClass(equalities, field, connected);
        canonical := Least(connected);
        return;
      }
      ExpandedIsLinked(equalities, field, connected);
      ghost var universe := {field} + Ends(equalities);
      FewerOutside(universe, connected, expanded);
      connected := expanded;
    }
  }

  lemma FewerOutside<T>(universe: set<T>, small: set<T>, large: set<T>)
    requires small <= large <= universe && small != large
    ensures |universe - large| < |universe - small|
  {
    assert !(large <= small);
    var x :| x in large && x !in small;
    Sorting.SubsetSize(universe - large, (universe - small) - {x});
  }

  lemma ExpandedIsLinked(equalities: seq<Pair>, field: FieldKey, connected: set<FieldKey>)
    requires forall k | k in connected :: Linked(field, k, PairSet(equalities))
    requires connected <= {field} + Ends(equalities)
    ensures connected <= Expand(equalities, connected) <= {field} + Ends(equalities)
    ensures forall k | k in Expand(equalities, connected) :: Linked(field, k, PairSet(equalities))
  {
    var pairs := PairSet(equalities);
    forall k | k in Expand(equalities, connected)
      ensures Linked(field, k, pairs) && k in {field} + Ends(equalities)
    {
      if k !in connected {
        var pair: Pair :| pair in equalities && (pair.0 in connected || pair.1 in connected)
          && (k == pair.0 || k == pair.1);
        var from := if pair.0 in connected then pair.0 else pair.1;
        assert Joined(from, k, pairs) by { assert k != from && (pair.0, pair.1) in pairs; }
        LinkedOneMore(field, from, k, pairs);
      }
    }
  }

  lemma ClosedIsClass(equalities: seq<Pair>, field: FieldKey, connected: set<FieldKey>)
    requires field in connected && Expand(equalities, connected) == connected
    ensures forall k | Linked(field, k, PairSet(equalities)) :: k in connected
  {
    var pairs := PairSet(equalities);
    forall pair | pair in pairs ensures pair.0 in connected <==> pair.1 in connected {
      assert pair.0 in connected ==> pair.1 in Expand(equalities, connected);
      assert pair.1 in connected ==> pair.0 in Expand(equalities, connected);
    }
    forall k | Linked(field, k, pairs) ensures k in connected {
      var path :| Chain(path, pairs) && path[0] == field && path[|path| - 1] == k;
      ClosedHoldsChains(connected, path, pairs);
    }
  }

  // ----- the canonical form as a function

  lemma {:induction false} LeastExists(keys: set<FieldKey>) returns (least: FieldKey)
    requires keys != {}
    ensures least in keys && forall k | k in keys :: KeyLe(least, k)
  {
    var k :| k in keys;
    KeyOrder(k, k);
    if keys == {k} {
      least := k;
    } else {
      assert keys - {k} != {};
      var other := LeastExists(keys - {k});
      KeyOrder(k, other);
      if KeyLe(other, k) {
        least := other;
      } else {
        least := k;
        forall j | j in keys && j != k ensures KeyLe(k, j) {
          KeyTransitive(k, other, j);
        }
      }
    }
  }

  lemma CanonicalExists(equalities: seq<Pair>, field: FieldKey)
    ensures exists c :: LeastOfClass(field, c, PairSet(equalities))
  {
    var pairs := PairSet(equalities);
    var universe := {field} + Ends(equalities);
    forall b | Linked(field, b, pairs) ensures b in universe {
      var path :| Chain(path, pairs) && path[0] == field && path[|path| - 1] == b;
      if |path| > 1 {
        assert Joined(path[|path| - 2], path[|path| - 2 + 1], pairs);
      }
    }
    LinkedToItself(field, pairs);
    var members := set k | k in universe && Linked(field, k, pairs);
    assert field in members;
    var c := LeastExists(members);
    assert LeastOfClass(field, c, pairs);
  }

  ghost function Canonical(equalities: seq<Pair>, field: FieldKey): (c: FieldKey)
    ensures LeastOfClass(field, c, PairSet(equalities))
  {
    CanonicalExists(equalities, field);
    var c :| LeastOfClass(field, c, PairSet(equalities));
    c
  }

  /** Two fields have one canonical form exactly when a chain of equalities links them. */
  lemma CanonicalIffLinked(equalities: seq<Pair>, a: FieldKey, b: FieldKey)
    ensures Canonical(equalities, a) == Canonical(equalities, b) <==> Linked(a, b, PairSet(equalities))
    ensures Canonical(equalities, Canonical(equalities, a)) == Canonical(equalities, a)
  {
    var pairs := PairSet(equalities);
    var p, q := Canonical(equalities, a), Canonical(equalities, b);
    if p == q {
      LinkedBack(b, q, pairs);
      LinkedOnward(a, p, b, pairs);
    }
    if Linked(a, b, pairs) {
      LeastUnique(a, b, p, q, pairs);
    }
    LeastUnique(a, p, p, Canonical(equalities, p), pairs);
  }

  /** Neither the order nor the repetition of the equalities matters. */
  lemma CanonicalForgetsOrder(equalities: seq<Pair>, shuffled: seq<Pair>, field: FieldKey)
    requires forall pair :: pair in equalities <==> pair in shuffled
    ensures Canonical(equalities, field) == Canonical(shuffled, field)
  {
    assert PairSet(equalities) == PairSet(shuffled);
    LinkedToItself(field, PairSet(equalities));
    LeastUnique(field, field, Canonical(equalities, field), Canonical(shuffled, field), PairSet(equalities));
  }

  // ----- grain reduction

  /** The metadata `grain` consults: primary-key columns and the other unique constraints, with nullability. */
  datatype Table = Table(primaryKey: seq<string>, uniques: seq<seq<string>>, nullable: set<string>)

  type Schema = map<string, Table>

  /** A single non-null key column of the table is among the fields. */
  predicate KeyedBy(table: Table, columns: set<string>) {
    exists key | key in [table.primaryKey] + table.uniques :: |key| == 1 && key[0] !in table.nullable
      && key[0] in columns
  }

  function ColumnsOf(fields: set<FieldKey>, table: string): set<string> {
    set f | f in fields && f.table == table :: f.column
  }

  predicate Reducible(schema: Schema, fields: set<FieldKey>, table: string) {
    && table in schema && |schema[table].primaryKey| == 1
    && KeyedBy(schema[table], ColumnsOf(fields, table))
  }

  function ReduceTable(schema: Schema, fields: set<FieldKey>, table: string): set<FieldKey> {
    if Reducible(schema, fields, table)
    then (set f | f in fields && f.table != table) + {FieldKey(table, schema[table].primaryKey[0])}
    else fields
  }

  /** What `grain` returns, with no order of tables in it: each field stays or its table collapses. */
  ghost function GrainOf(schema: Schema, equalities: seq<Pair>, fields: set<FieldKey>): set<FieldKey> {
    Collapse(schema, set f | f in fields :: Canonical(equalities, f))
  }

  ghost function Collapse(schema: Schema, fields: set<FieldKey>): set<FieldKey> {
    (set f | f in fields && !Reducible(schema, fields, f.table))
    + (set f | f in fields && Reducible(schema, fields, f.table) :: FieldKey(f.table, schema[f.table].primaryKey[0]))
  }

  /** Reducing the tables one by one, in any order that visits each once, gives the collapse. */
  lemma {:induction false} ReduceInOrder(schema: Schema, fields: set<FieldKey>, tables: seq<string>, n: nat,
                                         current: set<FieldKey>)
    requires n <= |tables| && Sorting.Distinct(tables)
    requires current == Partly(schema, fields, tables[..n])
    ensures n < |tables| ==> ReduceTable(schema, current, tables[n]) == Partly(schema, fields, tables[..n + 1])
  {
    if n < |tables| {
      var table := tables[n];
      assert table !in tables[..n];
      assert tables[..n + 1] == tables[..n] + [table];
      assert ColumnsOf(current, table) == ColumnsOf(fields, table) by {
        forall f | f in fields && f.table == table ensures f in current {
        }
        forall f | f in current && f.table == table ensures f in fields {
        }
      }
      assert Reducible(schema, current, table) == Reducible(schema, fields, table);
    }
  }

  /** The fields after the tables of `done` have been visited. */
  ghost function Partly(schema: Schema, fields: set<FieldKey>, done: seq<string>): set<FieldKey> {
    (set f | f in fields && !(f.table in done && Reducible(schema, fields, f.table)))
    + (set f | f in fields && f.table in done && Reducible(schema, fields, f.table) ::
         FieldKey(f.table, schema[f.table].primaryKey[0]))
  }

  /** Each table name once, in some order. */
  method TableNames(fields: set<FieldKey>) returns (tables: seq<string>)
    ensures Sorting.Distinct(tables)
    ensures forall f | f in fields :: f.table in tables
  {
    tables := [];
    var rest := fields;
    while rest != {}
      invariant rest <= fields && Sorting.Distinct(tables)
      invariant forall f | f in fields && f !in rest :: f.table in tables
      decreases |rest|
    {
      var f :| f in rest;
      rest := rest - {f};
      if f.table !in tables {
        tables := tables + [f.table];
      }
    }
  }

  method CanonicalFields(equalities: seq<Pair>, fields: set<FieldKey>) returns (canonical: set<FieldKey>)
    ensures canonical == set f | f in fields :: Canonical(equalities, f)
  {
    canonical := {};
    var rest := fields;
    while rest != {}
      invariant rest <= fields
      invariant canonical == set f | f in fields - rest :: Canonical(equalities, f)
      decreases |rest|
    {
      var f :| f in rest;
      var c := Field(equalities, f);
      LinkedToItself(f, PairSet(equalities));
      LeastUnique(f, f, c, Canonical(equalities, f), PairSet(equalities));
      assert fields - (rest - {f}) == (fields - rest) + {f};
      rest := rest - {f};
      canonical := canonical + {c};
    }
  }

  method Grain(schema: Schema, equalities: seq<Pair>, fields: set<FieldKey>) returns (grain: set<FieldKey>)
    ensures grain == GrainOf(schema, equalities, fields)
  {
    var canonical := CanonicalFields(equalities, fields);
    var names := TableNames(canonical);
    var tables := Sorting.Sort(StringLe, names);
    Sorting.DistinctPermutation(names, tables);
    Sorting.SameElements(names, tables);
    grain := canonical;
    NoneVisited(schema, canonical, tables);
    for n := 0 to |tables|
      invariant grain == Partly(schema, canonical, tables[..n])
    {
      ReduceInOrder(schema, canonical, tables, n, grain);
      grain := ReduceTable(schema, grain, tables[n]);
    }
    assert tables[..|tables|] == tables;
    AllVisited(schema, canonical, tables);
  }

  lemma NoneVisited(schema: Schema, fields: set<FieldKey>, tables: seq<string>)
    ensures Partly(schema, fields, tables[..0]) == fields
  {
    assert tables[..0] == [];
  }

  lemma AllVisited(schema: Schema, fields: set<FieldKey>, tables: seq<string>)
    requires forall f | f in fields :: f.table in tables
    ensures Partly(schema, fields, tables) == Collapse(schema, fields)
  {
  }

  // ----- what the reduction does

  ghost function CanonicalSet(equalities: seq<Pair>, fields: set<FieldKey>): set<FieldKey> {
    set f | f in fields :: Canonical(equalities, f)
  }

  /** The column is a key of the table on its own: its primary key or a unique constraint, and never null. */
  ghost predicate IsKey(table: Table, column: string) {
    table.primaryKey == [column] || (column !in table.nullable && [column] in table.uniques)
  }

  ghost predicate HasKey(schema: Schema, fields: set<FieldKey>, table: string) {
    table in schema
    && exists column :: IsKey(schema[table], column) && column !in schema[table].nullable
                        && FieldKey(table, column) in fields
  }

  /** A table with a single primary-key column collapses to that column exactly when one of its keys is among the
      fields; of every other table all fields stay. */
  lemma GrainReduces(schema: Schema, equalities: seq<Pair>, fields: set<FieldKey>, table: string)
    ensures var canonical := CanonicalSet(equalities, fields);
            var grain := GrainOf(schema, equalities, fields);
            var collapses := table in schema && |schema[table].primaryKey| == 1 && HasKey(schema, canonical, table);
            && (collapses ==> forall column ::
                  FieldKey(table, column) in grain <==> column == schema[table].primaryKey[0])
            && (!collapses ==> forall column ::
                  FieldKey(table, column) in grain <==> FieldKey(table, column) in canonical)
  {
    var canonical := CanonicalSet(equalities, fields);
    ReducibleExactly(schema, canonical, table);
    CollapsedFields(schema, canonical, table);
  }

  lemma ReducibleExactly(schema: Schema, fields: set<FieldKey>, table: string)
    ensures Reducible(schema, fields, table) <==>
            table in schema && |schema[table].primaryKey| == 1 && HasKey(schema, fields, table)
  {
    if table in schema && |schema[table].primaryKey| == 1 {
      var t := schema[table];
      var keys := [t.primaryKey] + t.uniques;
      if Reducible(schema, fields, table) {
        var key :| key in keys && |key| == 1 && key[0] !in t.nullable && key[0] in ColumnsOf(fields, table);
        assert key == [key[0]];
        assert IsKey(t, key[0]) && FieldKey(table, key[0]) in fields;
      }
      if HasKey(schema, fields, table) {
        var column :| IsKey(t, column) && column !in t.nullable && FieldKey(table, column) in fields;
        assert FieldKey(table, column).column in ColumnsOf(fields, table);
        assert keys[0] == t.primaryKey;
        assert [column] in keys && [column][0] == column;
      }
    }
  }

  lemma CollapsedFields(schema: Schema, fields: set<FieldKey>, table: string)
    ensures Reducible(schema, fields, table) ==> forall column ::
              FieldKey(table, column) in Collapse(schema, fields) <==> column == schema[table].primaryKey[0]
    ensures !Reducible(schema, fields, table) ==> forall column ::
              FieldKey(table, column) in Collapse(schema, fields) <==> FieldKey(table, column) in fields
  {
    if Reducible(schema, fields, table) {
      var f: FieldKey :| f in fields && f.table == table;
      assert FieldKey(f.table, schema[f.table].primaryKey[0]) in Collapse(schema, fields);
    }
  }

  /** Grouping by any of a table's keys gives one grain, whatever other fields of that table go with it. */
  lemma AnyKeyGivesOneGrain(schema: Schema, equalities: seq<Pair>, these: set<FieldKey>, those: set<FieldKey>,
                            table: string)
    requires table in schema && |schema[table].primaryKey| == 1
    requires HasKey(schema, CanonicalSet(equalities, these), table)
    requires HasKey(schema, CanonicalSet(equalities, those), table)
    requires forall f: FieldKey | f.table != table ::
               f in CanonicalSet(equalities, these) <==> f in CanonicalSet(equalities, those)
    ensures GrainOf(schema, equalities, these) == GrainOf(schema, equalities, those)
  {
    forall f: FieldKey
      ensures f in GrainOf(schema, equalities, these) <==> f in GrainOf(schema, equalities, those)
    {
      GrainReduces(schema, equalities, these, f.table);
      GrainReduces(schema, equalities, those, f.table);
      if f.table != table && f.table in schema {
        SameKeys(schema, CanonicalSet(equalities, these), CanonicalSet(equalities, those), f.table);
      }
      assert f == FieldKey(f.table, f.column);
    }
  }

  lemma SameKeys(schema: Schema, these: set<FieldKey>, those: set<FieldKey>, table: string)
    requires forall column :: FieldKey(table, column) in these <==> FieldKey(table, column) in those
    ensures HasKey(schema, these, table) == HasKey(schema, those, table)
  {
  }

  // ----- what a grain means

  datatype Value = Null | Known(v: int)

  type Row = map<string, Value>

  /** A row of a join: for each table one of its rows, or nothing where an outer join found none. */
  type JoinedRow = map<string, Option<Row>>

  type Database = map<string, set<Row>>

  ghost function RowOf(joined: JoinedRow, table: string): Option<Row> {
    if table in joined then joined[table] else None
  }

  ghost function ValueOf(joined: JoinedRow, f: FieldKey): Value {
    var row := RowOf(joined, f.table);
    if row.Some? && f.column in row.value then row.value[f.column] else Null
  }

  /** The database enforces its primary keys and its unique constraints over non-null columns. */
  ghost predicate KeysEnforced(schema: Schema, db: Database) {
    forall table, column | table in schema && table in db && IsKey(schema[table], column) ::
      && (forall r | r in db[table] :: column in r && r[column] != Null)
      && (forall r, s | r in db[table] && s in db[table] && column in r && column in s &&
                        r[column] == s[column] :: r == s)
  }

  ghost predicate FromDatabase(db: Database, joined: JoinedRow) {
    forall table | table in joined && joined[table].Some? :: table in db && joined[table].value in db[table]
  }

  ghost predicate EqualitiesHold(equalities: seq<Pair>, joined: JoinedRow) {
    forall pair | pair in equalities :: ValueOf(joined, pair.0) == ValueOf(joined, pair.1)
  }

  /** Whether GROUP BY over the fields puts both rows in one group. */
  ghost predicate Agree(a: JoinedRow, b: JoinedRow, fields: set<FieldKey>) {
    forall f | f in fields :: ValueOf(a, f) == ValueOf(b, f)
  }

  lemma {:induction false} ChainedValues(joined: JoinedRow, equalities: seq<Pair>, path: seq<FieldKey>)
    requires EqualitiesHold(equalities, joined) && Chain(path, PairSet(equalities))
    ensures ValueOf(joined, path[0]) == ValueOf(joined, path[|path| - 1])
  {
    if |path| > 1 {
      assert Joined(path[0], path[1], PairSet(equalities));
      ChainTail(path, PairSet(equalities));
      ChainedValues(joined, equalities, path[1..]);
    }
  }

  lemma CanonicalValue(joined: JoinedRow, equalities: seq<Pair>, f: FieldKey)
    requires EqualitiesHold(equalities, joined)
    ensures ValueOf(joined, Canonical(equalities, f)) == ValueOf(joined, f)
  {
    var c := Canonical(equalities, f);
    var path :| Chain(path, PairSet(equalities)) && path[0] == f && path[|path| - 1] == c;
    ChainedValues(joined, equalities, path);
  }

  /** Agreement on one enforced key of a table means both rows hold the same row of it. */
  lemma KeyDecidesRow(schema: Schema, db: Database, a: JoinedRow, b: JoinedRow, table: string, column: string)
    requires KeysEnforced(schema, db) && FromDatabase(db, a) && FromDatabase(db, b)
    requires table in schema && IsKey(schema[table], column)
    ensures ValueOf(a, FieldKey(table, column)) == ValueOf(b, FieldKey(table, column)) <==>
            RowOf(a, table) == RowOf(b, table)
  {
  }

  lemma CollapseAgrees(schema: Schema, db: Database, a: JoinedRow, b: JoinedRow, fields: set<FieldKey>)
    requires KeysEnforced(schema, db) && FromDatabase(db, a) && FromDatabase(db, b)
    ensures Agree(a, b, fields) <==> Agree(a, b, Collapse(schema, fields))
  {
    var collapsed := Collapse(schema, fields);
    forall f | f in fields && Reducible(schema, fields, f.table)
      ensures Agree(a, b, fields) ==> RowOf(a, f.table) == RowOf(b, f.table)
      ensures Agree(a, b, collapsed) ==> RowOf(a, f.table) == RowOf(b, f.table)
    {
      var table := schema[f.table];
      var key :| key in [table.primaryKey] + table.uniques
                 && |key| == 1 && key[0] !in table.nullable && key[0] in ColumnsOf(fields, f.table);
      assert key == [key[0]];
      assert IsKey(table, key[0]) && FieldKey(f.table, key[0]) in fields;
      KeyDecidesRow(schema, db, a, b, f.table, key[0]);
      var pk := table.primaryKey[0];
      assert table.primaryKey == [pk];
      assert FieldKey(f.table, pk) in collapsed;
      KeyDecidesRow(schema, db, a, b, f.table, pk);
    }
    if Agree(a, b, fields) {
      forall g | g in collapsed ensures ValueOf(a, g) == ValueOf(b, g) {
        if !(g in fields && !Reducible(schema, fields, g.table)) {
          var f :| f in fields && Reducible(schema, fields, f.table)
            && g == FieldKey(f.table, schema[f.table].primaryKey[0]);
        }
      }
    }
    if Agree(a, b, collapsed) {
      forall f | f in fields ensures ValueOf(a, f) == ValueOf(b, f) {
        if !Reducible(schema, fields, f.table) {
          assert f in collapsed;
        }
      }
    }
  }

  /** Rows of a join agree on the fields exactly when they agree on the grain. */
  lemma GrainMeaning(schema: Schema, equalities: seq<Pair>, db: Database, a: JoinedRow, b: JoinedRow,
                     fields: set<FieldKey>)
    requires KeysEnforced(schema, db)
    requires FromDatabase(db, a) && EqualitiesHold(equalities, a)
    requires FromDatabase(db, b) && EqualitiesHold(equalities, b)
    ensures Agree(a, b, fields) <==> Agree(a, b, GrainOf(schema, equalities, fields))
  {
    var canonical := set f | f in fields :: Canonical(equalities, f);
    forall f ensures ValueOf(a, Canonical(equalities, f)) == ValueOf(a, f)
      ensures ValueOf(b, Canonical(equalities, f)) == ValueOf(b, f)
    {
      CanonicalValue(a, equalities, f);
      CanonicalValue(b, equalities, f);
    }
    if Agree(a, b, canonical) {
      forall f | f in fields ensures ValueOf(a, f) == ValueOf(b, f) {
        assert Canonical(equalities, f) in canonical;
      }
    }
    CollapseAgrees(schema, db, a, b, canonical);
  }

  /** Groupings with one grain are one partition of every legal set of rows. */
  lemma EqualGrainsGroupAlike(schema: Schema, equalities: seq<Pair>, db: Database, a: JoinedRow, b: JoinedRow,
                              these: set<FieldKey>, those: set<FieldKey>)
    requires KeysEnforced(schema, db)
    requires FromDatabase(db, a) && EqualitiesHold(equalities, a)
    requires FromDatabase(db, b) && EqualitiesHold(equalities, b)
    requires GrainOf(schema, equalities, these) == GrainOf(schema, equalities, those)
    ensures Agree(a, b, these) <==> Agree(a, b, those)
  {
    GrainMeaning(schema, equalities, db, a, b, these);
    GrainMeaning(schema, equalities, db, a, b, those);
  }
}
