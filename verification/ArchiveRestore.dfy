/** Capture and restore: the archive's script on an empty database, and the archive captured again. */
module ArchiveRestore {
  import opened Options
  import opened SqlArchive
  import opened Ordering

  datatype Kind = Index | Table | Trigger | View

  /** A schema object as the catalogue lists it. */
  datatype Object = Object(kind: Kind, name: string, table: string, sql: string)

  /** The catalogue in creation order, and each table's rows in storage order. */
  datatype Database = Database(objects: seq<Object>, rows: map<string, seq<Row>>)

  datatype Archive = Archive(objects: seq<Object>, rows: map<string, seq<string>>)

  /** The production schema: its objects, and each table's visible columns. */
  datatype Contract = Contract(objects: set<Object>, columns: map<string, seq<string>>)

  const PROVIDER_TABLE: string := "_cf_KV"
  const MIGRATIONS_TABLE: string := "d1_migrations"

  // ---------- Capture ----------

  function Joined(columns: seq<string>): string {
    if columns == [] then [] else if |columns| == 1 then columns[0] else columns[0] + "," + Joined(columns[1..])
  }

  function Prefix(table: string, columns: seq<string>): string {
    "INSERT INTO " + table + "(" + Joined(columns) + ") VALUES("
  }

  function Rank(k: Kind): nat { match k case Index => 0 case Table => 1 case Trigger => 2 case View => 3 }

  /** The catalogue query's order: by type, then name. */
  predicate CatalogueLeq(a: Object, b: Object) {
    Rank(a.kind) < Rank(b.kind) || (a.kind == b.kind && TextLeq(a.name, b.name))
  }

  function Printed(prefix: string, rows: seq<Row>): seq<string>
    requires forall i :: 0 <= i < |rows| ==> rows[i] != []
  {
    if rows == [] then [] else [Statement(prefix, rows[0])] + Printed(prefix, rows[1..])
  }

  function Keep(objects: seq<Object>): seq<Object> {
    if objects == [] then []
    else (if objects[0].table == PROVIDER_TABLE then [] else [objects[0]]) + Keep(objects[1..])
  }

  /** The object map of the domain objects, under the layout normalisation. */
  function ObjectMap(normalized: string -> string, objects: seq<Object>): set<(Kind, string, string, string)> {
    set o | o in objects && o.table != MIGRATIONS_TABLE :: (o.kind, o.name, o.table, normalized(o.sql))
  }

  function ContractMap(normalized: string -> string, c: Contract): set<(Kind, string, string, string)> {
    set o | o in c.objects :: (o.kind, o.name, o.table, normalized(o.sql))
  }

  predicate HasMigrations(objects: seq<Object>) {
    exists i :: 0 <= i < |objects| && objects[i].kind == Table && objects[i].name == MIGRATIONS_TABLE
  }

  /** The tables an archive holds. */
  function Captured(c: Contract, objects: seq<Object>): set<string> {
    set t | t in c.columns && (t != MIGRATIONS_TABLE || HasMigrations(objects))
  }

  predicate TablesPresent(c: Contract, db: Database) {
    forall t :: t in Captured(c, Keep(db.objects)) ==> t in db.rows && forall i :: 0 <= i < |db.rows[t]| ==> StorableRow(db.rows[t][i])
  }

  /** The archive of a database whose writers are stopped; nothing when its schema drifted. */
  function Capture(normalized: string -> string, c: Contract, db: Database): Option<Archive>
    requires TablesPresent(c, db)
  {
    var objects := Sort(CatalogueLeq, Keep(db.objects));
    if ObjectMap(normalized, objects) != ContractMap(normalized, c) then None
    else Some(Archive(objects, map t | t in Captured(c, Keep(db.objects)) :: Sort(TextLeq, Printed(Prefix(t, c.columns[t]), db.rows[t]))))
  }

  /** The capture loop: one table's lines after another, whatever the order of the tables. */
  method CaptureTables(c: Contract, db: Database, tables: seq<string>) returns (rows: map<string, seq<string>>)
    requires TablesPresent(c, db) && forall t :: t in tables ==> t in c.columns && t in Captured(c, Keep(db.objects))
    ensures rows == map t | t in tables :: Sort(TextLeq, Printed(Prefix(t, c.columns[t]), db.rows[t]))
  {
    hide Sort, Printed, Prefix, TextLeq, Captured, Storable;
    rows := map[];
    var i := 0;
    while i < |tables|
      invariant 0 <= i <= |tables|
      invariant rows.Keys == set t | t in tables[..i]
      invariant forall t :: t in rows ==>
                  t in tables && t in c.columns && rows[t] == Sort(TextLeq, Printed(Prefix(t, c.columns[t]), db.rows[t]))
    {
      var t := tables[i];
      assert t in tables;
      rows := rows[t := Sort(TextLeq, Printed(Prefix(t, c.columns[t]), db.rows[t]))];
      assert tables[..i + 1] == tables[..i] + [t];
      i := i + 1;
    }
    assert tables[..i] == tables;
  }

  // ---------- The script ----------

  datatype Command = DeferForeignKeys | Create(object: Object) | InsertText(table: string, text: string)

  function OfKind(objects: seq<Object>, k: Kind): seq<Object> {
    if objects == [] then [] else (if objects[0].kind == k then [objects[0]] else []) + OfKind(objects[1..], k)
  }

  function Creations(objects: seq<Object>): seq<Command> {
    if objects == [] then [] else [Create(objects[0])] + Creations(objects[1..])
  }

  function Loads(table: string, lines: seq<string>): seq<Command> {
    if lines == [] then [] else [InsertText(table, lines[0])] + Loads(table, lines[1..])
  }

  function Inserts(a: Archive, order: seq<string>): seq<Command>
    requires forall t :: t in order ==> t in a.rows
  {
    if order == [] then [] else Loads(order[0], a.rows[order[0]]) + Inserts(a, order[1..])
  }

  /** Tables, indexes, views; then every table's rows; then triggers. */
  function Script(a: Archive, order: seq<string>): seq<Command>
    requires forall t :: t in order ==> t in a.rows
  {
    [DeferForeignKeys]
    + (Creations(OfKind(a.objects, Table)) + Creations(OfKind(a.objects, Index)) + Creations(OfKind(a.objects, View)))
    + Inserts(a, order)
    + Creations(OfKind(a.objects, Trigger))
  }

  // ---------- Execution ----------

  predicate NameTaken(db: Database, o: Object) {
    exists i :: 0 <= i < |db.objects| && db.objects[i].kind == o.kind && db.objects[i].name == o.name
  }

  /** Whatever a trigger does to the database when a row arrives. */
  type Firing = (Object, Row, Database) -> Database

  function Fire(fire: Firing, triggers: seq<Object>, row: Row, db: Database): Database {
    if triggers == [] then db else Fire(fire, triggers[1..], row, fire(triggers[0], row, db))
  }

  function On(objects: seq<Object>, table: string): seq<Object> {
    if objects == [] then []
    else (if objects[0].kind == Trigger && objects[0].table == table then [objects[0]] else []) + On(objects[1..], table)
  }

  /** One command; an insertion is read from its text, and fires the triggers its table has by then. */
  function Execute(fire: Firing, columns: map<string, seq<string>>, db: Database, command: Command): Option<Database> {
    match command
    case DeferForeignKeys => Some(db)
    case Create(o) =>
      if NameTaken(db, o) then None
      else Some(Database(db.objects + [o], if o.kind == Table then db.rows[o.name := []] else db.rows))
    case InsertText(t, text) =>
      if t !in columns || t !in db.rows then None
      else
        match ReadStatement(Prefix(t, columns[t]), text)
        case None => None
        case Some(read) =>
          if read.rest != [] then None
          else Some(Fire(fire, On(db.objects, t), read.value, Database(db.objects, db.rows[t := db.rows[t] + [read.value]])))
  }

  function Run(fire: Firing, columns: map<string, seq<string>>, db: Database, commands: seq<Command>): Option<Database>
    decreases |commands|
  {
    if commands == [] then Some(db)
    else
      match Execute(fire, columns, db, commands[0])
      case None => None
      case Some(next) => Run(fire, columns, next, commands[1..])
  }

  lemma {:induction false} RunInTurn(fire: Firing, columns: map<string, seq<string>>, db: Database, a: seq<Command>, b: seq<Command>)
    ensures Run(fire, columns, db, a + b)
            == (match Run(fire, columns, db, a) case None => None case Some(mid) => Run(fire, columns, mid, b))
    decreases |a|
  {
    hide Execute;
    if a == [] {
      assert a + b == b;
    } else {
      assert (a + b)[1..] == a[1..] + b;
      match Execute(fire, columns, db, a[0])
      case None =>
      case Some(next) => RunInTurn(fire, columns, next, a[1..], b);
    }
  }

  // ---------- Creating ----------

  predicate DistinctNames(objects: seq<Object>) {
    forall i, j :: 0 <= i < j < |objects| ==> objects[i].kind != objects[j].kind || objects[i].name != objects[j].name
  }

  function NewTables(objects: seq<Object>, rows: map<string, seq<Row>>): map<string, seq<Row>> {
    if objects == [] then rows
    else NewTables(objects[1..], if objects[0].kind == Table then rows[objects[0].name := []] else rows)
  }

  lemma {:induction false} CreatesAll(fire: Firing, columns: map<string, seq<string>>, db: Database, objects: seq<Object>)
    requires DistinctNames(db.objects + objects)
    ensures Run(fire, columns, db, Creations(objects)) == Some(Database(db.objects + objects, NewTables(objects, db.rows)))
    decreases |objects|
  {
    if objects == [] {
      assert db.objects + objects == db.objects;
    } else {
      var o := objects[0];
      var all := db.objects + objects;
      assert !NameTaken(db, o) by {
        forall i | 0 <= i < |db.objects| ensures db.objects[i].kind != o.kind || db.objects[i].name != o.name {
          assert all[i] == db.objects[i] && all[|db.objects|] == o;
        }
      }
      var next := Database(db.objects + [o], if o.kind == Table then db.rows[o.name := []] else db.rows);
      assert next.objects + objects[1..] == all;
      assert Creations(objects)[1..] == Creations(objects[1..]);
      CreatesAll(fire, columns, next, objects[1..]);
    }
  }

  predicate HasTable(objects: seq<Object>, t: string) {
    exists i :: 0 <= i < |objects| && objects[i].kind == Table && objects[i].name == t
  }

  lemma HasTableSplit(objects: seq<Object>, t: string)
    requires objects != []
    ensures HasTable(objects, t) <==> (objects[0].kind == Table && objects[0].name == t) || HasTable(objects[1..], t)
  {
    if HasTable(objects, t) {
      var i :| 0 <= i < |objects| && objects[i].kind == Table && objects[i].name == t;
      if i > 0 { assert objects[1..][i - 1].kind == Table; }
    }
    if HasTable(objects[1..], t) {
      var i :| 0 <= i < |objects| - 1 && objects[1..][i].kind == Table && objects[1..][i].name == t;
      assert objects[i + 1].kind == Table;
    }
  }

  lemma {:induction false} NewTablesAre(objects: seq<Object>, rows: map<string, seq<Row>>)
    ensures forall t :: t in NewTables(objects, rows) <==> t in rows || HasTable(objects, t)
    ensures (forall t :: t in rows ==> rows[t] == []) ==> forall t :: t in NewTables(objects, rows) ==> NewTables(objects, rows)[t] == []
    ensures (forall i :: 0 <= i < |objects| ==> objects[i].kind != Table) ==> NewTables(objects, rows) == rows
  {
    if objects != [] {
      var o := objects[0];
      NewTablesAre(objects[1..], if o.kind == Table then rows[o.name := []] else rows);
      forall t ensures HasTable(objects, t) <==> (o.kind == Table && o.name == t) || HasTable(objects[1..], t) {
        HasTableSplit(objects, t);
      }
    }
  }

  // ---------- Loading ----------

  predicate NoTriggers(objects: seq<Object>) { forall i :: 0 <= i < |objects| ==> objects[i].kind != Trigger }

  lemma {:induction false} NothingFires(objects: seq<Object>, table: string)
    requires NoTriggers(objects)
    ensures On(objects, table) == []
  {
    if objects != [] { NothingFires(objects[1..], table); }
  }

  /** Loading one table's lines, with no trigger in place: exactly the rows they were printed from. */
  lemma {:induction false} LoadsRows(fire: Firing, columns: map<string, seq<string>>, db: Database, t: string, rows: seq<Row>)
    requires t in columns && t in db.rows && NoTriggers(db.objects)
    requires forall i :: 0 <= i < |rows| ==> StorableRow(rows[i]) && rows[i] != []
    ensures Run(fire, columns, db, Loads(t, Printed(Prefix(t, columns[t]), rows)))
            == Some(Database(db.objects, db.rows[t := db.rows[t] + rows]))
    decreases |rows|
  {
    hide Statement, ReadStatement, Storable, Prefix;
    if rows == [] {
      assert db.rows[t] + rows == db.rows[t];
      assert db.rows[t := db.rows[t]] == db.rows;
    } else {
      var prefix, lines := Prefix(t, columns[t]), Printed(Prefix(t, columns[t]), rows);
      var next := Database(db.objects, db.rows[t := db.rows[t] + [rows[0]]]);
      RowReads(prefix, rows[0]);
      NothingFires(db.objects, t);
      assert lines[1..] == Printed(prefix, rows[1..]);
      assert Loads(t, lines)[1..] == Loads(t, lines[1..]);
      LoadsRows(fire, columns, next, t, rows[1..]);
      assert db.rows[t] + [rows[0]] + rows[1..] == db.rows[t] + rows;
      assert next.rows[t := next.rows[t] + rows[1..]] == db.rows[t := db.rows[t] + rows];
    }
  }

  lemma RowReads(prefix: string, row: Row)
    requires StorableRow(row)
    ensures ReadStatement(prefix, Statement(prefix, row)) == Some(Read.Read(row, []))
  {
    StatementRoundTrip(prefix, row, []);
    assert Statement(prefix, row) + [] == Statement(prefix, row);
  }

  // ---------- Reading an archive's lines ----------

  function RowOf(prefix: string, line: string): Row {
    match ReadStatement(prefix, line) case None => [] case Some(read) => read.value
  }

  function ReadBack(prefix: string, lines: seq<string>): seq<Row> {
    if lines == [] then [] else [RowOf(prefix, lines[0])] + ReadBack(prefix, lines[1..])
  }

  predicate StorableRows(rows: seq<Row>) { forall i :: 0 <= i < |rows| ==> StorableRow(rows[i]) && rows[i] != [] }

  lemma {:induction false} PrintedReadsBack(prefix: string, rows: seq<Row>)
    requires StorableRows(rows)
    ensures ReadBack(prefix, Printed(prefix, rows)) == rows
  {
    hide Statement, ReadStatement, Storable;
    if rows != [] {
      RowReads(prefix, rows[0]);
      PrintedReadsBack(prefix, rows[1..]);
      assert Printed(prefix, rows)[1..] == Printed(prefix, rows[1..]);
    }
  }

  /** A line printed from some storable row. */
  ghost predicate IsPrinted(prefix: string, line: string) {
    exists row :: StorableRow(row) && row != [] && line == Statement(prefix, row)
  }

  lemma {:induction false} PrintedLines(prefix: string, rows: seq<Row>)
    requires StorableRows(rows)
    ensures forall line :: line in Printed(prefix, rows) ==> IsPrinted(prefix, line)
  {
    hide Statement, Storable;
    if rows != [] { PrintedLines(prefix, rows[1..]); }
  }

  lemma {:induction false} ReadBackPrints(prefix: string, lines: seq<string>)
    requires forall line :: line in lines ==> IsPrinted(prefix, line)
    ensures StorableRows(ReadBack(prefix, lines)) && Printed(prefix, ReadBack(prefix, lines)) == lines
  {
    hide Statement, ReadStatement, Storable;
    if lines != [] {
      assert lines[0] in lines;
      var row :| StorableRow(row) && row != [] && lines[0] == Statement(prefix, row);
      RowReads(prefix, row);
      ReadBackPrints(prefix, lines[1..]);
      var rows := ReadBack(prefix, lines);
      assert rows[1..] == ReadBack(prefix, lines[1..]);
      assert lines == [lines[0]] + lines[1..];
    }
  }

  lemma {:induction false} ReadBackSplits(prefix: string, a: seq<string>, b: seq<string>)
    ensures ReadBack(prefix, a + b) == ReadBack(prefix, a) + ReadBack(prefix, b)
  {
    hide RowOf;
    if a == [] { assert a + b == b; } else {
      assert (a + b)[1..] == a[1..] + b;
      ReadBackSplits(prefix, a[1..], b);
    }
  }

  /** Rearranging lines rearranges the rows they read back as. */
  lemma {:induction false} ReadBackKeepsMultiset(prefix: string, a: seq<string>, b: seq<string>)
    requires multiset(a) == multiset(b)
    ensures multiset(ReadBack(prefix, a)) == multiset(ReadBack(prefix, b))
    decreases |a|
  {
    hide RowOf;
    if a == [] {
      assert b == [] by { if b != [] { HeadAndTail(b); } }
    } else {
      HeadAndTail(a);
      var i :| 0 <= i < |b| && b[i] == a[0];
      var front, back := b[..i], b[i + 1..];
      assert b == front + ([b[i]] + back);
      assert multiset(front + back) == multiset(b) - multiset{b[i]};
      ReadBackSplits(prefix, front, [b[i]] + back);
      ReadBackSplits(prefix, [b[i]], back);
      ReadBackSplits(prefix, front, back);
      ReadBackKeepsMultiset(prefix, a[1..], front + back);
      assert ReadBack(prefix, [b[i]]) == [RowOf(prefix, b[i])];
    }
  }

  /** The lines captured for one table read back as the same rows, and print as the same lines. */
  lemma CapturedTable(prefix: string, rows: seq<Row>)
    requires StorableRows(rows)
    ensures var lines := Sort(TextLeq, Printed(prefix, rows));
            var restored := ReadBack(prefix, lines);
            && StorableRows(restored) && Printed(prefix, restored) == lines
            && multiset(restored) == multiset(rows)
            && Sort(TextLeq, Printed(prefix, restored)) == lines
  {
    hide Statement, ReadStatement, Storable, Sort, ReadBack, Printed, TextLeq;
    var printed := Printed(prefix, rows);
    var lines := Sort(TextLeq, printed);
    TextOrder();
    SortSorts(TextLeq, printed);
    PrintedLines(prefix, rows);
    forall line | line in lines ensures IsPrinted(prefix, line) {
      assert line in multiset(lines) && line in multiset(printed);
    }
    ReadBackPrints(prefix, lines);
    ReadBackKeepsMultiset(prefix, lines, printed);
    PrintedReadsBack(prefix, rows);
    SortedTextStays(lines);
  }

  // ---------- Loading every table ----------

  function Loaded(a: Archive, columns: map<string, seq<string>>, rows: map<string, seq<Row>>, order: seq<string>): map<string, seq<Row>>
    requires forall t :: t in order ==> t in a.rows && t in columns
    decreases |order|
  {
    if order == [] then rows
    else Loaded(a, columns, rows[order[0] := ReadBack(Prefix(order[0], columns[order[0]]), a.rows[order[0]])], order[1..])
  }

  lemma {:induction false} LoadedIs(a: Archive, columns: map<string, seq<string>>, rows: map<string, seq<Row>>, order: seq<string>)
    requires forall t :: t in order ==> t in a.rows && t in columns
    ensures forall t :: t in order ==>
              t in Loaded(a, columns, rows, order)
              && Loaded(a, columns, rows, order)[t] == ReadBack(Prefix(t, columns[t]), a.rows[t])
    ensures forall t :: t !in order ==>
              (t in Loaded(a, columns, rows, order) <==> t in rows)
              && (t in rows ==> Loaded(a, columns, rows, order)[t] == rows[t])
    decreases |order|
  {
    hide ReadBack, Prefix;
    if order != [] {
      assert forall t :: t in order <==> t == order[0] || t in order[1..];
      LoadedIs(a, columns, rows[order[0] := ReadBack(Prefix(order[0], columns[order[0]]), a.rows[order[0]])], order[1..]);
    }
  }

  predicate NoRepeats(order: seq<string>) { forall i, j :: 0 <= i < j < |order| ==> order[i] != order[j] }

  /** Every line of every table in the order was printed by a capture. */
  ghost predicate PrintedArchive(a: Archive, columns: map<string, seq<string>>, order: seq<string>) {
    forall t :: t in order ==>
      t in a.rows && t in columns && forall line :: line in a.rows[t] ==> IsPrinted(Prefix(t, columns[t]), line)
  }

  lemma {:induction false} InsertsLoad(fire: Firing, columns: map<string, seq<string>>, db: Database, a: Archive, order: seq<string>)
    requires PrintedArchive(a, columns, order) && NoRepeats(order) && NoTriggers(db.objects)
    requires forall t :: t in order ==> t in db.rows && db.rows[t] == []
    ensures Run(fire, columns, db, Inserts(a, order)) == Some(Database(db.objects, Loaded(a, columns, db.rows, order)))
    decreases |order|
  {
    hide ReadBack, Prefix, Execute, Loads, IsPrinted, Printed, NoTriggers;
    if order != [] {
      var t, prefix := order[0], Prefix(order[0], columns[order[0]]);
      var rows := ReadBack(prefix, a.rows[t]);
      assert t in order;
      ReadBackPrints(prefix, a.rows[t]);
      LoadsRows(fire, columns, db, t, rows);
      assert db.rows[t] + rows == rows;
      var next := Database(db.objects, db.rows[t := rows]);
      RunInTurn(fire, columns, db, Loads(t, a.rows[t]), Inserts(a, order[1..]));
      assert forall u :: u in order[1..] ==> u in order && u != t;
      InsertsLoad(fire, columns, next, a, order[1..]);
    }
  }

  // ---------- Schema order ----------

  lemma {:induction false} OfKindIs(objects: seq<Object>, k: Kind)
    ensures forall o :: o in OfKind(objects, k) <==> o in objects && o.kind == k
    ensures DistinctNames(objects) ==> DistinctNames(OfKind(objects, k))
  {
    if objects != [] {
      var rest := objects[1..];
      OfKindIs(rest, k);
      assert forall o :: o in objects <==> o == objects[0] || o in rest;
      if DistinctNames(objects) {
        forall i | 0 <= i < |OfKind(rest, k)| ensures objects[0].kind != OfKind(rest, k)[i].kind || objects[0].name != OfKind(rest, k)[i].name {
          var o := OfKind(rest, k)[i];
          assert o in rest;
        }
      }
    }
  }

  lemma DistinctTogether(a: seq<Object>, b: seq<Object>)
    requires DistinctNames(a) && DistinctNames(b)
    requires forall x, y :: x in a && y in b ==> x.kind != y.kind
    ensures DistinctNames(a + b)
  {
  }

  lemma OfKindHead(objects: seq<Object>, k: Kind)
    requires objects != []
    ensures multiset(OfKind(objects, k))
            == (if objects[0].kind == k then multiset{objects[0]} else multiset{}) + multiset(OfKind(objects[1..], k))
  {
  }

  lemma {:induction false} KindsPartition(objects: seq<Object>)
    ensures multiset(OfKind(objects, Table)) + multiset(OfKind(objects, Index)) + multiset(OfKind(objects, View))
            + multiset(OfKind(objects, Trigger)) == multiset(objects)
  {
    if objects != [] {
      KindsPartition(objects[1..]);
      HeadAndTail(objects);
      OfKindHead(objects, Table);
      OfKindHead(objects, Index);
      OfKindHead(objects, View);
      OfKindHead(objects, Trigger);
      hide OfKind;
    }
  }

  /** Storage objects in the script's order. */
  function Ddl(objects: seq<Object>): seq<Object> {
    OfKind(objects, Table) + OfKind(objects, Index) + OfKind(objects, View)
  }

  lemma DdlIs(objects: seq<Object>)
    requires DistinctNames(objects)
    ensures forall o :: o in Ddl(objects) <==> o in objects && o.kind != Trigger
    ensures NoTriggers(Ddl(objects))
    ensures DistinctNames(Ddl(objects)) && DistinctNames(Ddl(objects) + OfKind(objects, Trigger))
  {
    hide OfKind, DistinctNames;
    OfKindIs(objects, Table);
    OfKindIs(objects, Index);
    OfKindIs(objects, View);
    OfKindIs(objects, Trigger);
    DistinctTogether(OfKind(objects, Table), OfKind(objects, Index));
    DistinctTogether(OfKind(objects, Table) + OfKind(objects, Index), OfKind(objects, View));
    DistinctTogether(Ddl(objects), OfKind(objects, Trigger));
    forall i | 0 <= i < |Ddl(objects)| ensures Ddl(objects)[i].kind != Trigger { assert Ddl(objects)[i] in Ddl(objects); }
  }

  lemma {:induction false} CreationsJoin(a: seq<Object>, b: seq<Object>)
    ensures Creations(a + b) == Creations(a) + Creations(b)
  {
    if a == [] { assert a + b == b; } else {
      assert (a + b)[1..] == a[1..] + b;
      CreationsJoin(a[1..], b);
    }
  }

  lemma CatalogueOrder()
    ensures Total(CatalogueLeq)
  {
    TextOrder();
    forall x, y, z | CatalogueLeq(x, y) && CatalogueLeq(y, z) ensures CatalogueLeq(x, z) {}
  }

  lemma CatalogueSeparates(objects: seq<Object>)
    requires DistinctNames(objects)
    ensures Separates(CatalogueLeq, set o | o in objects)
  {
    hide TextLeq;
    TextOrder();
    forall x, y | x in objects && y in objects && CatalogueLeq(x, y) && CatalogueLeq(y, x) ensures x == y {
      var i :| 0 <= i < |objects| && objects[i] == x;
      var j :| 0 <= j < |objects| && objects[j] == y;
    }
  }

  /** Listing the catalogue again gives the captured listing, however the objects were created. */
  lemma CatalogueIsCanonical(listed: seq<Object>, created: seq<Object>)
    requires Sorted(CatalogueLeq, listed) && DistinctNames(listed) && multiset(created) == multiset(listed)
    ensures Sort(CatalogueLeq, created) == listed
  {
    hide Sort, CatalogueLeq, DistinctNames, Sorted, Separates;
    CatalogueOrder();
    SortSorts(CatalogueLeq, created);
    CatalogueSeparates(listed);
    forall x | x in multiset(listed) ensures x in set o | o in listed {}
    SortedIsUnique(CatalogueLeq, listed, Sort(CatalogueLeq, created), set o | o in listed);
  }

  lemma {:induction false} KeepIs(objects: seq<Object>)
    ensures forall o :: o in Keep(objects) <==> o in objects && o.table != PROVIDER_TABLE
    ensures (forall o :: o in objects ==> o.table != PROVIDER_TABLE) ==> Keep(objects) == objects
  {
    if objects != [] {
      var rest := objects[1..];
      KeepIs(rest);
      assert forall o :: o in objects <==> o == objects[0] || o in rest;
      assert objects == [objects[0]] + rest;
    }
  }

  predicate Apart(o: Object, objects: seq<Object>) { forall p :: p in objects ==> p.kind != o.kind || p.name != o.name }

  lemma DistinctHead(objects: seq<Object>)
    requires objects != []
    ensures DistinctNames(objects) <==> Apart(objects[0], objects[1..]) && DistinctNames(objects[1..])
  {
    var rest := objects[1..];
    if DistinctNames(objects) {
      forall p | p in rest ensures p.kind != objects[0].kind || p.name != objects[0].name {
        var i :| 0 <= i < |rest| && rest[i] == p;
        assert objects[i + 1] == p;
      }
    }
    if Apart(objects[0], rest) && DistinctNames(rest) {
      forall i, j | 0 <= i < j < |objects| ensures objects[i].kind != objects[j].kind || objects[i].name != objects[j].name {
        assert objects[j] == rest[j - 1];
        if i > 0 { assert objects[i] == rest[i - 1]; }
      }
    }
  }

  lemma {:induction false} KeepDistinct(objects: seq<Object>)
    requires DistinctNames(objects)
    ensures DistinctNames(Keep(objects))
  {
    hide DistinctNames;
    if objects != [] {
      var kept := Keep(objects);
      DistinctHead(objects);
      KeepDistinct(objects[1..]);
      KeepIs(objects[1..]);
      if objects[0].table != PROVIDER_TABLE {
        assert kept[0] == objects[0] && kept[1..] == Keep(objects[1..]);
        DistinctHead(kept);
      } else {
        assert kept == Keep(objects[1..]);
      }
    } else {
      assert DistinctNames([]) by { NothingIsDistinct(); }
    }
  }

  lemma NothingIsDistinct()
    ensures DistinctNames([])
  {
  }

  lemma {:induction false} InsertDistinct(o: Object, objects: seq<Object>)
    requires DistinctNames(objects) && Apart(o, objects)
    ensures DistinctNames(Insert(CatalogueLeq, o, objects))
  {
    hide DistinctNames, CatalogueLeq;
    var r := Insert(CatalogueLeq, o, objects);
    if objects == [] || CatalogueLeq(o, objects[0]) {
      assert r == [o] + objects && r[1..] == objects;
    } else {
      var more := Insert(CatalogueLeq, o, objects[1..]);
      DistinctHead(objects);
      assert objects == [objects[0]] + objects[1..];
      InsertDistinct(o, objects[1..]);
      InsertKeeps(CatalogueLeq, o, objects[1..]);
      forall p | p in more ensures p == o || p in objects[1..] { assert p in multiset(more); }
      assert r[1..] == more;
    }
    DistinctHead(r);
  }

  lemma {:induction false} SortDistinct(objects: seq<Object>)
    requires DistinctNames(objects)
    ensures DistinctNames(Sort(CatalogueLeq, objects))
  {
    hide DistinctNames, CatalogueLeq;
    if objects != [] {
      DistinctHead(objects);
      SortDistinct(objects[1..]);
      var sorted := Sort(CatalogueLeq, objects[1..]);
      CatalogueOrder();
      SortSorts(CatalogueLeq, objects[1..]);
      forall p | p in sorted ensures p in objects[1..] { assert p in multiset(sorted); }
      InsertDistinct(objects[0], sorted);
    }
  }

  // ---------- The main result ----------

  /** The contract names each captured table's object. */
  ghost predicate ValidContract(c: Contract) {
    forall t :: t in c.columns && t != MIGRATIONS_TABLE ==> exists o :: o in c.objects && o.kind == Table && o.name == t
  }

  const EMPTY: Database := Database([], map[])

  /** The restored database, spelled out. */
  function Restored(a: Archive, columns: map<string, seq<string>>, order: seq<string>): Database
    requires forall t :: t in order ==> t in a.rows && t in columns
  {
    Database(Ddl(a.objects) + OfKind(a.objects, Trigger), Loaded(a, columns, NewTables(Ddl(a.objects), map[]), order))
  }

  /** The script runs to the end and gives exactly that database, whatever the triggers would do. */
  lemma ScriptRestores(fire: Firing, columns: map<string, seq<string>>, a: Archive, order: seq<string>)
    requires DistinctNames(a.objects) && PrintedArchive(a, columns, order) && NoRepeats(order)
    requires forall t :: t in order ==> HasTable(a.objects, t)
    ensures Run(fire, columns, EMPTY, Script(a, order)) == Some(Restored(a, columns, order))
  {
    hide Inserts, Creations, OfKind, NewTables, Loaded, IsPrinted, Execute, DistinctNames, HasTable;
    var ddl, triggers := Ddl(a.objects), OfKind(a.objects, Trigger);
    DdlIs(a.objects);
    CreationsJoin(OfKind(a.objects, Table), OfKind(a.objects, Index));
    CreationsJoin(OfKind(a.objects, Table) + OfKind(a.objects, Index), OfKind(a.objects, View));
    var loads := Inserts(a, order);
    assert Script(a, order) == [DeferForeignKeys] + (Creations(ddl) + (loads + Creations(triggers)));
    DeferralChangesNothing(fire, columns, EMPTY);
    RunInTurn(fire, columns, EMPTY, [DeferForeignKeys], Creations(ddl) + (loads + Creations(triggers)));
    RunInTurn(fire, columns, EMPTY, Creations(ddl), loads + Creations(triggers));
    assert EMPTY.objects + ddl == ddl;
    CreatesAll(fire, columns, EMPTY, ddl);
    var created := Database(ddl, NewTables(ddl, map[]));
    NewTablesAre(ddl, map[]);
    forall t | t in order ensures t in created.rows && created.rows[t] == [] { DdlHasTables(a.objects, t); }
    RunInTurn(fire, columns, created, loads, Creations(triggers));
    InsertsLoad(fire, columns, created, a, order);
    var loaded := Database(ddl, Loaded(a, columns, created.rows, order));
    CreatesAll(fire, columns, loaded, triggers);
    OfKindIs(a.objects, Trigger);
    NewTablesAre(triggers, loaded.rows);
    forall i | 0 <= i < |triggers| ensures triggers[i].kind != Table { assert triggers[i] in triggers; }
  }

  lemma DeferralChangesNothing(fire: Firing, columns: map<string, seq<string>>, db: Database)
    ensures Run(fire, columns, db, [DeferForeignKeys]) == Some(db)
  {
    assert [DeferForeignKeys][1..] == [];
    assert Run(fire, columns, db, []) == Some(db);
  }

  lemma DdlHasTables(objects: seq<Object>, t: string)
    requires HasTable(objects, t)
    ensures HasTable(Ddl(objects), t)
  {
    var i :| 0 <= i < |objects| && objects[i].kind == Table && objects[i].name == t;
    OfKindIs(objects, Table);
    assert objects[i] in Ddl(objects);
    var j :| 0 <= j < |Ddl(objects)| && Ddl(objects)[j] == objects[i];
  }

  /** What a successful capture establishes. */
  lemma CaptureFacts(normalized: string -> string, c: Contract, db: Database)
    requires TablesPresent(c, db) && DistinctNames(db.objects) && ValidContract(c) && Capture(normalized, c, db).Some?
    ensures var a := Capture(normalized, c, db).value;
            && DistinctNames(a.objects) && Sorted(CatalogueLeq, a.objects)
            && (forall o :: o in a.objects ==> o.table != PROVIDER_TABLE)
            && a.rows.Keys == Captured(c, a.objects)
            && (forall t :: t in a.rows ==> HasTable(a.objects, t))
            && (forall t :: t in a.rows ==>
                  t in db.rows && t in c.columns && StorableRows(db.rows[t])
                  && a.rows[t] == Sort(TextLeq, Printed(Prefix(t, c.columns[t]), db.rows[t])))
  {
    hide Sort, CatalogueLeq, TextLeq, Prefix, Printed, Storable, Sorted, DistinctNames, Keep;
    var kept := Keep(db.objects);
    var a := Capture(normalized, c, db).value;
    KeepIs(db.objects);
    KeepDistinct(db.objects);
    CatalogueOrder();
    SortSorts(CatalogueLeq, kept);
    SortDistinct(kept);
    forall o ensures o in a.objects <==> o in kept { assert o in multiset(a.objects) <==> o in multiset(kept); }
    SameMigrations(kept, a.objects);
    forall t | t in a.rows ensures HasTable(a.objects, t) {
      if t == MIGRATIONS_TABLE { assert HasMigrations(a.objects); } else { ContractTablePresent(normalized, c, a.objects, t); }
    }
  }

  lemma SameMigrations(a: seq<Object>, b: seq<Object>)
    requires forall o :: o in a <==> o in b
    ensures HasMigrations(a) <==> HasMigrations(b)
  {
    if HasMigrations(a) {
      var i :| 0 <= i < |a| && a[i].kind == Table && a[i].name == MIGRATIONS_TABLE;
      assert a[i] in b;
    }
    if HasMigrations(b) {
      var i :| 0 <= i < |b| && b[i].kind == Table && b[i].name == MIGRATIONS_TABLE;
      assert b[i] in a;
    }
  }

  lemma ContractTablePresent(normalized: string -> string, c: Contract, objects: seq<Object>, t: string)
    requires ValidContract(c) && t in c.columns && t != MIGRATIONS_TABLE
    requires ObjectMap(normalized, objects) == ContractMap(normalized, c)
    ensures HasTable(objects, t)
  {
    var o :| o in c.objects && o.kind == Table && o.name == t;
    assert (o.kind, o.name, o.table, normalized(o.sql)) in ContractMap(normalized, c);
    assert (o.kind, o.name, o.table, normalized(o.sql)) in ObjectMap(normalized, objects);
    var p :| p in objects && p.table != MIGRATIONS_TABLE
             && (p.kind, p.name, p.table, normalized(p.sql)) == (o.kind, o.name, o.table, normalized(o.sql));
  }

  /** Running an archive's script on an empty database and capturing again gives the same archive, and every
      captured table holds the same rows as the source, whatever any trigger would do when fired and in
      whatever order the tables are loaded. */
  lemma RestoreIsExact(fire: Firing, normalized: string -> string, c: Contract, db: Database, order: seq<string>)
    requires TablesPresent(c, db) && DistinctNames(db.objects) && ValidContract(c) && Capture(normalized, c, db).Some?
    requires NoRepeats(order) && forall t :: t in order <==> t in Capture(normalized, c, db).value.rows
    ensures var a := Capture(normalized, c, db).value;
            var restored := Run(fire, c.columns, EMPTY, Script(a, order));
            && restored.Some? && TablesPresent(c, restored.value)
            && Capture(normalized, c, restored.value) == Some(a)
            && (forall t :: t in a.rows ==> t in restored.value.rows && multiset(restored.value.rows[t]) == multiset(db.rows[t]))
            && multiset(restored.value.objects) == multiset(a.objects)
  {
    hide Script, Run, Sort, CatalogueLeq, TextLeq, Prefix, Printed, Storable, Sorted, DistinctNames, HasTable, Keep,
         ObjectMap, ContractMap, OfKind, Loaded, ReadBack, Captured;
    CaptureFacts(normalized, c, db);
    var a := Capture(normalized, c, db).value;
    forall t | t in a.rows
      ensures forall line :: line in a.rows[t] ==> IsPrinted(Prefix(t, c.columns[t]), line)
    {
      CapturedLinesPrinted(Prefix(t, c.columns[t]), db.rows[t]);
    }
    ScriptRestores(fire, c.columns, a, order);
    var r := Restored(a, c.columns, order);
    LoadedIs(a, c.columns, NewTables(Ddl(a.objects), map[]), order);
    KindsPartition(a.objects);
    forall o | o in r.objects ensures o.table != PROVIDER_TABLE { assert o in multiset(a.objects); }
    KeepIs(r.objects);
    CatalogueIsCanonical(a.objects, r.objects);
    forall t | t in a.rows
      ensures t in r.rows && StorableRows(r.rows[t]) && multiset(r.rows[t]) == multiset(db.rows[t])
              && Sort(TextLeq, Printed(Prefix(t, c.columns[t]), r.rows[t])) == a.rows[t]
    {
      CapturedTable(Prefix(t, c.columns[t]), db.rows[t]);
    }
    forall o ensures o in r.objects <==> o in a.objects { assert o in multiset(r.objects) <==> o in multiset(a.objects); }
    SameCaptured(c, a.objects, r.objects);
    assert Captured(c, Keep(r.objects)) == a.rows.Keys;
    CaptureOfRestored(normalized, c, a, db, r);
  }

  lemma SameCaptured(c: Contract, a: seq<Object>, b: seq<Object>)
    requires forall o :: o in a <==> o in b
    ensures Captured(c, a) == Captured(c, b)
  {
    SameMigrations(a, b);
  }

  lemma CapturedLinesPrinted(prefix: string, rows: seq<Row>)
    requires StorableRows(rows)
    ensures forall line :: line in Sort(TextLeq, Printed(prefix, rows)) ==> IsPrinted(prefix, line)
  {
    hide Printed, TextLeq, IsPrinted;
    TextOrder();
    SortSorts(TextLeq, Printed(prefix, rows));
    PrintedLines(prefix, rows);
    forall line | line in Sort(TextLeq, Printed(prefix, rows)) ensures IsPrinted(prefix, line) {
      assert line in multiset(Printed(prefix, rows));
    }
  }

  lemma CaptureOfRestored(normalized: string -> string, c: Contract, a: Archive, db: Database, r: Database)
    requires TablesPresent(c, db) && Capture(normalized, c, db) == Some(a)
    requires Sort(CatalogueLeq, Keep(r.objects)) == a.objects && Captured(c, Keep(r.objects)) == a.rows.Keys
    requires forall t :: t in a.rows ==>
               t in c.columns && t in r.rows && StorableRows(r.rows[t])
               && Sort(TextLeq, Printed(Prefix(t, c.columns[t]), r.rows[t])) == a.rows[t]
    ensures TablesPresent(c, r) && Capture(normalized, c, r) == Some(a)
  {
    hide Sort, CatalogueLeq, TextLeq, Prefix, Printed, Storable, Keep, Captured, ObjectMap, ContractMap;
    assert Capture(normalized, c, r).value.rows == a.rows;
  }
}
