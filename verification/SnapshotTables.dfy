/** Capturing tables into canonical snapshots, and the validator's checks on them. */
module SnapshotTables {
  import opened Options
  import opened SqlArchive
  import opened Ordering
  import opened Snapshot

  const MAX_ROWS: nat := 10_000
  const MAX_TABLES: nat := 128
  const MAX_BYTES: nat := 4 * 1024 * 1024
  const GATES: string := "flickr_write_gates"

  type EncodedRow = seq<Encoded>

  /** A row with its hidden rowid, where the table has one. */
  datatype SourceRow = SourceRow(cells: seq<Cell>, rowid: Option<int>)

  /** A table as it is enumerated, in whatever order. */
  datatype SourceTable = SourceTable(columns: seq<string>, hasRowid: bool, rows: seq<SourceRow>)

  datatype TableSnapshot = TableSnapshot(columns: seq<string>, rows: seq<EncodedRow>, rowids: Option<seq<int>>)

  predicate StorableCell(canonicalReal: string -> bool, c: Cell) {
    match c
    case IntegerCell(i) => -0x8000_0000_0000_0000 <= i < 0x8000_0000_0000_0000
    case RealCell(hex) => canonicalReal(hex)
    case BlobCell(b) => Octets(b)
    case _ => true
  }

  /** What SQLite guarantees of a table, with distinct nonempty column names. */
  ghost predicate WellFormed(canonicalReal: string -> bool, t: SourceTable) {
    && 0 < |t.columns|
    && (forall i :: 0 <= i < |t.columns| ==> t.columns[i] != [])
    && (forall i, j :: 0 <= i < j < |t.columns| ==> t.columns[i] != t.columns[j])
    && GoodRows(canonicalReal, t.rows, |t.columns|, t.hasRowid)
    && (t.hasRowid ==> forall i, j :: 0 <= i < j < |t.rows| ==> t.rows[i].rowid != t.rows[j].rowid)
  }

  predicate GoodRow(canonicalReal: string -> bool, row: SourceRow, width: nat, hasRowid: bool) {
    && |row.cells| == width > 0
    && (forall k :: 0 <= k < width ==> StorableCell(canonicalReal, row.cells[k]))
    && row.rowid.Some? == hasRowid
    && (hasRowid ==> -0x8000_0000_0000_0000 <= row.rowid.value < 0x8000_0000_0000_0000)
  }

  predicate GoodRows(canonicalReal: string -> bool, rows: seq<SourceRow>, width: nat, hasRowid: bool) {
    forall i :: 0 <= i < |rows| ==> GoodRow(canonicalReal, rows[i], width, hasRowid)
  }

  // ---------- Canonical order ----------

  datatype Line = Line(row: EncodedRow, rowid: Option<int>)

  function EncodeRow(cells: seq<Cell>): (row: EncodedRow)
    ensures |row| == |cells| && forall i :: 0 <= i < |row| ==> row[i] == EncodeCell(cells[i])
  {
    if cells == [] then [] else [EncodeCell(cells[0])] + EncodeRow(cells[1..])
  }

  function LineOf(row: SourceRow): Line { Line(EncodeRow(row.cells), row.rowid) }

  function Lines(rows: seq<SourceRow>): (lines: seq<Line>)
    ensures |lines| == |rows| && forall i :: 0 <= i < |rows| ==> lines[i] == LineOf(rows[i])
  {
    if rows == [] then [] else [LineOf(rows[0])] + Lines(rows[1..])
  }

  /** The sort key: the JSON text of the row, or of the row paired with its rowid. */
  function Key(line: Line): string {
    if line.row == [] then []
    else if line.rowid.Some? then "[" + JsonRow(line.row) + "," + JsonInt(line.rowid.value) + "]"
    else JsonRow(line.row)
  }

  predicate KeyLeq(a: Line, b: Line) { TextLeq(Key(a), Key(b)) }

  function RowsOf(lines: seq<Line>): (rows: seq<EncodedRow>)
    ensures |rows| == |lines| && forall i :: 0 <= i < |lines| ==> rows[i] == lines[i].row
  {
    if lines == [] then [] else [lines[0].row] + RowsOf(lines[1..])
  }

  function RowidsOf(lines: seq<Line>): (rowids: seq<int>)
    requires forall i :: 0 <= i < |lines| ==> lines[i].rowid.Some?
    ensures |rowids| == |lines| && forall i :: 0 <= i < |lines| ==> rowids[i] == lines[i].rowid.value
  {
    if lines == [] then [] else [lines[0].rowid.value] + RowidsOf(lines[1..])
  }

  predicate AllRowids(lines: seq<Line>, hasRowid: bool) {
    forall i :: 0 <= i < |lines| ==> lines[i].rowid.Some? == hasRowid
  }

  function Arranged(columns: seq<string>, hasRowid: bool, lines: seq<Line>): TableSnapshot
    requires AllRowids(lines, hasRowid)
  {
    TableSnapshot(columns, RowsOf(lines), if hasRowid then Some(RowidsOf(lines)) else None)
  }

  lemma SortKeepsRowids(lines: seq<Line>, hasRowid: bool)
    requires AllRowids(lines, hasRowid)
    ensures AllRowids(Sort(KeyLeq, lines), hasRowid)
    ensures Sorted(KeyLeq, Sort(KeyLeq, lines)) && multiset(Sort(KeyLeq, lines)) == multiset(lines)
  {
    hide KeyLeq, Sort;
    KeyOrder();
    SortSorts(KeyLeq, lines);
    var sorted := Sort(KeyLeq, lines);
    forall i | 0 <= i < |sorted| ensures sorted[i].rowid.Some? == hasRowid {
      assert sorted[i] in multiset(lines);
      var j :| 0 <= j < |lines| && lines[j] == sorted[i];
    }
  }

  lemma KeyOrder()
    ensures Total(KeyLeq)
  {
    hide TextLeq, Key;
    TextOrder();
  }

  /** The snapshot of one table. */
  function CaptureTable(t: SourceTable): TableSnapshot
    requires AllRowids(Lines(t.rows), t.hasRowid)
  {
    SortKeepsRowids(Lines(t.rows), t.hasRowid);
    Arranged(t.columns, t.hasRowid, Sort(KeyLeq, Lines(t.rows)))
  }

  // ---------- Keys tell lines apart ----------

  lemma KeysAreInjective(a: Line, b: Line)
    requires a.row != [] && b.row != [] && a.rowid.Some? == b.rowid.Some? && Key(a) == Key(b)
    ensures a == b
  {
    hide JsonCells, ReadCells, JsonInt, ReadInt;
    if a.rowid.None? {
      assert Key(a) == "[" + (JsonCells(a.row) + "]" + []) && Key(b) == "[" + (JsonCells(b.row) + "]" + []);
      assert Key(a)[1..] == JsonCells(a.row) + "]" + [] && Key(b)[1..] == JsonCells(b.row) + "]" + [];
      CellsRoundTrip(a.row, []);
      CellsRoundTrip(b.row, []);
    } else {
      PairedKey(a);
      PairedKey(b);
    }
  }

  lemma PairedKey(a: Line)
    requires a.row != [] && a.rowid.Some?
    ensures |Key(a)| > 2 && ReadCells(Key(a)[2..]) == Some(Read(a.row, "," + JsonInt(a.rowid.value) + "]"))
    ensures ReadInt(("," + JsonInt(a.rowid.value) + "]")[1..]) == Some(Read(a.rowid.value, "]"))
  {
    hide JsonCells, ReadCells, JsonInt, ReadInt;
    var after := "," + JsonInt(a.rowid.value) + "]";
    assert Key(a) == "[[" + (JsonCells(a.row) + "]" + after);
    assert Key(a)[2..] == JsonCells(a.row) + "]" + after;
    CellsRoundTrip(a.row, after);
    assert after[1..] == JsonInt(a.rowid.value) + "]";
    IntRoundTrip(a.rowid.value, "]");
  }

  lemma {:induction false} RowsAreInjective(canonicalReal: string -> bool, a: SourceRow, b: SourceRow, width: nat, hasRowid: bool)
    requires GoodRow(canonicalReal, a, width, hasRowid) && GoodRow(canonicalReal, b, width, hasRowid) && LineOf(a) == LineOf(b)
    ensures a == b
  {
    forall k | 0 <= k < width ensures a.cells[k] == b.cells[k] {
      assert LineOf(a).row[k] == LineOf(b).row[k];
      assert StorableCell(canonicalReal, a.cells[k]) && StorableCell(canonicalReal, b.cells[k]);
      CellsAreInjective(a.cells[k], b.cells[k]);
    }
    assert a.cells == b.cells;
  }

  // ---------- Captures are canonical and faithful ----------

  lemma {:induction false} LinesKeepMultiset(a: seq<SourceRow>, b: seq<SourceRow>)
    requires multiset(a) == multiset(b)
    ensures multiset(Lines(a)) == multiset(Lines(b))
    decreases |a|
  {
    hide LineOf, Lines;
    if a == [] {
      assert b == [] by { if b != [] { HeadAndTail(b); } }
    } else {
      HeadAndTail(a);
      var i :| 0 <= i < |b| && b[i] == a[0];
      Remove(a, 0);
      Remove(b, i);
      RemoveLine(a, 0);
      RemoveLine(b, i);
      LinesKeepMultiset(Without(a, 0), Without(b, i));
    }
  }

  lemma RemoveLine(b: seq<SourceRow>, i: nat)
    requires i < |b|
    ensures Lines(Without(b, i)) == Without(Lines(b), i) && Lines(b)[i] == LineOf(b[i])
    ensures multiset(Lines(b)) == multiset{LineOf(b[i])} + multiset(Lines(Without(b, i)))
    ensures multiset(Lines(Without(b, i))) == multiset(Lines(b)) - multiset{LineOf(b[i])}
  {
    hide LineOf;
    Remove(Lines(b), i);
    var left, right := Lines(Without(b, i)), Without(Lines(b), i);
    forall k | 0 <= k < |left| ensures left[k] == right[k] {}
    assert left == right;
  }

  lemma {:induction false} LinesDetermineRows(canonicalReal: string -> bool, a: seq<SourceRow>, b: seq<SourceRow>, width: nat, hasRowid: bool)
    requires GoodRows(canonicalReal, a, width, hasRowid) && GoodRows(canonicalReal, b, width, hasRowid)
    requires multiset(Lines(a)) == multiset(Lines(b))
    ensures multiset(a) == multiset(b)
    decreases |a|
  {
    hide LineOf, GoodRow, Lines;
    if a == [] {
      assert b == [] by { if b != [] { HeadAndTail(Lines(b)); } }
    } else {
      RemoveLine(a, 0);
      HeadAndTail(Lines(a));
      assert LineOf(a[0]) in multiset(Lines(b));
      var i :| 0 <= i < |Lines(b)| && Lines(b)[i] == LineOf(a[0]);
      RemoveLine(b, i);
      RowsAreInjective(canonicalReal, a[0], b[i], width, hasRowid);
      LinesDetermineRows(canonicalReal, Without(a, 0), Without(b, i), width, hasRowid);
      Remove(a, 0);
      Remove(b, i);
    }
  }

  lemma GoodRowids(canonicalReal: string -> bool, rows: seq<SourceRow>, width: nat, hasRowid: bool)
    requires GoodRows(canonicalReal, rows, width, hasRowid)
    ensures AllRowids(Lines(rows), hasRowid) && forall line :: line in Lines(rows) ==> line.row != [] && line.rowid.Some? == hasRowid
  {
    forall i | 0 <= i < |rows| ensures Lines(rows)[i].rowid.Some? == hasRowid && Lines(rows)[i].row != [] {
      assert GoodRow(canonicalReal, rows[i], width, hasRowid);
    }
  }

  /** Arranged lines are determined by the snapshot. */
  lemma ArrangedIsInjective(columns: seq<string>, hasRowid: bool, a: seq<Line>, b: seq<Line>)
    requires AllRowids(a, hasRowid) && AllRowids(b, hasRowid) && Arranged(columns, hasRowid, a) == Arranged(columns, hasRowid, b)
    ensures a == b
  {
    var left, right := Arranged(columns, hasRowid, a), Arranged(columns, hasRowid, b);
    assert |a| == |left.rows| == |b|;
    forall i | 0 <= i < |a| ensures a[i] == b[i] {
      assert a[i].row == left.rows[i] == b[i].row;
      if hasRowid { assert a[i].rowid.value == left.rowids.value[i] == b[i].rowid.value; }
    }
  }

  /** Two snapshots of tables are equal exactly when the tables have the same columns, the same kind of
      storage and the same rows with the same rowids, in whatever order each was enumerated. */
  lemma SnapshotsAreCanonical(canonicalReal: string -> bool, a: SourceTable, b: SourceTable)
    requires WellFormed(canonicalReal, a) && WellFormed(canonicalReal, b)
    ensures AllRowids(Lines(a.rows), a.hasRowid) && AllRowids(Lines(b.rows), b.hasRowid)
    ensures CaptureTable(a) == CaptureTable(b)
            <==> a.columns == b.columns && a.hasRowid == b.hasRowid && multiset(a.rows) == multiset(b.rows)
  {
    hide KeyLeq, Sort, Lines, GoodRows, AllRowids;
    GoodRowids(canonicalReal, a.rows, |a.columns|, a.hasRowid);
    GoodRowids(canonicalReal, b.rows, |b.columns|, b.hasRowid);
    SortKeepsRowids(Lines(a.rows), a.hasRowid);
    SortKeepsRowids(Lines(b.rows), b.hasRowid);
    if a.columns == b.columns && a.hasRowid == b.hasRowid {
      if multiset(a.rows) == multiset(b.rows) {
        LinesKeepMultiset(a.rows, b.rows);
        SameLinesSameOrder(Lines(a.rows), Lines(b.rows), a.hasRowid);
      }
      if CaptureTable(a) == CaptureTable(b) {
        ArrangedIsInjective(a.columns, a.hasRowid, Sort(KeyLeq, Lines(a.rows)), Sort(KeyLeq, Lines(b.rows)));
        LinesDetermineRows(canonicalReal, a.rows, b.rows, |a.columns|, a.hasRowid);
      }
    }
  }

  lemma SameLinesSameOrder(a: seq<Line>, b: seq<Line>, hasRowid: bool)
    requires multiset(a) == multiset(b)
    requires forall line :: line in a ==> line.row != [] && line.rowid.Some? == hasRowid
    ensures Sort(KeyLeq, a) == Sort(KeyLeq, b)
  {
    hide TextLeq, Key, Sort;
    KeyOrder();
    TextOrder();
    SortSorts(KeyLeq, a);
    SortSorts(KeyLeq, b);
    var among := set line | line in a;
    forall x, y | x in among && y in among && KeyLeq(x, y) && KeyLeq(y, x) ensures x == y { KeysAreInjective(x, y); }
    forall x | x in multiset(Sort(KeyLeq, a)) ensures x in among { assert x in multiset(a); }
    SortedIsUnique(KeyLeq, Sort(KeyLeq, a), Sort(KeyLeq, b), among);
  }

  // ---------- The validator's table checks ----------

  predicate HexPairs(s: string) {
    |s| % 2 == 0 && forall i :: 0 <= i < |s| ==> '0' <= s[i] <= '9' || 'a' <= s[i] <= 'f'
  }

  predicate ValidCell(canonicalReal: string -> bool, e: Encoded) {
    || (e.tag == "null" && e.payload == Nothing)
    || (e.tag == "integer" && e.payload.Number? && -0x8000_0000_0000_0000 <= e.payload.n < 0x8000_0000_0000_0000)
    || (e.tag == "text" && e.payload.Str?)
    || (e.tag == "blob" && e.payload.Str? && HexPairs(e.payload.s))
    || (e.tag == "real" && e.payload.Str? && canonicalReal(e.payload.s))
  }

  /** Rows and rowids side by side, as the validator pairs them. */
  function Zipped(t: TableSnapshot): seq<Line>
    requires t.rowids.Some? ==> |t.rowids.value| == |t.rows|
  {
    seq(|t.rows|, i requires 0 <= i < |t.rows| => Line(t.rows[i], if t.rowids.Some? then Some(t.rowids.value[i]) else None))
  }

  ghost predicate ValidTable(canonicalReal: string -> bool, t: TableSnapshot) {
    && 0 < |t.columns| <= 256
    && (forall i :: 0 <= i < |t.columns| ==> t.columns[i] != [])
    && (forall i, j :: 0 <= i < j < |t.columns| ==> t.columns[i] != t.columns[j])
    && ValidRowids(t)
    && (forall i :: 0 <= i < |t.rows| ==>
          |t.rows[i]| == |t.columns| && forall k :: 0 <= k < |t.rows[i]| ==> ValidCell(canonicalReal, t.rows[i][k]))
    && Zipped(t) == Sort(KeyLeq, Zipped(t))
  }

  predicate ValidRowids(t: TableSnapshot) {
    t.rowids.Some? ==>
      && |t.rowids.value| == |t.rows|
      && (forall i :: 0 <= i < |t.rowids.value| ==> -0x8000_0000_0000_0000 <= t.rowids.value[i] < 0x8000_0000_0000_0000)
      && (forall i, j :: 0 <= i < j < |t.rowids.value| ==> t.rowids.value[i] != t.rowids.value[j])
  }

  function TotalRows(tables: map<string, TableSnapshot>, names: seq<string>): nat
    requires forall n :: n in names ==> n in tables
  {
    if names == [] then 0 else |tables[names[0]].rows| + TotalRows(tables, names[1..])
  }

  /** The checks on the tables of a snapshot whose schema lists these table names. */
  ghost predicate ValidTables(canonicalReal: string -> bool, names: seq<string>, tables: map<string, TableSnapshot>) {
    && (forall i, j :: 0 <= i < j < |names| ==> names[i] != names[j])
    && tables.Keys == (set n | n in names) && |tables| <= MAX_TABLES
    && TotalRows(tables, names) <= MAX_ROWS
    && (forall n :: n in tables ==> ValidTable(canonicalReal, tables[n]))
    && GATES in tables && tables[GATES].columns == ["scope", "scope_id", "enabled", "revision"]
  }

  lemma {:induction false} BlobHexIsPairs(b: string)
    ensures HexPairs(BlobHex(b))
  {
    if b != [] { BlobHexIsPairs(b[1..]); }
  }

  lemma EncodedCellIsValid(canonicalReal: string -> bool, c: Cell)
    requires StorableCell(canonicalReal, c)
    ensures ValidCell(canonicalReal, EncodeCell(c))
  {
    if c.BlobCell? { BlobHexIsPairs(c.b); }
  }

  lemma {:induction false} SortOfSorted<T(!new)>(leq: (T, T) -> bool, s: seq<T>)
    requires Sorted(leq, s)
    ensures Sort(leq, s) == s
  {
    if s != [] {
      SortOfSorted(leq, s[1..]);
      assert s == [s[0]] + s[1..];
    }
  }

  /** Where a sorted line came from. */
  lemma SortedLineSource(rows: seq<SourceRow>, sorted: seq<Line>, i: nat) returns (j: nat)
    requires multiset(sorted) == multiset(Lines(rows)) && i < |sorted|
    ensures j < |rows| && sorted[i] == LineOf(rows[j])
  {
    assert sorted[i] in multiset(Lines(rows));
    j :| 0 <= j < |Lines(rows)| && Lines(rows)[j] == sorted[i];
  }

  /** Distinct rowids stay distinct when the rows are sorted. */
  lemma {:induction false} DistinctRowids(rows: seq<SourceRow>, sorted: seq<Line>)
    requires multiset(sorted) == multiset(Lines(rows))
    requires forall i, j :: 0 <= i < j < |rows| ==> rows[i].rowid != rows[j].rowid
    ensures forall i, j :: 0 <= i < j < |sorted| ==> sorted[i].rowid != sorted[j].rowid
    decreases |sorted|
  {
    hide Lines, LineOf;
    if sorted != [] {
      HeadAndTail(sorted);
      var k := SortedLineSource(rows, sorted, 0);
      RemoveLine(rows, k);
      assert multiset(sorted[1..]) == multiset(sorted) - multiset{sorted[0]};
      DistinctRowids(Without(rows, k), sorted[1..]);
      HeadRowidApart(rows, k, sorted);
      DistinctFromTail(sorted);
    }
  }

  lemma HeadRowidApart(rows: seq<SourceRow>, k: nat, sorted: seq<Line>)
    requires k < |rows| && sorted != [] && sorted[0] == LineOf(rows[k])
    requires multiset(sorted[1..]) == multiset(Lines(Without(rows, k)))
    requires forall i, j :: 0 <= i < j < |rows| ==> rows[i].rowid != rows[j].rowid
    ensures forall j :: 0 < j < |sorted| ==> sorted[0].rowid != sorted[j].rowid
  {
    hide Lines;
    forall j | 0 < j < |sorted| ensures sorted[0].rowid != sorted[j].rowid {
      var m := SortedLineSource(Without(rows, k), sorted[1..], j - 1);
      assert Without(rows, k)[m] == rows[if m < k then m else m + 1];
    }
  }

  lemma DistinctFromTail(sorted: seq<Line>)
    requires sorted != []
    requires forall j :: 0 < j < |sorted| ==> sorted[0].rowid != sorted[j].rowid
    requires forall i, j :: 0 <= i < j < |sorted| - 1 ==> sorted[1..][i].rowid != sorted[1..][j].rowid
    ensures forall i, j :: 0 <= i < j < |sorted| ==> sorted[i].rowid != sorted[j].rowid
  {
    forall i, j | 0 <= i < j < |sorted| ensures sorted[i].rowid != sorted[j].rowid {
      if i > 0 { assert sorted[1..][i - 1] == sorted[i] && sorted[1..][j - 1] == sorted[j]; }
    }
  }

  /** Every captured table passes the validator's checks on it. */
  lemma CaptureIsValid(canonicalReal: string -> bool, t: SourceTable)
    requires WellFormed(canonicalReal, t) && |t.columns| <= 256
    ensures AllRowids(Lines(t.rows), t.hasRowid) && ValidTable(canonicalReal, CaptureTable(t))
  {
    hide KeyLeq, Sort, Lines, StorableCell, ValidCell, EncodeRow;
    GoodRowids(canonicalReal, t.rows, |t.columns|, t.hasRowid);
    SortKeepsRowids(Lines(t.rows), t.hasRowid);
    var sorted, taken := Sort(KeyLeq, Lines(t.rows)), CaptureTable(t);
    assert Zipped(taken) == sorted;
    SortOfSorted(KeyLeq, sorted);
    if t.hasRowid { DistinctRowids(t.rows, sorted); }
    forall i | 0 <= i < |taken.rows|
      ensures |taken.rows[i]| == |t.columns| && forall k :: 0 <= k < |taken.rows[i]| ==> ValidCell(canonicalReal, taken.rows[i][k])
      ensures t.hasRowid ==> -0x8000_0000_0000_0000 <= taken.rowids.value[i] < 0x8000_0000_0000_0000
    {
      var j := SortedLineSource(t.rows, sorted, i);
      assert GoodRow(canonicalReal, t.rows[j], |t.columns|, t.hasRowid);
      forall k | 0 <= k < |taken.rows[i]| ensures ValidCell(canonicalReal, taken.rows[i][k]) {
        EncodedCellIsValid(canonicalReal, t.rows[j].cells[k]);
      }
    }
  }

  // ---------- The capture ----------

  predicate Capturable(db: map<string, SourceTable>, name: string) {
    name in db && AllRowids(Lines(db[name].rows), db[name].hasRowid)
  }

  /** Every named table, read in turn under the row and byte bounds; a bound refuses the whole capture. */
  method CaptureTables(db: map<string, SourceTable>, names: seq<string>) returns (r: Option<map<string, TableSnapshot>>)
    requires forall n :: n in names ==> n in db && Capturable(db, n)
    ensures r.Some? ==>
              && r.value.Keys == (set n | n in names) && |names| <= MAX_TABLES
              && (forall n :: n in names ==> Capturable(db, n) && 0 < |db[n].columns| <= 256 && r.value[n] == CaptureTable(db[n]))
              && TotalRows(r.value, names) <= MAX_ROWS
  {
    hide KeyLeq, Sort, Lines, AllRowids, Arranged, CaptureTable, EncodedBytes, SourceRows, TotalRows;
    SourceNothing(db);
    if |names| > MAX_TABLES { return None; }
    var tables: map<string, TableSnapshot>, total: nat, encodedBytes: nat := map[], 0, 0;
    var i := 0;
    while i < |names|
      invariant 0 <= i <= |names|
      invariant tables.Keys == set n | n in names[..i]
      invariant forall n :: n in tables ==> Capturable(db, n) && 0 < |db[n].columns| <= 256 && tables[n] == CaptureTable(db[n])
      invariant total == SourceRows(db, names[..i]) <= MAX_ROWS
    {
      var name := names[i];
      assert name in names && Capturable(db, name);
      var t := db[name];
      if !(0 < |t.columns| <= 256) { return None; }
      var read := ReadTable(t, total, encodedBytes);
      if read.None? { return None; }
      encodedBytes := read.value;
      SourceRowsNext(db, names, i);
      total := total + |t.rows|;
      tables := tables[name := CaptureTable(t)];
      assert names[..i + 1] == names[..i] + [name];
      i := i + 1;
    }
    assert names[..i] == names;
    SameTotals(db, tables, names);
    return Some(tables);
  }

  /** The row loop of one table, with the running bounds. */
  method ReadTable(t: SourceTable, total: nat, bytes: nat) returns (r: Option<nat>)
    ensures r.Some? ==> total + |t.rows| <= MAX_ROWS || t.rows == []
    ensures r.Some? ==> r.value == bytes + EncodedBytes(Lines(t.rows)) && (t.rows != [] ==> r.value <= MAX_BYTES)
  {
    hide LineOf, LineBytes;
    var lines: seq<Line>, size: nat := [], bytes;
    EncodedNothing();
    var j := 0;
    while j < |t.rows|
      invariant 0 <= j <= |t.rows| && |lines| == j
      invariant forall k :: 0 <= k < j ==> lines[k] == LineOf(t.rows[k])
      invariant j > 0 ==> total + j <= MAX_ROWS && size <= MAX_BYTES
      invariant size == bytes + EncodedBytes(lines)
    {
      if total + j + 1 > MAX_ROWS { return None; }
      var line := LineOf(t.rows[j]);
      EncodedNext(lines, line);
      size := size + LineBytes(line);
      if size > MAX_BYTES { return None; }
      lines := lines + [line];
      j := j + 1;
    }
    assert lines == Lines(t.rows);
    return Some(size);
  }

  function LineBytes(line: Line): nat {
    (if line.row == [] then 2 else |JsonRow(line.row)|) + (if line.rowid.Some? then |JsonInt(line.rowid.value)| else 0)
  }

  function EncodedBytes(lines: seq<Line>): nat {
    if lines == [] then 0 else EncodedBytes(lines[..|lines| - 1]) + LineBytes(lines[|lines| - 1])
  }

  lemma EncodedNothing()
    ensures EncodedBytes([]) == 0
  {
  }

  lemma EncodedNext(lines: seq<Line>, line: Line)
    ensures EncodedBytes(lines + [line]) == EncodedBytes(lines) + LineBytes(line)
  {
    assert (lines + [line])[..|lines|] == lines;
  }

  function SourceRows(db: map<string, SourceTable>, names: seq<string>): nat
    requires forall n :: n in names ==> n in db
  {
    if names == [] then 0 else SourceRows(db, names[..|names| - 1]) + |db[names[|names| - 1]].rows|
  }

  lemma SourceNothing(db: map<string, SourceTable>)
    ensures SourceRows(db, []) == 0
  {
  }

  lemma SourceRowsNext(db: map<string, SourceTable>, names: seq<string>, i: nat)
    requires i < |names| && forall n :: n in names ==> n in db
    ensures SourceRows(db, names[..i + 1]) == SourceRows(db, names[..i]) + |db[names[i]].rows|
  {
    assert names[..i + 1][..i] == names[..i];
  }

  lemma CapturedSize(t: SourceTable)
    requires AllRowids(Lines(t.rows), t.hasRowid)
    ensures |CaptureTable(t).rows| == |t.rows| && CaptureTable(t).columns == t.columns
  {
    SortKeepsRowids(Lines(t.rows), t.hasRowid);
    assert |multiset(Sort(KeyLeq, Lines(t.rows)))| == |multiset(Lines(t.rows))|;
  }

  lemma {:induction false} SameTotals(db: map<string, SourceTable>, tables: map<string, TableSnapshot>, names: seq<string>)
    requires forall n :: n in names ==> n in db && Capturable(db, n) && n in tables && tables[n] == CaptureTable(db[n])
    ensures TotalRows(tables, names) == SourceRows(db, names)
    decreases |names|
  {
    hide KeyLeq, Sort, Lines, AllRowids, CaptureTable;
    if names != [] {
      var front, last := names[..|names| - 1], names[|names| - 1];
      CapturedSize(db[last]);
      SameTotals(db, tables, front);
      TotalRowsLast(tables, names);
    }
  }

  lemma {:induction false} TotalRowsLast(tables: map<string, TableSnapshot>, names: seq<string>)
    requires names != [] && forall n :: n in names ==> n in tables
    ensures TotalRows(tables, names) == TotalRows(tables, names[..|names| - 1]) + |tables[names[|names| - 1]].rows|
    decreases |names|
  {
    if |names| > 1 {
      TotalRowsLast(tables, names[1..]);
      assert names[1..][..|names| - 2] == names[..|names| - 1][1..];
    }
  }

  /** Every capture of a database with the gate table passes all the validator's table checks. */
  lemma CapturePassesValidation(canonicalReal: string -> bool, db: map<string, SourceTable>, names: seq<string>, tables: map<string, TableSnapshot>)
    requires forall n :: n in names ==> n in db && Capturable(db, n) && WellFormed(canonicalReal, db[n]) && |db[n].columns| <= 256
    requires forall i, j :: 0 <= i < j < |names| ==> names[i] != names[j]
    requires tables.Keys == (set n | n in names) && |names| <= MAX_TABLES
    requires forall n :: n in names ==> Capturable(db, n) && tables[n] == CaptureTable(db[n])
    requires TotalRows(tables, names) <= MAX_ROWS
    requires GATES in names && db[GATES].columns == ["scope", "scope_id", "enabled", "revision"]
    ensures ValidTables(canonicalReal, names, tables)
  {
    hide KeyLeq, Sort, Lines, AllRowids, CaptureTable, WellFormed, ValidTable, TotalRows;
    forall n | n in tables ensures ValidTable(canonicalReal, tables[n]) { CaptureIsValid(canonicalReal, db[n]); }
    CapturedSize(db[GATES]);
    NamesAreFew(names);
    assert |tables| == |tables.Keys|;
  }

  lemma {:induction false} NamesAreFew(names: seq<string>)
    ensures |set n | n in names| <= |names|
  {
    if names != [] {
      NamesAreFew(names[1..]);
      assert (set n | n in names) == {names[0]} + set n | n in names[1..];
    }
  }
}
