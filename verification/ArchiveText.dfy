/** The archive's script as the one text it is: statements joined by newlines, split again where a
    semicolon stands outside every quotation. */
module ArchiveText {
  import opened Options
  import opened DecimalText
  import opened SqlArchive
  import opened Ordering
  import opened ArchiveRestore

  // ---------- Splitting ----------

  /** Whether the text is inside a quotation, and which. */
  datatype Mode = Plain | Quoted(mark: char)

  function Next(mode: Mode, c: char): Mode {
    match mode
    case Plain => if c == '\'' || c == '"' then Quoted(c) else Plain
    case Quoted(mark) => if c == mark then Plain else mode
  }

  /** The length of the first statement, with the semicolon that ends it. */
  function StatementEnd(text: string, mode: Mode): (n: Option<nat>)
    ensures n.Some? ==> 0 < n.value <= |text|
  {
    if text == [] then None
    else if mode == Plain && text[0] == ';' then Some(1)
    else
      match StatementEnd(text[1..], Next(mode, text[0]))
      case None => None
      case Some(n) => Some(n + 1)
  }

  /** The statements of a script, a newline after each; what ends without a semicolon is no statement. */
  function Split(text: string): seq<string>
    decreases |text|
  {
    match StatementEnd(text, Plain)
    case None => []
    case Some(n) =>
      if n < |text| && text[n] == '\n' then [text[..n]] + Split(text[n + 1..]) else [text[..n]] + Split(text[n..])
  }

  /** The mode after a text that meets no statement end, or nothing if it meets one. */
  function Through(text: string, mode: Mode): Option<Mode> {
    if text == [] then Some(mode)
    else if mode == Plain && text[0] == ';' then None
    else Through(text[1..], Next(mode, text[0]))
  }

  /** A text without a statement end, every quotation closed. */
  predicate Closed(text: string) { Through(text, Plain) == Some(Plain) }

  lemma {:induction false} ThroughJoins(a: string, b: string, mode: Mode)
    requires Through(a, mode).Some?
    ensures Through(a + b, mode) == Through(b, Through(a, mode).value)
  {
    if a == [] { assert a + b == b; } else {
      assert (a + b)[1..] == a[1..] + b;
      ThroughJoins(a[1..], b, Next(mode, a[0]));
    }
  }

  lemma {:induction false} EndAfter(a: string, b: string, mode: Mode)
    requires Through(a, mode).Some?
    ensures StatementEnd(a + b, mode)
            == (match StatementEnd(b, Through(a, mode).value) case None => None case Some(n) => Some(|a| + n))
  {
    if a == [] { assert a + b == b; } else {
      assert (a + b)[1..] == a[1..] + b;
      EndAfter(a[1..], b, Next(mode, a[0]));
    }
  }

  lemma ClosedJoins(a: string, b: string)
    requires Closed(a) && Closed(b)
    ensures Closed(a + b)
  {
    ThroughJoins(a, b, Plain);
  }

  /** A closed text and its semicolon are one statement, whatever follows. */
  lemma ClosedEnds(text: string, rest: string)
    requires Closed(text)
    ensures StatementEnd(text + ";" + rest, Plain) == Some(|text| + 1)
  {
    assert text + ";" + rest == text + (";" + rest);
    EndAfter(text, ";" + rest, Plain);
  }

  /** Text with neither quotes nor semicolons. */
  predicate Bare(text: string) { forall i :: 0 <= i < |text| ==> text[i] != '\'' && text[i] != '"' && text[i] != ';' }

  lemma {:induction false} BareIsClosed(text: string)
    requires Bare(text)
    ensures Closed(text)
  {
    if text != [] { BareIsClosed(text[1..]); }
  }

  // ---------- Printed rows never end a statement early ----------

  lemma OneMore(c: char, rest: string, mode: Mode)
    requires mode != Plain || c != ';'
    ensures Through([c] + rest, mode) == Through(rest, Next(mode, c))
  {
    assert ([c] + rest)[1..] == rest;
  }

  lemma {:induction false} DoubledStaysInside(s: string)
    ensures Through(Doubled(s), Quoted('\'')) == Some(Quoted('\''))
  {
    hide Through;
    if s == [] {
      NothingPasses(Quoted('\''));
    } else {
      var more := Doubled(s[1..]);
      DoubledStaysInside(s[1..]);
      if s[0] == '\'' {
        assert Doubled(s) == ['\''] + (['\''] + more);
        OneMore('\'', ['\''] + more, Quoted('\''));
        OneMore('\'', more, Plain);
      } else {
        OneMore(s[0], more, Quoted('\''));
      }
    }
  }

  lemma NothingPasses(mode: Mode)
    ensures Through([], mode) == Some(mode)
  {
  }

  lemma {:induction false} HexIsBare(s: string)
    ensures Bare(HexOf(s))
  {
    if s != [] { HexIsBare(s[1..]); }
  }

  /** A quotation around a text that stays inside it is closed. */
  lemma QuotedIsClosed(inside: string)
    requires Through(inside, Quoted('\'')) == Some(Quoted('\''))
    ensures Closed("'" + inside + "'")
  {
    hide Through;
    assert "'" + inside + "'" == ['\''] + (inside + "'");
    OneMore('\'', inside + "'", Plain);
    ThroughJoins(inside, "'", Quoted('\''));
    assert "'" == ['\''] + [];
    OneMore('\'', [], Quoted('\''));
    NothingPasses(Plain);
  }

  lemma {:induction false} BareStaysInside(s: string)
    requires Bare(s)
    ensures Through(s, Quoted('\'')) == Some(Quoted('\''))
  {
    if s != [] { BareStaysInside(s[1..]); }
  }

  lemma DecimalIsBare(n: nat)
    ensures Bare(Decimal(n))
  {
    DecimalRoundTrip(n);
    forall i | 0 <= i < |Decimal(n)| ensures Decimal(n)[i] != '\'' && Decimal(n)[i] != '"' && Decimal(n)[i] != ';' {
      assert IsDigit(Decimal(n)[i]);
    }
  }

  /** No literal ends a statement or leaves a quotation open, whatever the value's text holds. */
  lemma LiteralIsClosed(v: Value)
    ensures Closed(Literal(v))
  {
    hide Closed, HexOf, Doubled, Decimal, Through;
    match v
    case Null => BareIsClosed("NULL");
    case Integer(i) => IntegerIsClosed(i);
    case Text(s) =>
      if '\0' in s { CastIsClosed(s); } else {
        DoubledStaysInside(s);
        QuotedIsClosed(Doubled(s));
      }
    case Blob(b) =>
      HexIsClosed(b);
      BareIsClosed("X");
      ClosedJoins("X", "'" + HexOf(b) + "'");
      assert Literal(v) == "X" + ("'" + HexOf(b) + "'");
  }

  lemma IntegerIsClosed(i: int)
    ensures Closed(Literal(Integer(i)))
  {
    hide Closed, Decimal;
    DecimalIsBare(if i < 0 then -i else i);
    BareIsClosed(Literal(Integer(i)));
  }

  lemma CastIsClosed(s: string)
    requires '\0' in s
    ensures Closed(Literal(Text(s)))
  {
    hide Closed, HexOf, Through;
    var hex := "'" + HexOf(s) + "'";
    HexIsClosed(s);
    BareIsClosed("CAST(X");
    ClosedJoins("CAST(X", hex);
    BareIsClosed(" AS TEXT)");
    ClosedJoins("CAST(X" + hex, " AS TEXT)");
    assert Literal(Text(s)) == "CAST(X" + hex + " AS TEXT)";
  }

  lemma HexIsClosed(s: string)
    ensures Closed("'" + HexOf(s) + "'")
  {
    HexIsBare(s);
    BareStaysInside(HexOf(s));
    QuotedIsClosed(HexOf(s));
  }

  lemma {:induction false} LiteralsAreClosed(row: Row)
    requires row != []
    ensures Closed(Literals(row))
  {
    hide Literal, Closed;
    LiteralIsClosed(row[0]);
    if |row| > 1 {
      CommaIsClosed();
      LiteralsAreClosed(row[1..]);
      ClosedJoins(Literal(row[0]), ",");
      ClosedJoins(Literal(row[0]) + ",", Literals(row[1..]));
    }
  }

  lemma CommaIsClosed()
    ensures Closed(",") && Closed(")")
  {
    BareIsClosed(",");
    BareIsClosed(")");
  }

  /** One statement of a script: it ends where its text does, whatever follows. */
  ghost predicate Whole(statement: string) {
    forall rest :: StatementEnd(statement + rest, Plain) == Some(|statement|)
  }

  lemma ClosedIsWhole(text: string)
    requires Closed(text)
    ensures Whole(text + ";")
  {
    forall rest ensures StatementEnd(text + ";" + rest, Plain) == Some(|text + ";"|) { ClosedEnds(text, rest); }
  }

  /** A row's INSERT is one statement: nothing a value holds can move its end. */
  lemma RowIsWhole(prefix: string, row: Row)
    requires row != [] && Bare(prefix)
    ensures Whole(Statement(prefix, row))
  {
    hide Literals, Closed, Whole;
    BareIsClosed(prefix);
    LiteralsAreClosed(row);
    CommaIsClosed();
    ClosedJoins(prefix, Literals(row));
    ClosedJoins(prefix + Literals(row), ")");
    ClosedIsWhole(prefix + Literals(row) + ")");
    assert Statement(prefix, row) == prefix + Literals(row) + ")" + ";";
  }

  // ---------- Joined text splits back ----------

  /** Statements with a newline after each, as the script joins them. */
  function Lines(statements: seq<string>): string {
    if statements == [] then [] else statements[0] + "\n" + Lines(statements[1..])
  }

  /** Joined statements, followed by anything, split into exactly those statements and then the rest. */
  lemma {:induction false} LinesSplit(statements: seq<string>, rest: string)
    requires forall i :: 0 <= i < |statements| ==> Whole(statements[i])
    ensures Split(Lines(statements) + rest) == statements + Split(rest)
    decreases |statements|
  {
    hide Whole, Split;
    if statements == [] {
      assert Lines(statements) + rest == rest;
    } else {
      var first, more := statements[0], Lines(statements[1..]) + rest;
      assert Lines(statements) + rest == first + ("\n" + more);
      SplitStep(first, more);
      LinesSplit(statements[1..], rest);
      assert statements == [first] + statements[1..];
    }
  }

  lemma SplitStep(first: string, more: string)
    requires Whole(first)
    ensures Split(first + ("\n" + more)) == [first] + Split(more)
  {
    hide Whole, StatementEnd;
    var text := first + ("\n" + more);
    WholeEnds(first, "\n" + more);
    assert text[..|first|] == first && text[|first|] == '\n' && text[|first| + 1..] == more;
  }

  lemma WholeEnds(statement: string, rest: string)
    requires Whole(statement)
    ensures StatementEnd(statement + rest, Plain) == Some(|statement|)
  {
  }

  // ---------- The archive's text ----------

  function CommandText(command: Command): string {
    match command
    case DeferForeignKeys => "PRAGMA defer_foreign_keys=ON;"
    case Create(o) => o.sql + ";"
    case InsertText(_, text) => text
  }

  function Texts(commands: seq<Command>): (texts: seq<string>)
    ensures |texts| == |commands| && forall i :: 0 <= i < |commands| ==> texts[i] == CommandText(commands[i])
  {
    if commands == [] then [] else [CommandText(commands[0])] + Texts(commands[1..])
  }

  /** Everything before the triggers. */
  function Loading(a: Archive, order: seq<string>): seq<Command>
    requires forall t :: t in order ==> t in a.rows
  {
    [DeferForeignKeys]
    + (Creations(OfKind(a.objects, Table)) + Creations(OfKind(a.objects, Index)) + Creations(OfKind(a.objects, View)))
    + Inserts(a, order)
  }

  /** The script's text. */
  function SqlText(a: Archive, order: seq<string>): string
    requires forall t :: t in order ==> t in a.rows
  {
    Lines(Texts(Script(a, order)))
  }

  /** A command whose text is one statement. */
  ghost predicate WholeCommand(c: Command) { Whole(CommandText(c)) }

  lemma {:induction false} CreationsAreWhole(objects: seq<Object>)
    requires forall i :: 0 <= i < |objects| ==> Closed(objects[i].sql)
    ensures forall i :: 0 <= i < |Creations(objects)| ==> WholeCommand(Creations(objects)[i])
  {
    hide Closed, Whole;
    if objects != [] {
      ClosedIsWhole(objects[0].sql);
      CreationsAreWhole(objects[1..]);
    }
  }

  lemma {:induction false} LoadsAreWhole(t: string, prefix: string, lines: seq<string>)
    requires Bare(prefix) && forall line :: line in lines ==> IsPrinted(prefix, line)
    ensures forall i :: 0 <= i < |Loads(t, lines)| ==> WholeCommand(Loads(t, lines)[i])
  {
    hide Whole, Statement, Bare, Storable;
    if lines != [] {
      assert lines[0] in lines;
      var row :| StorableRow(row) && row != [] && lines[0] == Statement(prefix, row);
      RowIsWhole(prefix, row);
      LoadsAreWhole(t, prefix, lines[1..]);
    }
  }

  lemma {:induction false} InsertsAreWhole(a: Archive, columns: map<string, seq<string>>, order: seq<string>)
    requires PrintedArchive(a, columns, order)
    requires forall t :: t in order ==> Bare(Prefix(t, columns[t]))
    ensures forall i :: 0 <= i < |Inserts(a, order)| ==> WholeCommand(Inserts(a, order)[i])
    decreases |order|
  {
    hide IsPrinted, Bare, Prefix, WholeCommand;
    if order != [] {
      assert order[0] in order;
      LoadsAreWhole(order[0], Prefix(order[0], columns[order[0]]), a.rows[order[0]]);
      InsertsAreWhole(a, columns, order[1..]);
    }
  }

  lemma {:induction false} LinesJoin(a: seq<string>, b: seq<string>)
    ensures Lines(a + b) == Lines(a) + Lines(b)
  {
    if a == [] { assert a + b == b; } else {
      assert (a + b)[1..] == a[1..] + b;
      LinesJoin(a[1..], b);
    }
  }

  /** The archive's one text splits into exactly the texts of its loading commands, in order, and then the
      triggers' text: no value, however it is punctuated, moves a boundary before the triggers. */
  lemma SqlTextSplits(a: Archive, columns: map<string, seq<string>>, order: seq<string>)
    requires PrintedArchive(a, columns, order) && forall t :: t in order ==> Bare(Prefix(t, columns[t]))
    requires forall i :: 0 <= i < |a.objects| && a.objects[i].kind != Trigger ==> Closed(a.objects[i].sql)
    ensures var triggers := Lines(Texts(Creations(OfKind(a.objects, Trigger))));
            && SqlText(a, order) == Lines(Texts(Loading(a, order))) + triggers
            && Split(SqlText(a, order)) == Texts(Loading(a, order)) + Split(triggers)
  {
    hide IsPrinted, Bare, Closed, Inserts, Creations, Split, Lines, Whole;
    var loading, triggers := Loading(a, order), Creations(OfKind(a.objects, Trigger));
    assert Script(a, order) == loading + triggers;
    assert Texts(loading + triggers) == Texts(loading) + Texts(triggers);
    LinesJoin(Texts(loading), Texts(triggers));
    StorageIsWhole(a);
    InsertsAreWhole(a, columns, order);
    forall i | 0 <= i < |loading| ensures WholeCommand(loading[i]) {
      PragmaIsWhole();
    }
    forall i | 0 <= i < |loading| ensures Whole(Texts(loading)[i]) { assert WholeCommand(loading[i]); }
    LinesSplit(Texts(loading), Lines(Texts(triggers)));
  }

  lemma PragmaIsWhole()
    ensures WholeCommand(DeferForeignKeys)
  {
    hide Closed, Through;
    BareIsClosed("PRAGMA defer_foreign_keys=ON");
    ClosedIsWhole("PRAGMA defer_foreign_keys=ON");
    assert "PRAGMA defer_foreign_keys=ON" + ";" == "PRAGMA defer_foreign_keys=ON;";
  }

  /** The storage statements are whole wherever they stand. */
  lemma StorageIsWhole(a: Archive)
    requires forall i :: 0 <= i < |a.objects| && a.objects[i].kind != Trigger ==> Closed(a.objects[i].sql)
    ensures forall i, k :: k in {Table, Index, View} && 0 <= i < |Creations(OfKind(a.objects, k))| ==>
              WholeCommand(Creations(OfKind(a.objects, k))[i])
  {
    hide Closed, WholeCommand;
    forall k | k in {Table, Index, View}
      ensures forall i :: 0 <= i < |Creations(OfKind(a.objects, k))| ==> WholeCommand(Creations(OfKind(a.objects, k))[i])
    {
      OfKindIs(a.objects, k);
      var objects := OfKind(a.objects, k);
      forall i | 0 <= i < |objects| ensures Closed(objects[i].sql) {
        assert objects[i] in objects;
        var j :| 0 <= j < |a.objects| && a.objects[j] == objects[i];
      }
      CreationsAreWhole(objects);
    }
  }

  /** The statement prefix of plain lower-case names is bare. */
  predicate PlainName(name: string) {
    forall i :: 0 <= i < |name| ==> 'a' <= name[i] <= 'z' || '0' <= name[i] <= '9' || name[i] == '_'
  }

  lemma {:induction false} JoinedIsBare(columns: seq<string>)
    requires forall i :: 0 <= i < |columns| ==> PlainName(columns[i])
    ensures Bare(Joined(columns))
  {
    if |columns| > 0 { assert PlainName(columns[0]); }
    if |columns| > 1 { JoinedIsBare(columns[1..]); }
  }

  lemma PrefixIsBare(table: string, columns: seq<string>)
    requires PlainName(table) && forall i :: 0 <= i < |columns| ==> PlainName(columns[i])
    ensures Bare(Prefix(table, columns))
  {
    JoinedIsBare(columns);
    hide Joined;
  }

  /** Plain table and column names, and storage statements with every quotation closed and no inner semicolon. */
  ghost predicate PlainSchema(c: Contract, a: Archive) {
    && (forall t :: t in c.columns ==> PlainName(t) && forall i :: 0 <= i < |c.columns[t]| ==> PlainName(c.columns[t][i]))
    && (forall i :: 0 <= i < |a.objects| && a.objects[i].kind != Trigger ==> Closed(a.objects[i].sql))
  }

  /** The text of any captured archive splits, before its triggers, into exactly the commands whose execution
      `RestoreIsExact` is about. */
  lemma CapturedTextSplits(normalized: string -> string, c: Contract, db: Database, order: seq<string>)
    requires TablesPresent(c, db) && DistinctNames(db.objects) && ValidContract(c) && Capture(normalized, c, db).Some?
    requires forall t :: t in order ==> t in Capture(normalized, c, db).value.rows
    requires PlainSchema(c, Capture(normalized, c, db).value)
    ensures var a := Capture(normalized, c, db).value;
            var triggers := Creations(OfKind(a.objects, Trigger));
            && Script(a, order) == Loading(a, order) + triggers
            && Split(SqlText(a, order)) == Texts(Loading(a, order)) + Split(Lines(Texts(triggers)))
  {
    hide Capture, Split, Lines, Sort, Printed, Prefix, TextLeq, Closed, Bare, PlainName, DistinctNames, HasTable, Sorted,
         Captured, Storable, Inserts, Creations, IsPrinted;
    CaptureFacts(normalized, c, db);
    var a := Capture(normalized, c, db).value;
    forall t | t in order
      ensures Bare(Prefix(t, c.columns[t])) && forall line :: line in a.rows[t] ==> IsPrinted(Prefix(t, c.columns[t]), line)
    {
      PrefixIsBare(t, c.columns[t]);
      CapturedLinesPrinted(Prefix(t, c.columns[t]), db.rows[t]);
    }
    SqlTextSplits(a, c.columns, order);
  }
}
