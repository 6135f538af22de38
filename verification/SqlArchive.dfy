/** The exact archive: rows printed as SQL literals, a script that creates storage, loads rows and only
    then reinstates triggers.  Text and blobs are octets, written as characters below 256. */
module SqlArchive {
  import opened Options
  import opened DecimalText

  predicate Octets(s: string) { forall c :: c in s ==> c as int < 256 }

  /** A stored value; real numbers are not modelled. */
  datatype Value = Null | Integer(i: int) | Text(s: string) | Blob(b: string)

  predicate Storable(v: Value) {
    match v
    case Null => true
    case Integer(i) => -0x8000_0000_0000_0000 <= i < 0x8000_0000_0000_0000
    case Text(s) => Octets(s)
    case Blob(b) => Octets(b)
  }

  // ---------- Printing ----------

  function HexChar(n: nat): char
    requires n < 16
  {
    if n < 10 then '0' + n as char else 'A' + (n - 10) as char
  }

  function HexOf(s: string): string {
    if s == [] then []
    else [HexChar(s[0] as int / 16 % 16), HexChar(s[0] as int % 16)] + HexOf(s[1..])
  }

  function Doubled(s: string): string {
    if s == [] then [] else (if s[0] == '\'' then "''" else [s[0]]) + Doubled(s[1..])
  }

  /** The literal of a value: text holding a NUL goes through hexadecimal, since quoting would stop at it. */
  function Literal(v: Value): string {
    match v
    case Null => "NULL"
    case Integer(i) => if i < 0 then "-" + Decimal(-i) else Decimal(i)
    case Text(s) => if '\0' in s then "CAST(X'" + HexOf(s) + "' AS TEXT)" else "'" + Doubled(s) + "'"
    case Blob(b) => "X'" + HexOf(b) + "'"
  }

  type Row = seq<Value>

  function Literals(row: Row): string
    requires row != []
  {
    if |row| == 1 then Literal(row[0]) else Literal(row[0]) + "," + Literals(row[1..])
  }

  /** The INSERT statement of a row, after the fixed text naming its table and columns. */
  function Statement(prefix: string, row: Row): string
    requires row != []
  {
    prefix + Literals(row) + ");"
  }

  // ---------- Reading back ----------

  datatype Read<+T> = Read(value: T, rest: string)

  function HexDigit(c: char): Option<nat> {
    if '0' <= c <= '9' then Some((c - '0') as nat)
    else if 'A' <= c <= 'F' then Some(10 + (c - 'A') as nat) else None
  }

  /** Pairs of hexadecimal digits up to the closing quote. */
  function ReadHex(s: string): Option<Read<string>> {
    if s != [] && s[0] == '\'' then Some(Read([], s[1..]))
    else if |s| < 2 then None
    else
      match (HexDigit(s[0]), HexDigit(s[1]))
      case (Some(h), Some(l)) =>
        var more := ReadHex(s[2..]);
        if more == None || h >= 16 || l >= 16 then None
        else Some(Read([(16 * h + l) as char] + more.value.value, more.value.rest))
      case _ => None
  }

  /** The inside of a quoted text: a doubled quote is one quote, a single one ends it. */
  function ReadQuoted(s: string): Option<Read<string>> {
    if s == [] then None
    else if s[0] == '\'' && (|s| == 1 || s[1] != '\'') then Some(Read([], s[1..]))
    else
      var more := ReadQuoted(if s[0] == '\'' then s[2..] else s[1..]);
      if more == None then None else Some(Read([s[0]] + more.value.value, more.value.rest))
  }

  function DigitRun(s: string): (n: nat)
    ensures n <= |s| && forall i :: 0 <= i < n ==> IsDigit(s[i])
  {
    if s == [] || !IsDigit(s[0]) then 0 else 1 + DigitRun(s[1..])
  }

  function After(s: string, prefix: string): Option<string> {
    if prefix <= s then Some(s[|prefix|..]) else None
  }

  function ReadCast(s: string): Option<Read<Value>> {
    if After(s, "CAST(X'") == None then None
    else
      var hex := ReadHex(s[7..]);
      if hex == None || After(hex.value.rest, " AS TEXT)") == None then None
      else Some(Read(Text(hex.value.value), hex.value.rest[9..]))
  }

  function ReadBlob(s: string): Option<Read<Value>> {
    if After(s, "X'") == None then None
    else
      var hex := ReadHex(s[2..]);
      if hex == None then None else Some(Read(Blob(hex.value.value), hex.value.rest))
  }

  function ReadNatural(s: string): Option<Read<nat>> {
    var n := DigitRun(s);
    if n == 0 then None else Some(Read(Number(s[..n]), s[n..]))
  }

  function ReadLiteral(s: string): Option<Read<Value>> {
    if s == [] then None
    else
      match s[0]
      case 'N' => if After(s, "NULL") == None then None else Some(Read(Null, s[4..]))
      case 'C' => ReadCast(s)
      case 'X' => ReadBlob(s)
      case '\'' =>
        var text := ReadQuoted(s[1..]);
        if text == None then None else Some(Read(Text(text.value.value), text.value.rest))
      case '-' =>
        var n := ReadNatural(s[1..]);
        if n == None then None else Some(Read(Integer(-(n.value.value as int)), n.value.rest))
      case _ =>
        var n := ReadNatural(s);
        if n == None then None else Some(Read(Integer(n.value.value), n.value.rest))
  }

  function ReadLiterals(s: string): Option<Read<Row>>
    decreases |s|
  {
    var first := ReadLiteral(s);
    if first == None || first.value.rest == [] || |first.value.rest| > |s| then None
    else
      var v, rest := first.value.value, first.value.rest;
      if rest[0] == ')' then Some(Read([v], rest[1..]))
      else if rest[0] == ',' && |rest| <= |s| then
        var more := ReadLiterals(rest[1..]);
        if more == None then None else Some(Read([v] + more.value.value, more.value.rest))
      else None
  }

  function ReadStatement(prefix: string, line: string): Option<Read<Row>> {
    if !(prefix <= line) then None
    else
      var row := ReadLiterals(line[|prefix|..]);
      if row == None || After(row.value.rest, ";") == None then None
      else Some(Read(row.value.value, row.value.rest[1..]))
  }

  // ---------- Reading inverts printing ----------

  lemma HexCharRoundTrip(n: nat)
    requires n < 16
    ensures HexDigit(HexChar(n)) == Some(n) && HexChar(n) != '\''
  {
  }

  lemma {:induction false} HexRoundTrip(s: string, rest: string)
    requires Octets(s)
    ensures ReadHex(HexOf(s) + "'" + rest) == Some(Read(s, rest))
  {
    hide HexDigit, HexChar;
    var t := HexOf(s) + "'" + rest;
    if s == [] {
      assert t == "'" + rest && t[1..] == rest;
    } else {
      assert s[0] in s;
      var h, l := s[0] as int / 16 % 16, s[0] as int % 16;
      HexCharRoundTrip(h);
      HexCharRoundTrip(l);
      var more := HexOf(s[1..]) + "'" + rest;
      assert t == [HexChar(h), HexChar(l)] + more && t[2..] == more;
      assert Octets(s[1..]) by { forall c | c in s[1..] ensures c as int < 256 { assert c in s; } }
      HexRoundTrip(s[1..], rest);
      assert (16 * h + l) as char == s[0];
      assert [s[0]] + s[1..] == s;
    }
  }

  lemma {:induction false} QuotedRoundTrip(s: string, rest: string)
    requires rest == [] || rest[0] != '\''
    ensures ReadQuoted(Doubled(s) + "'" + rest) == Some(Read(s, rest))
  {
    var t := Doubled(s) + "'" + rest;
    if s == [] {
      assert t == "'" + rest && t[1..] == rest;
    } else {
      QuotedRoundTrip(s[1..], rest);
      var more := Doubled(s[1..]) + "'" + rest;
      if s[0] == '\'' { assert t == "''" + more && t[2..] == more; } else { assert t == [s[0]] + more && t[1..] == more; }
      assert [s[0]] + s[1..] == s;
    }
  }

  lemma {:induction false} DigitsStop(s: string, rest: string)
    requires (forall i :: 0 <= i < |s| ==> IsDigit(s[i])) && (rest == [] || !IsDigit(rest[0]))
    ensures DigitRun(s + rest) == |s| && (s + rest)[..|s|] == s && (s + rest)[|s|..] == rest
  {
    if s == [] { assert s + rest == rest; } else {
      assert (s + rest)[1..] == s[1..] + rest;
      DigitsStop(s[1..], rest);
    }
  }

  /** Any storable value reads back from its literal, whatever separator follows. */
  lemma LiteralRoundTrip(v: Value, rest: string)
    requires Storable(v) && rest != [] && (rest[0] == ',' || rest[0] == ')')
    ensures ReadLiteral(Literal(v) + rest) == Some(Read(v, rest))
  {
    var t := Literal(v) + rest;
    match v
    case Null =>
      assert t[4..] == rest;
    case Integer(i) =>
      IntegerRoundTrip(i, rest);
    case Text(s) =>
      TextRoundTrip(s, rest);
    case Blob(b) =>
      assert t == "X'" + (HexOf(b) + "'" + rest);
      assert t[2..] == HexOf(b) + "'" + rest;
      HexRoundTrip(b, rest);
  }

  lemma NaturalRoundTrip(n: nat, rest: string)
    requires rest == [] || !IsDigit(rest[0])
    ensures ReadNatural(Decimal(n) + rest) == Some(Read(n, rest))
    ensures Decimal(n) != [] && IsDigit((Decimal(n) + rest)[0])
  {
    hide Decimal, Number, DigitRun;
    DecimalRoundTrip(n);
    DigitsStop(Decimal(n), rest);
  }

  lemma IntegerRoundTrip(i: int, rest: string)
    requires rest != [] && (rest[0] == ',' || rest[0] == ')')
    ensures ReadLiteral(Literal(Integer(i)) + rest) == Some(Read(Integer(i), rest))
  {
    hide ReadNatural, ReadCast, ReadBlob, ReadQuoted, Decimal;
    if i < 0 {
      var digits := Decimal(-i);
      NaturalRoundTrip(-i, rest);
      assert Literal(Integer(i)) + rest == "-" + (digits + rest);
      assert ("-" + (digits + rest))[1..] == digits + rest;
    } else {
      NaturalRoundTrip(i, rest);
    }
  }

  lemma TextRoundTrip(s: string, rest: string)
    requires Octets(s) && rest != [] && (rest[0] == ',' || rest[0] == ')')
    ensures ReadLiteral(Literal(Text(s)) + rest) == Some(Read(Text(s), rest))
  {
    if '\0' in s { CastRoundTrip(s, rest); } else {
      hide ReadNatural, ReadCast, ReadBlob, ReadQuoted, Doubled;
      var inside := Doubled(s) + "'" + rest;
      assert Literal(Text(s)) + rest == "'" + inside && ("'" + inside)[1..] == inside;
      QuotedRoundTrip(s, rest);
    }
  }

  lemma CastRoundTrip(s: string, rest: string)
    requires Octets(s) && '\0' in s
    ensures ReadLiteral(Literal(Text(s)) + rest) == Some(Read(Text(s), rest))
  {
    hide ReadHex, HexOf, ReadQuoted, ReadNatural;
    var tail := " AS TEXT)" + rest;
    var inside := HexOf(s) + "'" + tail;
    var t := Literal(Text(s)) + rest;
    assert t == "CAST(X'" + inside && t[7..] == inside;
    HexRoundTrip(s, tail);
    assert tail[9..] == rest;
  }

  predicate StorableRow(row: Row) { row != [] && forall i :: 0 <= i < |row| ==> Storable(row[i]) }

  lemma {:induction false} LiteralsRoundTrip(row: Row, rest: string)
    requires StorableRow(row)
    ensures ReadLiterals(Literals(row) + ")" + rest) == Some(Read(row, rest))
    decreases |row|
  {
    hide Literal, ReadLiteral;
    var t := Literals(row) + ")" + rest;
    if |row| == 1 {
      assert t == Literal(row[0]) + (")" + rest);
      LiteralRoundTrip(row[0], ")" + rest);
      assert (")" + rest)[1..] == rest && row == [row[0]];
    } else {
      var tail := Literals(row[1..]) + ")" + rest;
      assert t == Literal(row[0]) + ("," + tail);
      LiteralRoundTrip(row[0], "," + tail);
      assert ("," + tail)[1..] == tail;
      LiteralsRoundTrip(row[1..], rest);
      assert [row[0]] + row[1..] == row;
    }
  }

  /** A statement gives back its row, octet for octet, however the row's text is punctuated. */
  lemma StatementRoundTrip(prefix: string, row: Row, rest: string)
    requires StorableRow(row)
    ensures ReadStatement(prefix, Statement(prefix, row) + rest) == Some(Read(row, rest))
  {
    hide ReadLiterals, Literals;
    var line := Statement(prefix, row) + rest;
    assert line == prefix + (Literals(row) + ")" + (";" + rest));
    assert line[|prefix|..] == Literals(row) + ")" + (";" + rest);
    LiteralsRoundTrip(row, ";" + rest);
    assert (";" + rest)[1..] == rest;
  }

  /** Different rows of a table print differently. */
  lemma StatementsAreInjective(prefix: string, a: Row, b: Row)
    requires StorableRow(a) && StorableRow(b) && Statement(prefix, a) == Statement(prefix, b)
    ensures a == b
  {
    hide Statement, ReadStatement;
    StatementRoundTrip(prefix, a, []);
    StatementRoundTrip(prefix, b, []);
  }
}
