/** The canonical snapshot of a database: typed cells, and rows sorted by their JSON text. */
module Snapshot {
  import opened Options
  import opened DecimalText
  import opened SqlArchive
  import opened Ordering

  // ---------- Cells ----------

  /** A value as SQLite returns it.  A finite real is named by its exact hexadecimal rendering. */
  datatype Cell = NullCell | IntegerCell(i: int) | RealCell(hex: string) | TextCell(s: string) | BlobCell(b: string)

  datatype Payload = Nothing | Number(n: int) | Str(s: string)

  /** A cell as the snapshot holds it: a type tag and a payload. */
  datatype Encoded = Encoded(tag: string, payload: Payload)

  function LowerHexChar(n: nat): char
    requires n < 16
  {
    if n < 10 then '0' + n as char else 'a' + (n - 10) as char
  }

  function BlobHex(b: string): string {
    if b == [] then [] else [LowerHexChar(b[0] as int / 16 % 16), LowerHexChar(b[0] as int % 16)] + BlobHex(b[1..])
  }

  function EncodeCell(c: Cell): Encoded {
    match c
    case NullCell => Encoded("null", Nothing)
    case IntegerCell(i) => Encoded("integer", Number(i))
    case RealCell(hex) => Encoded("real", Str(hex))
    case TextCell(s) => Encoded("text", Str(s))
    case BlobCell(b) => Encoded("blob", Str(BlobHex(b)))
  }

  lemma LowerHexCharInjective(m: nat, n: nat)
    requires m < 16 && n < 16 && LowerHexChar(m) == LowerHexChar(n)
    ensures m == n
  {
  }

  lemma OctetFromHex(c: char, d: char)
    requires c as int < 256 && d as int < 256
    requires LowerHexChar(c as int / 16 % 16) == LowerHexChar(d as int / 16 % 16)
    requires LowerHexChar(c as int % 16) == LowerHexChar(d as int % 16)
    ensures c == d
  {
    var m, n := c as int, d as int;
    LowerHexCharInjective(m / 16 % 16, n / 16 % 16);
    LowerHexCharInjective(m % 16, n % 16);
    assert m == 16 * (m / 16) + m % 16 && n == 16 * (n / 16) + n % 16;
  }

  lemma OctetsTail(a: string)
    requires Octets(a) && a != []
    ensures Octets(a[1..]) && a[0] as int < 256
  {
    assert a[0] in a;
    forall c | c in a[1..] ensures c as int < 256 { assert c in a; }
  }

  lemma {:induction false} BlobHexInjective(a: string, b: string)
    requires Octets(a) && Octets(b) && BlobHex(a) == BlobHex(b)
    ensures a == b
  {
    hide LowerHexChar, Octets;
    if a != [] && b != [] {
      OctetsTail(a);
      OctetsTail(b);
      assert BlobHex(a)[0] == BlobHex(b)[0] && BlobHex(a)[1] == BlobHex(b)[1];
      OctetFromHex(a[0], b[0]);
      assert BlobHex(a)[2..] == BlobHex(a[1..]) && BlobHex(b)[2..] == BlobHex(b[1..]);
      BlobHexInjective(a[1..], b[1..]);
      assert a == [a[0]] + a[1..] && b == [b[0]] + b[1..];
    }
  }

  /** Different values stay different once typed and encoded. */
  lemma CellsAreInjective(a: Cell, b: Cell)
    requires (a.BlobCell? ==> Octets(a.b)) && (b.BlobCell? ==> Octets(b.b))
    requires EncodeCell(a) == EncodeCell(b)
    ensures a == b
  {
    if a.BlobCell? && b.BlobCell? { BlobHexInjective(a.b, b.b); }
  }

  // ---------- JSON text ----------

  function Hex4(n: nat): string
    requires n < 0x10000
  {
    [LowerHexChar(n / 4096), LowerHexChar(n / 256 % 16), LowerHexChar(n / 16 % 16), LowerHexChar(n % 16)]
  }

  /** A character of a JSON string, escaped to printable ASCII; beyond the basic plane, a surrogate pair. */
  function Escaped(c: char): string {
    var n := c as int;
    if c == '"' then "\\\"" else if c == '\\' then "\\\\"
    else if c == '\n' then "\\n" else if c == '\r' then "\\r" else if c == '\t' then "\\t"
    else if n == 8 then "\\b" else if n == 12 then "\\f"
    else if ' ' <= c <= '~' then [c]
    else if n < 0x10000 then "\\u" + Hex4(n)
    else "\\u" + Hex4(0xD800 + (n - 0x10000) / 0x400) + "\\u" + Hex4(0xDC00 + (n - 0x10000) % 0x400)
  }

  function EscapedText(s: string): string {
    if s == [] then [] else Escaped(s[0]) + EscapedText(s[1..])
  }

  function JsonText(s: string): string { "\"" + EscapedText(s) + "\"" }

  function JsonInt(i: int): string { if i < 0 then "-" + Decimal(-i) else Decimal(i) }

  function JsonPayload(p: Payload): string {
    match p case Nothing => "null" case Number(n) => JsonInt(n) case Str(s) => JsonText(s)
  }

  function JsonCell(e: Encoded): string { "[" + JsonText(e.tag) + "," + JsonPayload(e.payload) + "]" }

  function JsonCells(row: seq<Encoded>): string
    requires row != []
  {
    if |row| == 1 then JsonCell(row[0]) else JsonCell(row[0]) + "," + JsonCells(row[1..])
  }

  function JsonRow(row: seq<Encoded>): string
    requires row != []
  {
    "[" + JsonCells(row) + "]"
  }

  // ---------- Reading it back ----------

  function ValueOfHex(c: char): Option<nat> {
    if '0' <= c <= '9' then Some((c - '0') as nat)
    else if 'a' <= c <= 'f' then Some(10 + (c - 'a') as nat) else None
  }

  function ReadHex4(s: string): Option<nat> {
    if |s| < 4 then None
    else
      match (ValueOfHex(s[0]), ValueOfHex(s[1]), ValueOfHex(s[2]), ValueOfHex(s[3]))
      case (Some(a), Some(b), Some(c), Some(d)) => Some(4096 * a + 256 * b + 16 * c + d)
      case _ => None
  }

  predicate Scalar(n: int) { 0 <= n < 0xD800 || 0xE000 <= n < 0x11_0000 }

  /** One character of a JSON string, and how many characters of text it took. */
  function ReadChar(s: string): Option<(char, nat)> {
    if s == [] || s[0] == '"' then None
    else if s[0] != '\\' then Some((s[0], 1))
    else if |s| < 2 then None
    else
      match s[1]
      case '"' => Some(('"', 2)) case '\\' => Some(('\\', 2))
      case 'n' => Some(('\n', 2)) case 'r' => Some(('\r', 2)) case 't' => Some(('\t', 2))
      case 'b' => Some((8 as char, 2)) case 'f' => Some((12 as char, 2))
      case 'u' =>
        var n := ReadHex4(s[2..]);
        if n == None then None
        else if 0xD800 <= n.value < 0xDC00 then
          if |s| < 12 || s[6..8] != "\\u" || ReadHex4(s[8..]) == None then None
          else
            var low := ReadHex4(s[8..]).value;
            if !(0xDC00 <= low < 0xE000) then None
            else Some(((0x10000 + (n.value - 0xD800) * 0x400 + (low - 0xDC00)) as char, 12))
        else if Scalar(n.value) then Some((n.value as char, 6)) else None
      case _ => None
  }

  /** The inside of a JSON string, up to its closing quote. */
  function ReadText(s: string): Option<Read<string>>
    decreases |s|
  {
    if s != [] && s[0] == '"' then Some(Read([], s[1..]))
    else
      var c := ReadChar(s);
      if c == None || c.value.1 == 0 || c.value.1 > |s| then None
      else
        var more := ReadText(s[c.value.1..]);
        if more == None then None else Some(Read([c.value.0] + more.value.value, more.value.rest))
  }

  function ReadInt(s: string): Option<Read<int>> {
    if s != [] && s[0] == '-' then
      var n := ReadNatural(s[1..]);
      if n == None then None else Some(Read(-(n.value.value as int), n.value.rest))
    else
      var n := ReadNatural(s);
      if n == None then None else Some(Read(n.value.value as int, n.value.rest))
  }

  function ReadPayload(s: string): Option<Read<Payload>> {
    if s != [] && s[0] == 'n' then
      if After(s, "null") == None then None else Some(Read(Nothing, s[4..]))
    else if s != [] && s[0] == '"' then
      var t := ReadText(s[1..]);
      if t == None then None else Some(Read(Str(t.value.value), t.value.rest))
    else
      var n := ReadInt(s);
      if n == None then None else Some(Read(Number(n.value.value), n.value.rest))
  }

  function ReadCell(s: string): Option<Read<Encoded>> {
    if After(s, "[\"") == None then None
    else
      var tag := ReadText(s[2..]);
      if tag == None || After(tag.value.rest, ",") == None then None
      else
        var p := ReadPayload(tag.value.rest[1..]);
        if p == None || After(p.value.rest, "]") == None then None
        else Some(Read(Encoded(tag.value.value, p.value.value), p.value.rest[1..]))
  }

  function ReadCells(s: string): Option<Read<seq<Encoded>>>
    decreases |s|
  {
    var first := ReadCell(s);
    if first == None || first.value.rest == [] || |first.value.rest| > |s| then None
    else
      var e, rest := first.value.value, first.value.rest;
      if rest[0] == ']' then Some(Read([e], rest[1..]))
      else if rest[0] == ',' then
        var more := ReadCells(rest[1..]);
        if more == None then None else Some(Read([e] + more.value.value, more.value.rest))
      else None
  }

  lemma LowerHexRoundTrip(n: nat)
    requires n < 16
    ensures ValueOfHex(LowerHexChar(n)) == Some(n)
  {
  }

  lemma Hex4RoundTrip(n: nat, rest: string)
    requires n < 0x10000
    ensures ReadHex4(Hex4(n) + rest) == Some(n)
  {
    hide ValueOfHex, LowerHexChar;
    var a, b, c, d := n / 4096, n / 256 % 16, n / 16 % 16, n % 16;
    FourDigits(n);
    LowerHexRoundTrip(a);
    LowerHexRoundTrip(b);
    LowerHexRoundTrip(c);
    LowerHexRoundTrip(d);
    var t := Hex4(n) + rest;
    assert t[0] == LowerHexChar(a) && t[1] == LowerHexChar(b) && t[2] == LowerHexChar(c) && t[3] == LowerHexChar(d);
  }

  lemma FourDigits(n: nat)
    requires n < 0x10000
    ensures n / 4096 < 16 && n == 4096 * (n / 4096) + 256 * (n / 256 % 16) + 16 * (n / 16 % 16) + n % 16
  {
    assert n == 16 * (n / 16) + n % 16;
    assert n / 16 == 16 * (n / 16 / 16) + n / 16 % 16 && n / 16 / 16 == n / 256;
    assert n / 256 == 16 * (n / 256 / 16) + n / 256 % 16 && n / 256 / 16 == n / 4096;
  }

  /** Every character reads back from its escape, whatever follows. */
  lemma CharRoundTrip(c: char, rest: string)
    ensures Escaped(c) != [] && ReadChar(Escaped(c) + rest) == Some((c, |Escaped(c)|))
    ensures Escaped(c)[0] != '"'
  {
    hide ReadHex4, Hex4;
    var n, t := c as int, Escaped(c) + rest;
    if n >= 0x10000 {
      PairRoundTrip(c, rest);
    } else if !(' ' <= c <= '~') && c != '\n' && c != '\r' && c != '\t' && n != 8 && n != 12 {
      ShortRoundTrip(c, rest);
    }
  }

  lemma ShortRoundTrip(c: char, rest: string)
    requires c as int < 0x10000 && !(' ' <= c <= '~') && c != '\n' && c != '\r' && c != '\t' && c as int != 8 && c as int != 12
    ensures ReadChar(Escaped(c) + rest) == Some((c, |Escaped(c)|)) && |Escaped(c)| == 6
  {
    hide ReadHex4;
    var n, t := c as int, Escaped(c) + rest;
    assert t[2..] == Hex4(n) + rest;
    Hex4RoundTrip(n, rest);
  }

  function High(n: int): nat
    requires 0x10000 <= n < 0x11_0000
  {
    0xD800 + (n - 0x10000) / 0x400
  }

  function Low(n: int): nat
    requires 0x10000 <= n < 0x11_0000
  {
    0xDC00 + (n - 0x10000) % 0x400
  }

  lemma SurrogatesJoin(n: int)
    requires 0x10000 <= n < 0x11_0000
    ensures 0xD800 <= High(n) < 0xDC00 <= Low(n) < 0xE000
    ensures 0x10000 + (High(n) - 0xD800) * 0x400 + (Low(n) - 0xDC00) == n
  {
  }

  lemma PairRoundTrip(c: char, rest: string)
    requires c as int >= 0x10000
    ensures ReadChar(Escaped(c) + rest) == Some((c, |Escaped(c)|)) && |Escaped(c)| == 12
  {
    var n := c as int;
    SurrogatesJoin(n);
    var high, low := High(n), Low(n);
    assert Escaped(c) == "\\u" + Hex4(high) + "\\u" + Hex4(low);
    PairReads(high, low, rest);
  }

  lemma PairReads(high: nat, low: nat, rest: string)
    requires 0xD800 <= high < 0xDC00 <= low < 0xE000
    ensures |Hex4(high)| == |Hex4(low)| == 4
    ensures ReadChar("\\u" + Hex4(high) + "\\u" + Hex4(low) + rest)
            == Some(((0x10000 + (high - 0xD800) * 0x400 + (low - 0xDC00)) as char, 12))
  {
    assert |Hex4(high)| == |Hex4(low)| == 4;
    hide ReadHex4, Hex4;
    var tail := "\\u" + Hex4(low) + rest;
    var t := "\\u" + Hex4(high) + "\\u" + Hex4(low) + rest;
    assert t[2..] == Hex4(high) + tail;
    Hex4RoundTrip(high, tail);
    assert t[6..8] == "\\u" && t[8..] == Hex4(low) + rest;
    Hex4RoundTrip(low, rest);
  }

  lemma {:induction false} TextRoundTrips(s: string, rest: string)
    ensures ReadText(EscapedText(s) + "\"" + rest) == Some(Read(s, rest))
    decreases |s|
  {
    hide Escaped, ReadChar;
    var t := EscapedText(s) + "\"" + rest;
    if s == [] {
      assert t == "\"" + rest && t[1..] == rest;
    } else {
      var more := EscapedText(s[1..]) + "\"" + rest;
      assert t == Escaped(s[0]) + more;
      CharRoundTrip(s[0], more);
      assert t[|Escaped(s[0])|..] == more;
      TextRoundTrips(s[1..], rest);
      assert [s[0]] + s[1..] == s;
    }
  }

  lemma PayloadRoundTrip(p: Payload, rest: string)
    requires rest != [] && rest[0] == ']'
    ensures ReadPayload(JsonPayload(p) + rest) == Some(Read(p, rest))
  {
    match p
    case Nothing => assert ("null" + rest)[4..] == rest;
    case Number(n) => IntRoundTrip(n, rest);
    case Str(s) =>
      var inside := EscapedText(s) + "\"" + rest;
      assert JsonText(s) + rest == "\"" + inside && ("\"" + inside)[1..] == inside;
      TextRoundTrips(s, rest);
  }

  lemma IntRoundTrip(i: int, rest: string)
    requires rest == [] || !IsDigit(rest[0])
    ensures ReadInt(JsonInt(i) + rest) == Some(Read(i, rest))
    ensures JsonInt(i) != [] && (IsDigit((JsonInt(i) + rest)[0]) || (JsonInt(i) + rest)[0] == '-')
  {
    hide ReadNatural, Decimal;
    if i < 0 {
      NaturalRoundTrip(-i, rest);
      assert JsonInt(i) + rest == "-" + (Decimal(-i) + rest);
      assert ("-" + (Decimal(-i) + rest))[1..] == Decimal(-i) + rest;
    } else {
      NaturalRoundTrip(i, rest);
    }
  }

  lemma CellRoundTrip(e: Encoded, rest: string)
    ensures ReadCell(JsonCell(e) + rest) == Some(Read(e, rest))
  {
    hide EscapedText, ReadText, JsonPayload, ReadPayload;
    var after := "]" + rest;
    var second := JsonPayload(e.payload) + after;
    var first := EscapedText(e.tag) + "\"" + ("," + second);
    var t := JsonCell(e) + rest;
    assert t == "[\"" + first && t[2..] == first;
    TextRoundTrips(e.tag, "," + second);
    assert ("," + second)[1..] == second;
    PayloadRoundTrip(e.payload, after);
    assert after[1..] == rest;
  }

  lemma {:induction false} CellsRoundTrip(row: seq<Encoded>, rest: string)
    requires row != []
    ensures ReadCells(JsonCells(row) + "]" + rest) == Some(Read(row, rest))
    decreases |row|
  {
    hide JsonCell, ReadCell;
    var t := JsonCells(row) + "]" + rest;
    if |row| == 1 {
      assert t == JsonCell(row[0]) + ("]" + rest);
      CellRoundTrip(row[0], "]" + rest);
      assert ("]" + rest)[1..] == rest && row == [row[0]];
    } else {
      var tail := JsonCells(row[1..]) + "]" + rest;
      assert t == JsonCell(row[0]) + ("," + tail);
      CellRoundTrip(row[0], "," + tail);
      assert ("," + tail)[1..] == tail;
      CellsRoundTrip(row[1..], rest);
      assert [row[0]] + row[1..] == row;
    }
  }
}
