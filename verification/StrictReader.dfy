/** The strict HTTP/1.1 response reader: one bounded header block, one explicit body framing, nothing
    accepted unless it ends with its own terminator (sections 6.3 and 7.1 of RFC 9112).  Octets are
    characters; the parser is a function of the octets the peer sends before it closes. */
module StrictReader {
  import opened Options
  import opened DecimalText

  type Bytes = string

  datatype Parse<+T> = Got(value: T, rest: Bytes) | Refused

  datatype Field = Field(name: Bytes, value: Bytes)

  datatype Message = Message(status: nat, fields: seq<Field>, body: Bytes)

  const LINE_LIMIT: nat := 65_537
  const BLOCK_LIMIT: nat := 65_536
  const CRLF: Bytes := "\r\n"

  // ---------- Lines ----------

  /** What a bounded readline returns: up to and including the first newline, or the limit, or the end. */
  function Line(t: Bytes, limit: nat): (line: Bytes)
    ensures |line| <= |t| && line == t[..|line|] && |line| <= limit
  {
    if t == [] || limit == 0 then [] else if t[0] == '\n' then [t[0]] else [t[0]] + Line(t[1..], limit - 1)
  }

  predicate EndsLine(line: Bytes) { |line| >= 2 && line[|line| - 2..] == CRLF }

  predicate OneLine(line: Bytes) {
    EndsLine(line) && forall i :: 0 <= i < |line| - 1 ==> line[i] != '\n'
  }

  /** A complete line is read as it is, whatever follows. */
  lemma {:induction false} CompleteLine(line: Bytes, rest: Bytes, limit: nat)
    requires line != [] && line[|line| - 1] == '\n' && (forall i :: 0 <= i < |line| - 1 ==> line[i] != '\n')
    requires |line| <= limit
    ensures Line(line + rest, limit) == line
  {
    if line[0] != '\n' {
      assert (line + rest)[1..] == line[1..] + rest;
      CompleteLine(line[1..], rest, limit - 1);
    }
  }

  /** A line that came back terminated does not change when more octets follow. */
  lemma {:induction false} LineStable(t: Bytes, u: Bytes, limit: nat)
    requires EndsLine(Line(t, limit))
    ensures Line(t + u, limit) == Line(t, limit)
  {
    var line := Line(t, limit);
    LineHasOneNewline(t, limit);
    assert t + u == line + (t[|line|..] + u);
    CompleteLine(line, t[|line|..] + u, limit);
  }

  lemma {:induction false} LineHasOneNewline(t: Bytes, limit: nat)
    ensures forall i :: 0 <= i < |Line(t, limit)| - 1 ==> Line(t, limit)[i] != '\n'
  {
    if t != [] && limit > 0 && t[0] != '\n' { LineHasOneNewline(t[1..], limit - 1); }
  }

  // ---------- Line grammars ----------

  predicate StatusLine(line: Bytes) {
    && |line| >= 14 && line[..7] == "HTTP/1." && (line[7] == '0' || line[7] == '1') && line[8] == ' '
    && '2' <= line[9] <= '5' && IsDigit(line[10]) && IsDigit(line[11])
    && EndsLine(line)
    && (|line| > 14 ==> line[12] == ' ')
    && forall i :: 12 <= i < |line| - 2 ==> line[i] == '\t' || ' ' <= line[i] <= '~'
  }

  function StatusOf(line: Bytes): nat
    requires StatusLine(line)
  {
    100 * DigitValue(line[9]) + 10 * DigitValue(line[10]) + DigitValue(line[11])
  }

  predicate TokenChar(c: char) {
    IsDigit(c) || 'A' <= c <= 'Z' || 'a' <= c <= 'z' || c in "!#$%&'*+.^_`|~-"
  }

  function LowerChar(c: char): char { if 'A' <= c <= 'Z' then c - 'A' + 'a' else c }

  function Lower(s: Bytes): (l: Bytes)
    ensures |l| == |s|
  {
    seq(|s|, i requires 0 <= i < |s| => LowerChar(s[i]))
  }

  function TokenLength(s: Bytes): (n: nat)
    ensures n <= |s|
  {
    if s == [] || !TokenChar(s[0]) then 0 else 1 + TokenLength(s[1..])
  }

  function SkipBlanks(s: Bytes): (r: Bytes) {
    if s != [] && (s[0] == ' ' || s[0] == '\t') then SkipBlanks(s[1..]) else s
  }

  predicate ValueText(s: Bytes) { forall c :: c in s ==> c == '\t' || (c >= ' ' && c != '\U{7F}') }

  /** One raw field line: a token, a colon, blanks, and a value without control characters. */
  function Header(line: Bytes): Option<Field> {
    var n := TokenLength(line);
    if n == 0 || n + 3 > |line| || line[n] != ':' || !EndsLine(line) then None
    else
      var value := SkipBlanks(line[n + 1..|line| - 2]);
      if ValueText(value) then Some(Field(Lower(line[..n]), value)) else None
  }

  predicate HexDigit(c: char) { IsDigit(c) || 'a' <= c <= 'f' || 'A' <= c <= 'F' }

  function HexValue(c: char): (v: nat)
    requires HexDigit(c)
    ensures v < 16
  {
    if IsDigit(c) then (c - '0') as nat else if 'a' <= c <= 'f' then 10 + (c - 'a') as nat else 10 + (c - 'A') as nat
  }

  function HexLength(s: Bytes): (n: nat)
    ensures n <= |s| && forall i :: 0 <= i < n ==> HexDigit(s[i])
  {
    if s == [] || !HexDigit(s[0]) then 0 else 1 + HexLength(s[1..])
  }

  function HexNumber(s: Bytes): nat
    requires forall i :: 0 <= i < |s| ==> HexDigit(s[i])
  {
    if s == [] then 0 else 16 * HexNumber(s[..|s| - 1]) + HexValue(s[|s| - 1])
  }

  /** A chunk-size line: hexadecimal digits, optionally an extension that stays on the line. */
  function ChunkSize(line: Bytes): Option<nat> {
    var n := HexLength(line);
    if |line| > BLOCK_LIMIT || n == 0 || n + 2 > |line| || !EndsLine(line) then None
    else if n + 2 == |line| || (line[n] == ';' && forall i :: n < i < |line| - 2 ==> line[i] != '\r' && line[i] != '\n')
    then Some(HexNumber(line[..n])) else None
  }

  predicate LengthText(s: Bytes) { 1 <= |s| <= 10 && forall i :: 0 <= i < |s| ==> IsDigit(s[i]) }

  // ---------- The header block ----------

  predicate Named(fields: seq<Field>, name: Bytes) { exists i :: 0 <= i < |fields| && fields[i].name == name }

  function Lookup(fields: seq<Field>, name: Bytes): Option<Bytes> {
    if fields == [] then None else if fields[0].name == name then Some(fields[0].value) else Lookup(fields[1..], name)
  }

  /** The header loop: every raw line counts against the block's size and number limits, a Set-Cookie
      line may be dropped, and any other repeated name is refused. */
  function Headers(t: Bytes, discard: bool, fields: seq<Field>, total: nat, count: nat): Parse<seq<Field>>
    decreases |t|
  {
    var line := Line(t, LINE_LIMIT);
    if total + |line| > BLOCK_LIMIT || count >= 100 then Refused
    else if line == CRLF then Got(fields, t[2..])
    else
      var h := Header(line);
      if h == None then Refused
      else if discard && h.value.name == "set-cookie" then Headers(t[|line|..], discard, fields, total + |line|, count + 1)
      else if Named(fields, h.value.name) then Refused
      else Headers(t[|line|..], discard, fields + [h.value], total + |line|, count + 1)
  }

  datatype Head = Head(status: nat, fields: seq<Field>)

  function Begin(t: Bytes, discard: bool): Parse<Head> {
    var line := Line(t, LINE_LIMIT);
    if !StatusLine(line) || StatusOf(line) in {204, 205, 304} then Refused
    else
      match Headers(t[|line|..], discard, [], |line|, 0)
      case Refused => Refused
      case Got(fields, rest) => Got(Head(StatusOf(line), fields), rest)
  }

  // ---------- Bodies ----------

  const TRAILER_REFUSED: set<Bytes> := {
    "content-length", "transfer-encoding", "content-encoding", "content-type", "host", "authorization",
    "location", "connection", "trailer", "cache-control"}

  function Trailer(t: Bytes, names: set<Bytes>, total: nat): Parse<()>
    decreases |t|
  {
    var line := Line(t, LINE_LIMIT);
    if line == CRLF then Got((), t[2..])
    else if total + |line| > BLOCK_LIMIT || |names| >= 100 then Refused
    else
      var h := Header(line);
      if h == None || h.value.name in names || h.value.name in TRAILER_REFUSED then Refused
      else Trailer(t[|line|..], names + {h.value.name}, total + |line|)
  }

  /** One chunk: malformed or cut short; the last, with its trailer; the final part of what was asked
      for; or a whole chunk with its separator. */
  datatype Chunk = Bad | Last(rest: Bytes) | Final(data: Bytes, rest: Bytes) | Part(data: Bytes, rest: Bytes)

  function NextChunk(t: Bytes, amount: nat): (c: Chunk)
    ensures c.Part? ==> |c.rest| < |t| && |c.data| < amount
  {
    var line := Line(t, LINE_LIMIT);
    var size := ChunkSize(line);
    if size == None then Bad
    else
      var rest := t[|line|..];
      if size.value == 0 then
        var trailer := Trailer(rest, {}, 0);
        if trailer.Refused? then Bad else Last(trailer.rest)
      else ChunkData(rest, size.value, amount)
  }

  /** What follows a size line: the octets, and their separator unless they complete what was asked for. */
  function ChunkData(rest: Bytes, size: nat, amount: nat): (c: Chunk)
    requires size > 0
    ensures c.Part? ==> |c.rest| < |rest| && |c.data| < amount
    ensures !c.Last?
  {
    if amount <= size then
      if |rest| < amount then Bad else Final(rest[..amount], rest[amount..])
    else if |rest| < size + 2 || rest[size..size + 2] != CRLF then Bad
    else Part(rest[..size], rest[size + 2..])
  }

  /** The chunked body, at most `amount` octets of it. */
  function Chunked(t: Bytes, amount: nat): Parse<Bytes>
    decreases |t|
  {
    match NextChunk(t, amount)
    case Bad => Refused
    case Last(rest) => Got([], rest)
    case Final(data, rest) => Got(data, rest)
    case Part(data, rest) =>
      var more := Chunked(rest, amount - |data|);
      if more.Refused? then Refused else Got(data + more.value, more.rest)
  }

  datatype Framing = ByLength(n: nat) | ByChunks | NoFraming

  /** The one framing of an acceptable head. */
  function FramingOf(head: Head, maximum: nat): Framing {
    var length, transfer := Lookup(head.fields, "content-length"), Lookup(head.fields, "transfer-encoding");
    if (length.Some? && transfer.Some?) || (transfer.Some? && Lower(transfer.value) != "chunked")
       || (length.Some? && !LengthText(length.value))
       || (Lookup(head.fields, "content-encoding").Some? && Lower(Lookup(head.fields, "content-encoding").value) != "identity")
       || Lookup(head.fields, "location").Some? || 300 <= head.status < 400
    then NoFraming
    else if transfer.Some? then ByChunks
    else if length.Some? && Number(length.value) <= maximum then ByLength(Number(length.value))
    else NoFraming
  }

  function Body(t: Bytes, framing: Framing, maximum: nat): Parse<Bytes> {
    match framing
    case NoFraming => Refused
    case ByLength(n) => if |t| < n then Refused else Got(t[..n], t[n..])
    case ByChunks =>
      match Chunked(t, maximum + 1)
      case Refused => Refused
      case Got(body, rest) => if |body| > maximum then Refused else Got(body, rest)
  }

  /** The whole response, and whatever the peer sent after it. */
  function Response(t: Bytes, discard: bool, maximum: nat): Parse<Message> {
    match Begin(t, discard)
    case Refused => Refused
    case Got(head, rest) =>
      match Body(rest, FramingOf(head, maximum), maximum)
      case Refused => Refused
      case Got(body, end) => Got(Message(head.status, head.fields, body), end)
  }

  // ---------- Acceptance is prefix-free ----------

  lemma AcceptedLinesEnd(line: Bytes)
    ensures Header(line).Some? || line == CRLF || ChunkSize(line).Some? || StatusLine(line) ==> EndsLine(line)
  {
  }

  /** The shared first step: an accepted line is the same line when more follows, and so is what it leaves. */
  lemma StepStable(t: Bytes, u: Bytes)
    requires var line := Line(t, LINE_LIMIT);
             Header(line).Some? || line == CRLF || ChunkSize(line).Some? || StatusLine(line)
    ensures Line(t + u, LINE_LIMIT) == Line(t, LINE_LIMIT) && |Line(t, LINE_LIMIT)| > 0
    ensures (t + u)[|Line(t, LINE_LIMIT)|..] == t[|Line(t, LINE_LIMIT)|..] + u
  {
    hide Header, ChunkSize, StatusLine;
    AcceptedLinesEnd(Line(t, LINE_LIMIT));
    LineStable(t, u, LINE_LIMIT);
  }

  lemma {:induction false} HeadersStable(t: Bytes, u: Bytes, discard: bool, fields: seq<Field>, total: nat, count: nat)
    requires Headers(t, discard, fields, total, count).Got?
    ensures Headers(t + u, discard, fields, total, count)
            == Got(Headers(t, discard, fields, total, count).value, Headers(t, discard, fields, total, count).rest + u)
    decreases |t|
  {
    hide Line, Header, Named;
    var line := Line(t, LINE_LIMIT);
    StepStable(t, u);
    if line == CRLF {
      assert (t + u)[2..] == t[2..] + u;
    } else {
      var h := Header(line).value;
      HeadersStable(t[|line|..], u, discard, if discard && h.name == "set-cookie" then fields else fields + [h],
                    total + |line|, count + 1);
    }
  }

  lemma {:induction false} TrailerStable(t: Bytes, u: Bytes, names: set<Bytes>, total: nat)
    requires Trailer(t, names, total).Got?
    ensures Trailer(t + u, names, total) == Got((), Trailer(t, names, total).rest + u)
    decreases |t|
  {
    hide Line, Header;
    var line := Line(t, LINE_LIMIT);
    StepStable(t, u);
    if line == CRLF {
      assert (t + u)[2..] == t[2..] + u;
    } else {
      TrailerStable(t[|line|..], u, names + {Header(line).value.name}, total + |line|);
    }
  }

  lemma NextChunkStable(t: Bytes, u: Bytes, amount: nat)
    requires !NextChunk(t, amount).Bad?
    ensures NextChunk(t + u, amount) == NextChunk(t, amount).(rest := NextChunk(t, amount).rest + u)
  {
    hide Line, ChunkSize, Trailer;
    var line := Line(t, LINE_LIMIT);
    StepStable(t, u);
    var rest, size := t[|line|..], ChunkSize(line).value;
    if size == 0 {
      TrailerStable(rest, u, {}, 0);
    } else if amount <= size {
      PrefixStable(rest, u, amount);
    } else {
      PrefixStable(rest, u, size);
      PrefixStable(rest, u, size + 2);
      assert (rest + u)[size..size + 2] == rest[size..size + 2];
    }
  }

  lemma PrefixStable(t: Bytes, u: Bytes, n: nat)
    requires n <= |t|
    ensures (t + u)[..n] == t[..n] && (t + u)[n..] == t[n..] + u
  {
  }

  lemma {:induction false} ChunkedStable(t: Bytes, u: Bytes, amount: nat)
    requires Chunked(t, amount).Got?
    ensures Chunked(t + u, amount) == Got(Chunked(t, amount).value, Chunked(t, amount).rest + u)
    decreases |t|
  {
    hide NextChunk;
    NextChunkStable(t, u, amount);
    var chunk := NextChunk(t, amount);
    if chunk.Part? { ChunkedStable(chunk.rest, u, amount - |chunk.data|); }
  }

  lemma BeginStable(t: Bytes, u: Bytes, discard: bool)
    requires Begin(t, discard).Got?
    ensures Begin(t + u, discard) == Got(Begin(t, discard).value, Begin(t, discard).rest + u)
  {
    hide Line, StatusLine, StatusOf, Headers;
    var line := Line(t, LINE_LIMIT);
    StepStable(t, u);
    HeadersStable(t[|line|..], u, discard, [], |line|, 0);
  }

  /** Octets after an accepted response change nothing in it. */
  lemma ResponseStable(t: Bytes, u: Bytes, discard: bool, maximum: nat)
    requires Response(t, discard, maximum).Got?
    ensures Response(t + u, discard, maximum)
            == Got(Response(t, discard, maximum).value, Response(t, discard, maximum).rest + u)
  {
    hide Begin, FramingOf, Chunked;
    BeginStable(t, u, discard);
    var head, rest := Begin(t, discard).value, Begin(t, discard).rest;
    match FramingOf(head, maximum)
    case ByLength(n) => assert (rest + u)[..n] == rest[..n] && (rest + u)[n..] == rest[n..] + u;
    case ByChunks => ChunkedStable(rest, u, maximum + 1);
  }

  /** A response cut anywhere before the last octet of its own framing is refused. */
  lemma TruncationIsRefused(t: Bytes, discard: bool, maximum: nat, k: nat)
    requires Response(t, discard, maximum).Got? && k < |t| - |Response(t, discard, maximum).rest|
    ensures Response(t[..k], discard, maximum).Refused?
  {
    hide Response;
    if Response(t[..k], discard, maximum).Got? {
      assert t[..k] + t[k..] == t;
      ResponseStable(t[..k], t[k..], discard, maximum);
    }
  }

  // ---------- Header blocks line by line ----------

  /** A raw line the header loop can accept. */
  predicate FieldLine(line: Bytes) { OneLine(line) && Header(line).Some? }

  predicate FieldLines(lines: seq<Bytes>) { forall i :: 0 <= i < |lines| ==> FieldLine(lines[i]) }

  function Block(lines: seq<Bytes>): (b: Bytes)
    ensures |b| >= 2
  {
    if lines == [] then CRLF else lines[0] + Block(lines[1..])
  }

  predicate IsCookie(line: Bytes) { Header(line).Some? && Header(line).value.name == "set-cookie" }

  /** The fields of a block: each line in order, unless dropped; nothing when a name repeats. */
  function FieldsOf(lines: seq<Bytes>, discard: bool, fields: seq<Field>): Option<seq<Field>>
    requires FieldLines(lines)
  {
    if lines == [] then Some(fields)
    else
      var h := Header(lines[0]).value;
      if discard && h.name == "set-cookie" then FieldsOf(lines[1..], discard, fields)
      else if Named(fields, h.name) then None
      else FieldsOf(lines[1..], discard, fields + [h])
  }

  lemma FieldLineIsRead(line: Bytes, rest: Bytes)
    requires FieldLine(line) && |line| <= LINE_LIMIT
    ensures Line(line + rest, LINE_LIMIT) == line && (line + rest)[|line|..] == rest && line != CRLF
  {
    CompleteLine(line, rest, LINE_LIMIT);
    assert TokenLength(CRLF) == 0;
  }

  lemma BlankIsRead(rest: Bytes)
    ensures Line(CRLF + rest, LINE_LIMIT) == CRLF && (CRLF + rest)[2..] == rest
  {
    CompleteLine(CRLF, rest, LINE_LIMIT);
  }

  /** The header loop on a block within the limits: exactly its fields, and what follows the block. */
  lemma {:induction false} HeadersOfBlock(lines: seq<Bytes>, rest: Bytes, discard: bool, fields: seq<Field>, total: nat, count: nat)
    requires FieldLines(lines) && total + |Block(lines)| <= BLOCK_LIMIT && count + |lines| <= 99
    ensures Headers(Block(lines) + rest, discard, fields, total, count)
            == (match FieldsOf(lines, discard, fields) case None => Refused case Some(f) => Got(f, rest))
    decreases |lines|
  {
    hide Line, Header, Named;
    if lines == [] {
      BlankIsRead(rest);
    } else {
      var line, more := lines[0], lines[1..];
      var h := Header(line).value;
      assert Block(lines) + rest == line + (Block(more) + rest);
      FieldLineIsRead(line, Block(more) + rest);
      if discard && h.name == "set-cookie" {
        HeadersOfBlock(more, rest, discard, fields, total + |line|, count + 1);
      } else if !Named(fields, h.name) {
        HeadersOfBlock(more, rest, discard, fields + [h], total + |line|, count + 1);
      }
    }
  }

  predicate Distinct(fields: seq<Field>) {
    forall i, j :: 0 <= i < j < |fields| ==> fields[i].name != fields[j].name
  }

  lemma DistinctGrows(fields: seq<Field>, h: Field)
    requires Distinct(fields)
    ensures !Named(fields, h.name) ==> Distinct(fields + [h])
  {
  }

  /** Every accepted block is a sequence of field lines, at most 99 of them, ending with a blank line,
      within 65,536 octets counting the status line; the names kept are distinct. */
  lemma {:induction false} AcceptedBlock(t: Bytes, discard: bool, fields: seq<Field>, total: nat, count: nat) returns (lines: seq<Bytes>)
    requires Headers(t, discard, fields, total, count).Got? && Distinct(fields)
    ensures FieldLines(lines) && count + |lines| <= 99
    ensures t == Block(lines) + Headers(t, discard, fields, total, count).rest
    ensures total + |Block(lines)| <= BLOCK_LIMIT
    ensures FieldsOf(lines, discard, fields) == Some(Headers(t, discard, fields, total, count).value)
    ensures Distinct(Headers(t, discard, fields, total, count).value)
    decreases |t|
  {
    hide Line, Header, Named, Distinct, FieldLine, Headers, FieldsOf, IsCookie;
    var line := Line(t, LINE_LIMIT);
    AcceptedStep(t, discard, fields, total, count);
    if line == CRLF {
      lines := [];
      NoFields(discard, fields);
      assert t == CRLF + t[2..];
    } else {
      AcceptedLine(t);
      DistinctGrows(fields, Header(line).value);
      var next := Added(fields, line, discard);
      var more := AcceptedBlock(t[|line|..], discard, next, total + |line|, count + 1);
      lines := [line] + more;
      assert lines[1..] == more;
      FieldsOfNext(line, more, discard, fields);
    }
  }

  /** The fields after one more line. */
  function Added(fields: seq<Field>, line: Bytes, discard: bool): seq<Field>
    requires Header(line).Some?
  {
    if discard && IsCookie(line) then fields else fields + [Header(line).value]
  }

  /** What the header loop must have seen to accept. */
  lemma AcceptedStep(t: Bytes, discard: bool, fields: seq<Field>, total: nat, count: nat)
    requires Headers(t, discard, fields, total, count).Got?
    ensures var line := Line(t, LINE_LIMIT);
            && total + |line| <= BLOCK_LIMIT && count <= 99
            && (line == CRLF ==> Headers(t, discard, fields, total, count) == Got(fields, t[2..]))
            && (line != CRLF ==>
                  && Header(line).Some? && ((discard && IsCookie(line)) || !Named(fields, Header(line).value.name))
                  && Headers(t[|line|..], discard, Added(fields, line, discard), total + |line|, count + 1)
                     == Headers(t, discard, fields, total, count))
  {
    hide Line, Header, Named;
  }

  lemma NoFields(discard: bool, fields: seq<Field>)
    ensures FieldsOf([], discard, fields) == Some(fields)
  {
  }

  lemma FieldsOfNext(line: Bytes, more: seq<Bytes>, discard: bool, fields: seq<Field>)
    requires FieldLine(line) && FieldLines([line] + more) && FieldLines(more)
    requires (discard && IsCookie(line)) || !Named(fields, Header(line).value.name)
    ensures FieldsOf([line] + more, discard, fields) == FieldsOf(more, discard, Added(fields, line, discard))
  {
    hide Header, Named;
    assert ([line] + more)[1..] == more;
  }

  lemma AcceptedLine(t: Bytes)
    requires Header(Line(t, LINE_LIMIT)).Some?
    ensures FieldLine(Line(t, LINE_LIMIT)) && |Line(t, LINE_LIMIT)| > 0
    ensures t == Line(t, LINE_LIMIT) + t[|Line(t, LINE_LIMIT)|..]
  {
    hide Line, Header;
    AcceptedLinesEnd(Line(t, LINE_LIMIT));
    LineHasOneNewline(t, LINE_LIMIT);
  }

  // ---------- Cookies ----------

  function WithoutCookies(lines: seq<Bytes>): seq<Bytes> {
    if lines == [] then [] else (if IsCookie(lines[0]) then [] else [lines[0]]) + WithoutCookies(lines[1..])
  }

  lemma {:induction false} CookiesAreDropped(lines: seq<Bytes>, fields: seq<Field>)
    requires FieldLines(lines)
    ensures FieldLines(WithoutCookies(lines))
    ensures FieldsOf(lines, true, fields) == FieldsOf(WithoutCookies(lines), true, fields)
    decreases |lines|
  {
    hide Header, Named;
    if lines != [] {
      var kept, more := WithoutCookies(lines), WithoutCookies(lines[1..]);
      CookiesAreDropped(lines[1..], fields);
      if IsCookie(lines[0]) {
        assert kept == more;
      } else {
        assert kept == [lines[0]] + more && kept[1..] == more;
        CookiesAreDropped(lines[1..], fields + [Header(lines[0]).value]);
        assert FieldsOf(kept, true, fields)
            == (if Named(fields, Header(lines[0]).value.name) then None
                else FieldsOf(more, true, fields + [Header(lines[0]).value]));
      }
    }
  }

  /** With cookies discarded, two blocks that differ only in their Set-Cookie lines, wherever these stand
      and however many there are within the limits, are read alike. */
  lemma CookiesChangeNothing(status: Bytes, lines: seq<Bytes>, others: seq<Bytes>, rest: Bytes)
    requires OneLine(status) && StatusLine(status)
    requires FieldLines(lines) && |status| + |Block(lines)| <= BLOCK_LIMIT && |lines| <= 99
    requires FieldLines(others) && |status| + |Block(others)| <= BLOCK_LIMIT && |others| <= 99
    requires WithoutCookies(lines) == WithoutCookies(others)
    ensures Begin(status + Block(lines) + rest, true) == Begin(status + Block(others) + rest, true)
  {
    hide Headers, StatusLine, FieldsOf, WithoutCookies, Line;
    BeginOfBlock(status, lines, rest, true);
    BeginOfBlock(status, others, rest, true);
    CookiesAreDropped(lines, []);
    CookiesAreDropped(others, []);
  }

  lemma BeginOfBlock(status: Bytes, lines: seq<Bytes>, rest: Bytes, discard: bool)
    requires OneLine(status) && StatusLine(status)
    requires FieldLines(lines) && |status| + |Block(lines)| <= BLOCK_LIMIT && |lines| <= 99
    ensures Begin(status + Block(lines) + rest, discard)
            == (if StatusOf(status) in {204, 205, 304} then Refused
                else match FieldsOf(lines, discard, []) case None => Refused case Some(f) => Got(Head(StatusOf(status), f), rest))
  {
    hide Headers, StatusLine, StatusOf, FieldsOf, Line;
    assert status + Block(lines) + rest == status + (Block(lines) + rest);
    CompleteLine(status, Block(lines) + rest, LINE_LIMIT);
    HeadersOfBlock(lines, rest, discard, [], |status|, 0);
  }

  // ---------- Round trips ----------

  function HexChar(n: nat): (c: char)
    requires n < 16
    ensures HexDigit(c) && HexValue(c) == n
  {
    if n < 10 then '0' + n as char else 'a' + (n - 10) as char
  }

  function Hex(n: nat): Bytes {
    if n < 16 then [HexChar(n)] else Hex(n / 16) + [HexChar(n % 16)]
  }

  lemma {:induction false} HexRoundTrip(n: nat)
    ensures |Hex(n)| > 0 && (forall i :: 0 <= i < |Hex(n)| ==> HexDigit(Hex(n)[i]))
    ensures HexNumber(Hex(n)) == n
  {
    if n < 16 {
      assert HexNumber([]) == 0 && Hex(n)[..0] == [];
    } else {
      HexRoundTrip(n / 16);
      assert Hex(n)[..|Hex(n)| - 1] == Hex(n / 16);
    }
  }

  lemma {:induction false} HexIsShort(n: nat)
    ensures |Hex(n)| <= 2 + n / 256
  {
    if n >= 16 { HexIsShort(n / 16); }
  }

  lemma {:induction false} HexRun(s: Bytes, rest: Bytes)
    requires (forall i :: 0 <= i < |s| ==> HexDigit(s[i])) && (rest == [] || !HexDigit(rest[0]))
    ensures HexLength(s + rest) == |s|
  {
    if s != [] {
      assert (s + rest)[1..] == s[1..] + rest;
      HexRun(s[1..], rest);
    } else {
      assert s + rest == rest;
    }
  }

  /** A chunk as sent: a size line, perhaps with an extension, and its octets. */
  datatype WireChunk = WireChunk(sizeLine: Bytes, data: Bytes)

  predicate GoodChunk(c: WireChunk) {
    c.data != [] && OneLine(c.sizeLine) && ChunkSize(c.sizeLine) == Some(|c.data|)
  }

  function Wire(chunks: seq<WireChunk>): Bytes {
    if chunks == [] then "0\r\n\r\n" else chunks[0].sizeLine + chunks[0].data + CRLF + Wire(chunks[1..])
  }

  function Data(chunks: seq<WireChunk>): Bytes {
    if chunks == [] then [] else chunks[0].data + Data(chunks[1..])
  }

  lemma NextOfWire(c: WireChunk, rest: Bytes, amount: nat)
    requires GoodChunk(c) && |c.data| < amount
    ensures NextChunk(c.sizeLine + c.data + CRLF + rest, amount) == Part(c.data, rest)
  {
    hide Line;
    var t, after := c.sizeLine + c.data + CRLF + rest, c.data + CRLF + rest;
    assert t == c.sizeLine + after;
    CompleteLine(c.sizeLine, after, LINE_LIMIT);
    assert t[|c.sizeLine|..] == after;
    assert after[..|c.data|] == c.data && after[|c.data|..|c.data| + 2] == CRLF && after[|c.data| + 2..] == rest;
  }

  lemma EndOfWire(rest: Bytes, amount: nat)
    ensures NextChunk("0\r\n\r\n" + rest, amount) == Last(rest)
  {
    hide Line;
    var t := "0\r\n\r\n" + rest;
    assert t == "0\r\n" + (CRLF + rest);
    CompleteLine("0\r\n", CRLF + rest, LINE_LIMIT);
    HexRun("0", CRLF);
    assert "0" + CRLF == "0\r\n" && "0\r\n"[..1] == Hex(0);
    HexRoundTrip(0);
    BlankIsRead(rest);
    assert t[3..] == CRLF + rest;
  }

  /** Chunked decoding inverts chunked sending, for every split of the body into nonempty chunks. */
  lemma {:induction false} ChunksRoundTrip(chunks: seq<WireChunk>, rest: Bytes, amount: nat)
    requires (forall i :: 0 <= i < |chunks| ==> GoodChunk(chunks[i])) && |Data(chunks)| < amount
    ensures Chunked(Wire(chunks) + rest, amount) == Got(Data(chunks), rest)
    decreases |chunks|
  {
    hide NextChunk, GoodChunk;
    if chunks == [] {
      EndOfWire(rest, amount);
    } else {
      var c, more := chunks[0], chunks[1..];
      assert Wire(chunks) + rest == c.sizeLine + c.data + CRLF + (Wire(more) + rest);
      NextOfWire(c, Wire(more) + rest, amount);
      ChunksRoundTrip(more, rest, amount - |c.data|);
    }
  }

  /** The plain size line of any chunk within the response limit is good. */
  lemma PlainChunkIsGood(data: Bytes)
    requires 0 < |data| <= 2_162_688
    ensures GoodChunk(WireChunk(Hex(|data|) + CRLF, data))
  {
    PlainSizeLine(|data|);
  }

  lemma PlainSizeLine(n: nat)
    requires n <= 2_162_688
    ensures OneLine(Hex(n) + CRLF) && ChunkSize(Hex(n) + CRLF) == Some(n)
  {
    hide Hex, HexNumber, HexLength, HexDigit;
    var digits, line := Hex(n), Hex(n) + CRLF;
    HexRoundTrip(n);
    HexIsShort(n);
    NotHex();
    HexRun(digits, CRLF);
    assert line[..|digits|] == digits && line[|digits|..] == CRLF;
    forall i | 0 <= i < |line| - 1 ensures line[i] != '\n' {
      if i < |digits| { assert line[i] == digits[i]; }
    }
  }

  lemma NotHex()
    ensures !HexDigit('\r') && !HexDigit('\n')
  {
  }

  /** A whole response with explicit length is read back exactly. */
  lemma LengthRoundTrip(status: Bytes, lines: seq<Bytes>, fields: seq<Field>, body: Bytes, rest: Bytes, discard: bool, maximum: nat)
    requires OneLine(status) && StatusLine(status) && StatusOf(status) !in {204, 205, 304} && !(300 <= StatusOf(status) < 400)
    requires FieldLines(lines) && |status| + |Block(lines)| <= BLOCK_LIMIT && |lines| <= 99
    requires FieldsOf(lines, discard, []) == Some(fields)
    requires Lookup(fields, "content-length") == Some(Decimal(|body|)) && Lookup(fields, "transfer-encoding") == None
    requires Lookup(fields, "content-encoding") == None && Lookup(fields, "location") == None
    requires |body| <= maximum && |Decimal(|body|)| <= 10
    ensures Response(status + Block(lines) + body + rest, discard, maximum) == Got(Message(StatusOf(status), fields, body), rest)
  {
    hide Begin, FieldsOf, StatusLine, StatusOf, Block, Lookup, FieldLines, Decimal, Number;
    assert status + Block(lines) + body + rest == status + Block(lines) + (body + rest);
    BeginOfBlock(status, lines, body + rest, discard);
    DecimalRoundTrip(|body|);
    assert (body + rest)[..|body|] == body && (body + rest)[|body|..] == rest;
  }

  /** A whole chunked response is read back exactly, whatever its chunks. */
  lemma ChunkedRoundTrip(status: Bytes, lines: seq<Bytes>, fields: seq<Field>, chunks: seq<WireChunk>, rest: Bytes, discard: bool, maximum: nat)
    requires OneLine(status) && StatusLine(status) && StatusOf(status) !in {204, 205, 304} && !(300 <= StatusOf(status) < 400)
    requires FieldLines(lines) && |status| + |Block(lines)| <= BLOCK_LIMIT && |lines| <= 99
    requires FieldsOf(lines, discard, []) == Some(fields)
    requires Lookup(fields, "transfer-encoding").Some? && Lower(Lookup(fields, "transfer-encoding").value) == "chunked"
    requires Lookup(fields, "content-length") == None
    requires Lookup(fields, "content-encoding") == None && Lookup(fields, "location") == None
    requires (forall i :: 0 <= i < |chunks| ==> GoodChunk(chunks[i])) && |Data(chunks)| <= maximum
    ensures Response(status + Block(lines) + Wire(chunks) + rest, discard, maximum)
            == Got(Message(StatusOf(status), fields, Data(chunks)), rest)
  {
    hide Begin, FieldsOf, StatusLine, StatusOf, Block, Lookup, FieldLines, Chunked, GoodChunk, Wire, Data;
    assert status + Block(lines) + Wire(chunks) + rest == status + Block(lines) + (Wire(chunks) + rest);
    BeginOfBlock(status, lines, Wire(chunks) + rest, discard);
    ChunksRoundTrip(chunks, rest, maximum + 1);
  }

  // ---------- The reader ----------

  /** A read's end: a value, a refusal of what was sent, or a connection cut by the deadline, by a
      transport failure or by the wire limit. */
  datatype Outcome<+T> = Ok(value: T) | Rejected | Cut
  {
    predicate IsFailure() { !Ok? }
    function PropagateFailure<U>(): Outcome<U>
      requires IsFailure()
    { if Rejected? then Rejected else Cut }
    function Extract(): T
      requires !IsFailure()
    { value }
  }

  /** The connection, as the octets the peer sends before it closes.  `punctual` means that no deadline
      passes and no transport failure occurs. */
  class WireReader {
    const wire: Bytes
    const maximum: nat
    const punctual: bool
    var received: nat

    constructor (wire: Bytes, maximum: nat, punctual: bool)
      ensures this.wire == wire && this.maximum == maximum && this.punctual == punctual && received == 0
    {
      this.wire, this.maximum, this.punctual, received := wire, maximum, punctual, 0;
    }

    /** One receive, of any size up to the room left: nothing only when the peer has closed. */
    method ReadInto(size: nat) returns (r: Outcome<Bytes>)
      requires size > 0 && received <= |wire| && received <= maximum
      modifies this
      ensures old(received) <= received <= |wire|
      ensures r.Ok? ==> received <= maximum && r.value == wire[old(received)..received] && |r.value| <= size
      ensures r.Ok? && r.value == [] ==> received == |wire|
      ensures r.Cut? ==> !punctual || |wire| > maximum
      ensures !r.Rejected?
    {
      if !punctual {
        var late: bool := *;
        if late { return Cut; }
      }
      var asked := if size < maximum - received + 1 then size else maximum - received + 1;
      var count: int := *;
      if count <= 0 || count > asked { count := asked; }
      if received + count > |wire| { count := |wire| - received; }
      var data := wire[received..received + count];
      received := received + count;
      if received > maximum { return Cut; }
      return Ok(data);
    }
  }

  lemma LineSteps(t: Bytes, limit: nat)
    ensures t == [] || limit == 0 ==> Line(t, limit) == []
    ensures t != [] && limit > 0 ==>
              Line(t, limit) == [t[0]] + (if t[0] == '\n' then [] else Line(t[1..], limit - 1))
  {
  }

  /** One more octet of a line being read. */
  lemma LineTakes(start: Bytes, line: Bytes, ahead: Bytes, limit: nat)
    requires |line| < limit && start == line + ahead && Line(start, limit) == line + Line(ahead, limit - |line|)
    ensures ahead == [] ==> Line(start, limit) == line
    ensures ahead != [] ==>
              (var more := line + [ahead[0]];
               && start == more + ahead[1..] && start[|more|..] == ahead[1..]
               && Line(start, limit) == if ahead[0] == '\n' then more else more + Line(ahead[1..], limit - |more|))
  {
    hide Line;
    LineSteps(ahead, limit - |line|);
    if ahead != [] {
      var c, rest := ahead[0], ahead[1..];
      assert ahead == [c] + rest;
      assert line + ([c] + rest) == (line + [c]) + rest;
      if c != '\n' {
        var tail := Line(rest, limit - |line| - 1);
        assert line + ([c] + tail) == (line + [c]) + tail;
      }
    }
  }

  class BufferedReader {
    const raw: WireReader
    var buffer: Bytes

    constructor (raw: WireReader)
      requires raw.received == 0
      ensures this.raw == raw && Valid() && Unread() == raw.wire
    {
      this.raw, buffer := raw, [];
    }

    ghost predicate Valid()
      reads this, raw
    {
      raw.received <= |raw.wire| && raw.received <= raw.maximum
    }

    /** Everything the peer sent that no read has returned yet. */
    ghost function Unread(): Bytes
      reads this, raw
      requires Valid()
    {
      buffer + raw.wire[raw.received..]
    }

    /** Whether the connection may have been cut. */
    ghost predicate MayCut() { !raw.punctual || |raw.wire| > raw.maximum }

    /** Refill an empty buffer by a receive of any size. */
    method Fill() returns (r: Outcome<()>)
      requires Valid() && buffer == []
      modifies this, raw
      ensures !r.Rejected? && (r.Cut? ==> MayCut())
      ensures r.Ok? ==> Valid() && Unread() == old(Unread()) && (buffer == [] ==> Unread() == [])
    {
      var size: int := *;
      var data :- raw.ReadInto(if size <= 0 then 4096 else size);
      buffer := data;
      return Ok(());
    }

    method ReadLine(limit: nat) returns (r: Outcome<Bytes>)
      requires Valid()
      modifies this, raw
      ensures !r.Rejected? && (r.Cut? ==> MayCut())
      ensures r.Ok? ==> Valid() && r.value == Line(old(Unread()), limit) && Unread() == old(Unread())[|r.value|..]
    {
      hide Line;
      ghost var start := Unread();
      var line: Bytes := [];
      while |line| < limit
        invariant Valid() && |line| <= limit && start == line + Unread()
        invariant Line(start, limit) == line + Line(Unread(), limit - |line|)
        decreases limit - |line|
      {
        LineTakes(start, line, Unread(), limit);
        var next :- Take();
        if next == None { return Ok(line); }
        line := line + [next.value];
        if next.value == '\n' { return Ok(line); }
      }
      LineSteps(Unread(), 0);
      return Ok(line);
    }

    /** The next octet, or nothing when the peer has closed. */
    method Take() returns (r: Outcome<Option<char>>)
      requires Valid()
      modifies this, raw
      ensures !r.Rejected? && (r.Cut? ==> MayCut())
      ensures r == Ok(None) ==> Valid() && old(Unread()) == [] && Unread() == []
      ensures r.Ok? && r.value.Some? ==>
                Valid() && old(Unread()) == [r.value.value] + Unread() && old(Unread())[1..] == Unread()
    {
      if buffer == [] {
        var _ :- Fill();
        if buffer == [] { return Ok(None); }
      }
      var next := buffer[0];
      buffer := buffer[1..];
      return Ok(Some(next));
    }

    method ReadBytes(count: nat) returns (r: Outcome<Bytes>)
      requires Valid()
      modifies this, raw
      ensures !r.Rejected? && (r.Cut? ==> MayCut())
      ensures r.Ok? ==> Valid() && r.value + Unread() == old(Unread())
      ensures r.Ok? ==> |r.value| == if count <= |old(Unread())| then count else |old(Unread())|
    {
      ghost var start := Unread();
      var data: Bytes := [];
      while |data| < count
        invariant Valid() && |data| <= count && start == data + Unread()
      {
        var piece :- TakeSome(count - |data|);
        data := data + piece;
        if piece == [] { return Ok(data); }
      }
      return Ok(data);
    }

    /** Some of the next octets; nothing only when the peer has closed. */
    method TakeSome(count: nat) returns (r: Outcome<Bytes>)
      requires Valid() && count > 0
      modifies this, raw
      ensures !r.Rejected? && (r.Cut? ==> MayCut())
      ensures r.Ok? ==> Valid() && |r.value| <= count && old(Unread()) == r.value + Unread()
      ensures r == Ok([]) ==> Unread() == []
    {
      if buffer == [] {
        var _ :- Fill();
        if buffer == [] { return Ok([]); }
      }
      var taken := if |buffer| < count then |buffer| else count;
      var piece := buffer[..taken];
      assert buffer == piece + buffer[taken..];
      buffer := buffer[taken..];
      return Ok(piece);
    }
  }

  class StrictResponse {
    const fp: BufferedReader
    const discardSetCookie: bool

    constructor (fp: BufferedReader, discardSetCookie: bool)
      ensures this.fp == fp && this.discardSetCookie == discardSetCookie
    {
      this.fp, this.discardSetCookie := fp, discardSetCookie;
    }

    /** What a parsing method promises: the value and the remainder of its function, a refusal exactly when
        the function refuses, or a cut connection. */
    ghost predicate Agrees<T>(r: Outcome<T>, parse: Parse<T>)
      reads fp, fp.raw
    {
      match r
      case Ok(value) => fp.Valid() && parse == Got(value, fp.Unread())
      case Rejected => parse.Refused?
      case Cut => fp.MayCut()
    }

    method ReadHead() returns (r: Outcome<Head>)
      requires fp.Valid()
      modifies fp, fp.raw
      ensures Agrees(r, Begin(old(fp.Unread()), discardSetCookie))
    {
      hide Line, StatusLine, Headers;
      ghost var start := fp.Unread();
      var line :- fp.ReadLine(LINE_LIMIT);
      if !StatusLine(line) { return Rejected; }
      var status := StatusOf(line);
      if status in {204, 205, 304} { return Rejected; }
      var fields :- ReadFields(|line|);
      return Ok(Head(status, fields));
    }

    /** The header loop. */
    method ReadFields(first: nat) returns (r: Outcome<seq<Field>>)
      requires fp.Valid()
      modifies fp, fp.raw
      ensures Agrees(r, Headers(old(fp.Unread()), discardSetCookie, [], first, 0))
    {
      hide Line, Header, Named;
      ghost var start := fp.Unread();
      var raw: seq<Field>, names: set<Bytes>, total: nat, fieldCount: nat := [], {}, first, 0;
      NoNames();
      while true
        invariant fp.Valid()
        invariant forall name :: name in names <==> Named(raw, name)
        invariant Headers(start, discardSetCookie, [], first, 0) == Headers(fp.Unread(), discardSetCookie, raw, total, fieldCount)
        decreases |fp.Unread()|
      {
        var line :- fp.ReadLine(LINE_LIMIT);
        total := total + |line|;
        if total > BLOCK_LIMIT || fieldCount >= 100 { return Rejected; }
        if line == CRLF { return Ok(raw); }
        var header := Header(line);
        if header == None { return Rejected; }
        AcceptedLinesEnd(line);
        fieldCount := fieldCount + 1;
        if discardSetCookie && header.value.name == "set-cookie" { continue; }
        if header.value.name in names { return Rejected; }
        NameAdded(raw, header.value);
        names := names + {header.value.name};
        raw := raw + [header.value];
      }
    }

    lemma NoNames()
      ensures forall name :: !Named([], name)
    {
    }

    lemma NameAdded(fields: seq<Field>, h: Field)
      ensures forall name :: Named(fields + [h], name) <==> Named(fields, name) || name == h.name
    {
      forall name ensures Named(fields + [h], name) <==> Named(fields, name) || name == h.name {
        var more := fields + [h];
        if Named(fields, name) {
          var i :| 0 <= i < |fields| && fields[i].name == name;
          assert more[i].name == name;
        }
        if name == h.name { assert more[|fields|].name == name; }
      }
    }

    method ReadTrailer() returns (r: Outcome<()>)
      requires fp.Valid()
      modifies fp, fp.raw
      ensures Agrees(r, Trailer(old(fp.Unread()), {}, 0))
    {
      hide Line, Header;
      ghost var start := fp.Unread();
      var names: set<Bytes>, total: nat := {}, 0;
      while true
        invariant fp.Valid()
        invariant Trailer(start, {}, 0) == Trailer(fp.Unread(), names, total)
        decreases |fp.Unread()|
      {
        var line :- fp.ReadLine(LINE_LIMIT);
        if line == CRLF { return Ok(()); }
        if total + |line| > BLOCK_LIMIT || |names| >= 100 { return Rejected; }
        total := total + |line|;
        var header := Header(line);
        if header == None || header.value.name in names || header.value.name in TRAILER_REFUSED { return Rejected; }
        AcceptedLinesEnd(line);
        names := names + {header.value.name};
      }
    }

    /** One chunk with its framing: nothing for the last, and otherwise its octets and whether they are all
        that was asked for. */
    method ReadChunk(amount: nat) returns (r: Outcome<Option<(Bytes, bool)>>)
      requires fp.Valid()
      modifies fp, fp.raw
      ensures match r
              case Ok(None) => fp.Valid() && NextChunk(old(fp.Unread()), amount) == Last(fp.Unread())
              case Ok(Some(piece)) =>
                fp.Valid() && NextChunk(old(fp.Unread()), amount)
                              == if piece.1 then Final(piece.0, fp.Unread()) else Part(piece.0, fp.Unread())
              case Rejected => NextChunk(old(fp.Unread()), amount) == Bad
              case Cut => fp.MayCut()
    {
      hide Line, ChunkSize, Trailer, ChunkData;
      var line :- fp.ReadLine(LINE_LIMIT);
      var size := ChunkSize(line);
      if size == None { return Rejected; }
      if size.value == 0 {
        var _ :- ReadTrailer();
        return Ok(None);
      }
      var piece :- ReadChunkData(size.value, amount);
      return Ok(Some(piece));
    }

    /** The octets after a size line, with their separator where one is due. */
    method ReadChunkData(size: nat, amount: nat) returns (r: Outcome<(Bytes, bool)>)
      requires fp.Valid() && size > 0
      modifies fp, fp.raw
      ensures match r
              case Ok(piece) =>
                fp.Valid() && ChunkData(old(fp.Unread()), size, amount)
                              == if piece.1 then Final(piece.0, fp.Unread()) else Part(piece.0, fp.Unread())
              case Rejected => ChunkData(old(fp.Unread()), size, amount) == Bad
              case Cut => fp.MayCut()
    {
      ghost var rest := fp.Unread();
      var data :- fp.ReadBytes(if amount <= size then amount else size);
      assert data == rest[..|data|] && fp.Unread() == rest[|data|..];
      if amount <= size { return if |data| < amount then Rejected else Ok((data, true)); }
      if |data| < size { return Rejected; }
      var separator :- fp.ReadBytes(2);
      assert rest[size..] == separator + fp.Unread();
      return if separator != CRLF then Rejected else Ok((data, false));
    }

    /** The chunk loop. */
    method ReadChunked(amount: nat) returns (r: Outcome<Bytes>)
      requires fp.Valid()
      modifies fp, fp.raw
      ensures Agrees(r, Chunked(old(fp.Unread()), amount))
    {
      hide NextChunk, Chunked, Prepended;
      ghost var start := fp.Unread();
      PrependedNothing(Chunked(start, amount));
      var value: Bytes, left: nat := [], amount;
      while true
        invariant fp.Valid()
        invariant Chunked(start, amount) == Prepended(value, Chunked(fp.Unread(), left))
        decreases |fp.Unread()|
      {
        ghost var before := fp.Unread();
        ChunkedStep(before, left, value);
        var chunk :- ReadChunk(left);
        if chunk == None { return Ok(value); }
        value := value + chunk.value.0;
        if chunk.value.1 { return Ok(value); }
        assert |fp.Unread()| < |before| && |chunk.value.0| < left;
        left := left - |chunk.value.0|;
      }
    }

    /** The body under the head's framing. */
    method ReadBody(framing: Framing, maximum: nat) returns (r: Outcome<Bytes>)
      requires fp.Valid()
      modifies fp, fp.raw
      ensures Agrees(r, Body(old(fp.Unread()), framing, maximum))
    {
      hide Chunked;
      match framing
      case NoFraming => return Rejected;
      case ByLength(n) =>
        ghost var before := fp.Unread();
        var body :- fp.ReadBytes(n);
        assert before[..|body|] == body && before[|body|..] == fp.Unread();
        return if |body| == n then Ok(body) else Rejected;
      case ByChunks =>
        var body :- ReadChunked(maximum + 1);
        return if |body| > maximum then Rejected else Ok(body);
    }

    /** The whole exchange.  However the octets arrive, the result is the parse of what the peer sent; only
        a deadline, a transport failure or more octets than the wire limit can cut it short. */
    method Receive(maximum: nat) returns (r: Outcome<Message>)
      requires fp.Valid()
      modifies fp, fp.raw
      ensures Agrees(r, Response(old(fp.Unread()), discardSetCookie, maximum))
    {
      hide Begin, Body, FramingOf;
      var head :- ReadHead();
      var body :- ReadBody(FramingOf(head, maximum), maximum);
      if !fp.raw.punctual {
        var late: bool := *;
        if late { return Cut; }
      }
      return Ok(Message(head.status, head.fields, body));
    }
  }

  /** One round of the chunk loop. */
  lemma ChunkedStep(t: Bytes, amount: nat, value: Bytes)
    ensures match NextChunk(t, amount)
            case Bad => Prepended(value, Chunked(t, amount)) == Refused
            case Last(rest) => Prepended(value, Chunked(t, amount)) == Got(value, rest)
            case Final(data, rest) => Prepended(value, Chunked(t, amount)) == Got(value + data, rest)
            case Part(data, rest) =>
              Prepended(value, Chunked(t, amount)) == Prepended(value + data, Chunked(rest, amount - |data|))
  {
    hide NextChunk;
    match NextChunk(t, amount)
    case Part(data, rest) =>
      var more := Chunked(rest, amount - |data|);
      if more.Got? { assert value + (data + more.value) == value + data + more.value; }
    case Last(_) => assert value + [] == value;
    case _ =>
  }

  lemma PrependedNothing(parse: Parse<Bytes>)
    ensures Prepended([], parse) == parse
  {
    if parse.Got? { assert [] + parse.value == parse.value; }
  }

  function Prepended(value: Bytes, parse: Parse<Bytes>): Parse<Bytes> {
    if parse.Refused? then Refused else Got(value + parse.value, parse.rest)
  }
}
