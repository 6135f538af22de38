/** Bounded RFC 3339 instants as exact integers in units of 10^-18 s.  The pattern and the date parser
    accept any decimal digit of the character repertoire in some places; `nd` says which characters
    those are and what they are worth. */
module Timestamp {
  import opened Options

  const SCALE: int := 1_000_000_000_000_000_000
  const FRACTION_DIGITS: nat := 18

  type DigitOf = char -> Option<nat>

  /** What is assumed of the repertoire: digits are worth less than ten, ASCII digits are themselves, and
      the punctuation of a timestamp is not a digit. */
  ghost predicate Repertoire(nd: DigitOf) {
    && (forall c :: nd(c).Some? ==> nd(c).value < 10)
    && (forall c :: '0' <= c <= '9' ==> nd(c) == Some((c - '0') as nat))
    && (forall c: char :: nd(c).Some? && c < 128 as char ==> '0' <= c <= '9')
  }

  predicate Ascii(s: string) { forall i :: 0 <= i < |s| ==> s[i] < 128 as char }

  predicate AsciiDigit(c: char) { '0' <= c <= '9' }

  // ---------- Calendar ----------

  datatype Civil = Civil(year: int, month: int, day: int, hour: int, minute: int, second: int, fraction: int)

  predicate Leap(y: int) { y % 4 == 0 && (y % 100 != 0 || y % 400 == 0) }

  function DaysInMonth(y: int, m: int): int {
    if m == 2 then (if Leap(y) then 29 else 28) else if m in {4, 6, 9, 11} then 30 else 31
  }

  function DaysBeforeMonth(y: int, m: int): int
    requires 1 <= m <= 13
  {
    if m == 1 then 0 else DaysBeforeMonth(y, m - 1) + DaysInMonth(y, m - 1)
  }

  function DaysBeforeYear(y: int): int
    requires y >= 1
  {
    (y - 1) * 365 + (y - 1) / 4 - (y - 1) / 100 + (y - 1) / 400
  }

  const EPOCH: int := 719_163  // the ordinal of 1970-01-01

  predicate ValidDate(y: int, m: int, d: int) { 1 <= y <= 9999 && 1 <= m <= 12 && 1 <= d <= DaysInMonth(y, m) }

  predicate Valid(c: Civil) {
    && ValidDate(c.year, c.month, c.day)
    && 0 <= c.hour < 24 && 0 <= c.minute < 60 && 0 <= c.second < 60 && 0 <= c.fraction < SCALE
  }

  function Days(y: int, m: int, d: int): int
    requires ValidDate(y, m, d)
  {
    DaysBeforeYear(y) + DaysBeforeMonth(y, m) + d - EPOCH
  }

  /** Seconds since the epoch, scaled, plus the fraction. */
  function Instant(c: Civil): int
    requires Valid(c)
  {
    (((Days(c.year, c.month, c.day) * 24 + c.hour) * 60 + c.minute) * 60 + c.second) * SCALE + c.fraction
  }

  /** Calendar order. */
  predicate Earlier(a: Civil, b: Civil) {
    || a.year < b.year
    || (a.year == b.year && (a.month < b.month
    || (a.month == b.month && (a.day < b.day
    || (a.day == b.day && (a.hour < b.hour
    || (a.hour == b.hour && (a.minute < b.minute
    || (a.minute == b.minute && (a.second < b.second
    || (a.second == b.second && a.fraction < b.fraction)))))))))))
  }

  lemma MonthsAdvance(y: int, m: int, n: int)
    requires 1 <= m < n <= 13
    ensures DaysBeforeMonth(y, m) + DaysInMonth(y, m) <= DaysBeforeMonth(y, n)
    decreases n - m
  {
    if m + 1 < n {
      MonthsAdvance(y, m, n - 1);
    }
  }

  lemma MonthsNonnegative(y: int, m: int)
    requires 1 <= m <= 13
    ensures DaysBeforeMonth(y, m) >= 0
  {
    if m > 1 { MonthsNonnegative(y, m - 1); }
  }

  lemma YearLength(y: int)
    ensures DaysBeforeMonth(y, 13) == if Leap(y) then 366 else 365
  {
    var february := DaysInMonth(y, 2);
    assert DaysBeforeMonth(y, 2) == 31;
    assert DaysBeforeMonth(y, 3) == 31 + february;
    assert DaysBeforeMonth(y, 4) == 62 + february;
    assert DaysBeforeMonth(y, 5) == 92 + february;
    assert DaysBeforeMonth(y, 6) == 123 + february;
    assert DaysBeforeMonth(y, 7) == 153 + february;
    assert DaysBeforeMonth(y, 8) == 184 + february;
    assert DaysBeforeMonth(y, 9) == 215 + february;
    assert DaysBeforeMonth(y, 10) == 245 + february;
    assert DaysBeforeMonth(y, 11) == 276 + february;
    assert DaysBeforeMonth(y, 12) == 306 + february;
  }

  lemma YearAdvances(y: int)
    requires y >= 1
    ensures DaysBeforeYear(y + 1) == DaysBeforeYear(y) + if Leap(y) then 366 else 365
  {
    NextMultiple(y, 4);
    NextMultiple(y, 100);
    NextMultiple(y, 400);
    LeapDivides(y);
    var a, b, c := (y - 1) / 4, (y - 1) / 100, (y - 1) / 400;
    assert DaysBeforeYear(y) == (y - 1) * 365 + a - b + c;
    assert DaysBeforeYear(y + 1) == y * 365 + y / 4 - y / 100 + y / 400;
  }

  lemma LeapDivides(y: int)
    ensures y % 400 == 0 ==> y % 100 == 0
    ensures y % 100 == 0 ==> y % 4 == 0
  {
    if y % 400 == 0 { Hundreds(4 * (y / 400)); }
    if y % 100 == 0 { Fours(25 * (y / 100)); }
  }

  lemma Hundreds(k: int)
    ensures (100 * k) % 100 == 0
  {
  }

  lemma Fours(k: int)
    ensures (4 * k) % 4 == 0
  {
  }

  lemma NextMultiple(y: int, k: int)
    requires y >= 1 && k in {4, 100, 400}
    ensures y / k == (y - 1) / k + if y % k == 0 then 1 else 0
  {
  }

  lemma {:induction false} YearsAdvance(y: int, z: int)
    requires 1 <= y < z
    ensures DaysBeforeYear(y) + DaysBeforeMonth(y, 13) <= DaysBeforeYear(z)
    decreases z - y
  {
    YearLength(y);
    YearAdvances(y);
    if y + 1 < z {
      YearsAdvance(y + 1, z);
      MonthsNonnegative(y + 1, 13);
    }
  }

  /** Earlier dates have smaller day numbers. */
  lemma DaysAreOrdered(y: int, m: int, d: int, z: int, n: int, e: int)
    requires ValidDate(y, m, d) && ValidDate(z, n, e)
    requires y < z || (y == z && (m < n || (m == n && d < e)))
    ensures Days(y, m, d) < Days(z, n, e)
  {
    if y < z {
      YearsAdvance(y, z);
      MonthsAdvance(y, m, 13);
      MonthsNonnegative(z, n);
    } else if m < n {
      MonthsAdvance(y, m, n);
    }
  }

  lemma Base(a: int, r: int, b: int, s: int, k: int)
    requires 0 <= r < k && 0 <= s < k && (a < b || (a == b && r < s))
    ensures a * k + r < b * k + s
  {
    if a < b { assert (a + 1) * k <= b * k; }
  }

  lemma EarlierIsSmaller(a: Civil, b: Civil)
    requires Valid(a) && Valid(b) && Earlier(a, b)
    ensures Instant(a) < Instant(b)
  {
    hide Days;
    var p, q := Days(a.year, a.month, a.day), Days(b.year, b.month, b.day);
    if (a.year, a.month, a.day) != (b.year, b.month, b.day) {
      DaysAreOrdered(a.year, a.month, a.day, b.year, b.month, b.day);
    }
    var ph, qh := p * 24 + a.hour, q * 24 + b.hour;
    if p < q || a.hour < b.hour { Base(p, a.hour, q, b.hour, 24); }
    var pm, qm := ph * 60 + a.minute, qh * 60 + b.minute;
    if ph < qh || a.minute < b.minute { Base(ph, a.minute, qh, b.minute, 60); }
    var ps, qs := pm * 60 + a.second, qm * 60 + b.second;
    if pm < qm || a.second < b.second { Base(pm, a.second, qm, b.second, 60); }
    Base(ps, a.fraction, qs, b.fraction, SCALE);
  }

  lemma EarlierIsTotal(a: Civil, b: Civil)
    ensures Earlier(a, b) || Earlier(b, a) || a == b
    ensures !(Earlier(a, b) && Earlier(b, a)) && !Earlier(a, a)
  {
  }

  /** Integer order is calendar order, and equal integers are the same calendar instant. */
  lemma InstantsAreOrdered(a: Civil, b: Civil)
    requires Valid(a) && Valid(b)
    ensures Instant(a) < Instant(b) <==> Earlier(a, b)
    ensures Instant(a) == Instant(b) <==> a == b
  {
    EarlierIsTotal(a, b);
    if Earlier(a, b) { EarlierIsSmaller(a, b); }
    if Earlier(b, a) { EarlierIsSmaller(b, a); }
  }

  // ---------- Texts ----------

  function Worth(nd: DigitOf, c: char): nat { if nd(c).Some? then nd(c).value else 0 }

  function Two(nd: DigitOf, a: char, b: char): int { 10 * Worth(nd, a) + Worth(nd, b) }

  predicate AllDigits(nd: DigitOf, s: string) { forall i :: 0 <= i < |s| ==> nd(s[i]).Some? }

  /** The decimal number a run of digits writes. */
  function Number(nd: DigitOf, s: string): nat {
    if s == [] then 0 else 10 * Number(nd, s[..|s| - 1]) + Worth(nd, s[|s| - 1])
  }

  function Zeros(n: nat): string { seq(n, _ => '0') }

  function Padded(s: string): string
    requires |s| <= FRACTION_DIGITS
  {
    s + Zeros(FRACTION_DIGITS - |s|)
  }

  /** The two-digit fields as the date parser reads them: the month in ASCII, the other fields with an ASCII
      first digit. */
  predicate MonthText(a: char, b: char) { (a == '1' && '0' <= b <= '2') || (a == '0' && '1' <= b <= '9') }

  predicate DayText(nd: DigitOf, a: char, b: char) {
    (a == '3' && (b == '0' || b == '1')) || ((a == '1' || a == '2') && nd(b).Some?) || (a == '0' && '1' <= b <= '9')
  }

  predicate HourText(nd: DigitOf, a: char, b: char) {
    (a == '2' && '0' <= b <= '3') || ((a == '0' || a == '1') && nd(b).Some?)
  }

  predicate MinuteText(nd: DigitOf, a: char, b: char) { '0' <= a <= '5' && nd(b).Some? }

  predicate SecondText(nd: DigitOf, a: char, b: char) {
    (a == '6' && (b == '0' || b == '1')) || MinuteText(nd, a, b)
  }

  /** The shape of an accepted text. */
  predicate Shaped(nd: DigitOf, t: string) {
    && |t| >= 20 && t[|t| - 1] == 'Z'
    && t[4] == '-' && t[7] == '-' && t[10] == 'T' && t[13] == ':' && t[16] == ':'
    && nd(t[0]).Some? && nd(t[1]).Some? && nd(t[2]).Some? && nd(t[3]).Some?
    && MonthText(t[5], t[6]) && DayText(nd, t[8], t[9]) && HourText(nd, t[11], t[12])
    && MinuteText(nd, t[14], t[15]) && SecondText(nd, t[17], t[18])
    && (|t| == 20 || (22 <= |t| <= 39 && t[19] == '.' && AllDigits(nd, Fraction(t))))
  }

  /** The fraction's digits. */
  function Fraction(t: string): string
    requires |t| >= 20
  {
    if |t| == 20 then [] else t[20..|t| - 1]
  }

  function Fields(nd: DigitOf, t: string): Civil
    requires Shaped(nd, t)
  {
    Civil(100 * Two(nd, t[0], t[1]) + Two(nd, t[2], t[3]), Two(nd, t[5], t[6]), Two(nd, t[8], t[9]),
          Two(nd, t[11], t[12]), Two(nd, t[14], t[15]), Two(nd, t[17], t[18]), Number(nd, Padded(Fraction(t))))
  }

  /** The timestamp's integer, or a refusal; a leap second and an impossible date are refused. */
  function Read(nd: DigitOf, t: string): Option<int> {
    if !Shaped(nd, t) then None
    else
      var c := Fields(nd, t);
      if ValidDate(c.year, c.month, c.day) && c.second < 60 && Valid(c) then Some(Instant(c)) else None
  }

  // ---------- Digits ----------

  function Pow10(n: nat): nat { if n == 0 then 1 else 10 * Pow10(n - 1) }

  lemma {:induction false} NumberIsBounded(nd: DigitOf, s: string)
    requires Repertoire(nd)
    ensures Number(nd, s) < Pow10(|s|)
  {
    if s != [] { NumberIsBounded(nd, s[..|s| - 1]); }
  }

  /** Every shaped text with a possible date and no leap second is read. */
  lemma ReadsExactly(nd: DigitOf, t: string)
    requires Repertoire(nd)
    ensures Read(nd, t).Some? <==>
              Shaped(nd, t) && Fields(nd, t).second < 60
              && ValidDate(Fields(nd, t).year, Fields(nd, t).month, Fields(nd, t).day)
    ensures Read(nd, t).Some? ==> Valid(Fields(nd, t)) && Read(nd, t) == Some(Instant(Fields(nd, t)))
  {
    hide Number, Instant;
    if Shaped(nd, t) {
      NumberIsBounded(nd, Padded(Fraction(t)));
      ScaleIsPow10();
      FieldRanges(nd, t);
      hide Shaped, Fields, Repertoire, Pow10;
    }
  }

  lemma ScaleIsPow10()
    ensures Pow10(FRACTION_DIGITS) == SCALE
  {
    assert Pow10(9) == 1_000_000_000;
  }

  lemma FieldRanges(nd: DigitOf, t: string)
    requires Repertoire(nd) && Shaped(nd, t)
    ensures var c := Fields(nd, t);
            && 0 <= c.hour < 24 && 0 <= c.minute < 60 && 0 <= c.second < 62
            && c.fraction == Number(nd, Padded(Fraction(t))) && |Padded(Fraction(t))| == FRACTION_DIGITS
  {
    hide Number;
  }

  /** A leap second is refused, whatever the rest says. */
  lemma LeapSecondsAreRefused(nd: DigitOf, t: string)
    requires Repertoire(nd) && |t| >= 20 && t[17] == '6'
    ensures Read(nd, t) == None
  {
    assert nd('6') == Some(6);
  }

  // ---------- Which texts share an integer ----------

  function AsciiOf(nd: DigitOf, c: char): char
    requires Repertoire(nd)
  {
    if nd(c).Some? then '0' + nd(c).value as char else c
  }

  /** The text with every digit written in ASCII. */
  function Plain(nd: DigitOf, t: string): (p: string)
    requires Repertoire(nd)
    ensures |p| == |t| && forall i :: 0 <= i < |t| ==> p[i] == AsciiOf(nd, t[i])
  {
    seq(|t|, i requires 0 <= i < |t| => AsciiOf(nd, t[i]))
  }

  function Trimmed(s: string): string { if s != [] && s[|s| - 1] == '0' then Trimmed(s[..|s| - 1]) else s }

  /** The text without trailing fraction zeros. */
  function Stripped(t: string): string
    requires |t| >= 20
  {
    var f := Trimmed(Fraction(t));
    t[..19] + (if f == [] then [] else "." + f) + "Z"
  }

  lemma {:induction false} TrimmedShape(s: string)
    ensures |Trimmed(s)| <= |s| && s == Trimmed(s) + Zeros(|s| - |Trimmed(s)|)
    ensures Trimmed(s) != [] ==> Trimmed(s)[|Trimmed(s)| - 1] != '0'
  {
    if s != [] && s[|s| - 1] == '0' {
      TrimmedShape(s[..|s| - 1]);
      assert s == s[..|s| - 1] + ['0'];
    }
  }

  lemma {:induction false} TrimZeros(s: string, n: nat)
    ensures Trimmed(s + Zeros(n)) == Trimmed(s)
  {
    if n == 0 {
      assert s + Zeros(0) == s;
    } else {
      assert (s + Zeros(n))[..|s| + n - 1] == s + Zeros(n - 1);
      TrimZeros(s, n - 1);
    }
  }

  /** Padding to full length and trimming zeros identify the same fractions. */
  lemma PaddingIsTrimming(s: string, t: string)
    requires |s| <= FRACTION_DIGITS && |t| <= FRACTION_DIGITS
    ensures Padded(s) == Padded(t) <==> Trimmed(s) == Trimmed(t)
  {
    hide Trimmed, Padded, Zeros;
    PaddedShape(s);
    PaddedShape(t);
    SameTrim(Padded(s), Padded(t));
    var x, y := Trimmed(s), Trimmed(t);
    if x == y {
      assert Padded(s) == x + Zeros(FRACTION_DIGITS - |x|) == Padded(t);
    }
  }

  lemma SameTrim(p: string, q: string)
    ensures p == q ==> Trimmed(p) == Trimmed(q)
  {
  }

  lemma PaddedShape(s: string)
    requires |s| <= FRACTION_DIGITS
    ensures Trimmed(Padded(s)) == Trimmed(s) && |Trimmed(s)| <= FRACTION_DIGITS
    ensures Padded(s) == Trimmed(s) + Zeros(FRACTION_DIGITS - |Trimmed(s)|)
  {
    hide Trimmed;
    TrimZeros(s, FRACTION_DIGITS - |s|);
    TrimmedShape(Padded(s));
    assert |Padded(s)| == FRACTION_DIGITS;
  }

  lemma {:induction false} NumbersDetermineDigits(nd: DigitOf, s: string, t: string)
    requires Repertoire(nd) && |s| == |t| && AllDigits(nd, s) && AllDigits(nd, t)
    ensures Number(nd, s) == Number(nd, t) <==> Plain(nd, s) == Plain(nd, t)
  {
    hide Repertoire, AsciiOf;
    if s != [] {
      var a, b := s[..|s| - 1], t[..|t| - 1];
      var x, y := s[|s| - 1], t[|t| - 1];
      NumbersDetermineDigits(nd, a, b);
      assert nd(x).Some? && nd(y).Some?;
      DigitAgrees(nd, x, y);
      assert Plain(nd, s) == Plain(nd, a) + [AsciiOf(nd, x)] && Plain(nd, t) == Plain(nd, b) + [AsciiOf(nd, y)];
      JoinedAgree(Plain(nd, a), AsciiOf(nd, x), Plain(nd, b), AsciiOf(nd, y));
    }
  }

  lemma JoinedAgree(a: string, x: char, b: string, y: char)
    requires |a| == |b|
    ensures a + [x] == b + [y] <==> a == b && x == y
  {
    if a + [x] == b + [y] {
      assert a == (a + [x])[..|a|] == (b + [y])[..|b|] == b;
      assert x == (a + [x])[|a|] == (b + [y])[|b|] == y;
    }
  }

  lemma DigitAgrees(nd: DigitOf, x: char, y: char)
    requires Repertoire(nd) && nd(x).Some? && nd(y).Some?
    ensures Worth(nd, x) == Worth(nd, y) <==> AsciiOf(nd, x) == AsciiOf(nd, y)
    ensures Worth(nd, x) < 10 && Worth(nd, y) < 10
  {
  }

  lemma PlainPadded(nd: DigitOf, s: string)
    requires Repertoire(nd) && |s| <= FRACTION_DIGITS
    ensures Plain(nd, Padded(s)) == Padded(Plain(nd, s))
  {
    assert AsciiOf(nd, '0') == '0';
    assert Plain(nd, Padded(s)) == Padded(Plain(nd, s));
  }

  /** Fractions are worth the same exactly when their plain digits agree up to trailing zeros. */
  lemma FractionsAgree(nd: DigitOf, s: string, t: string)
    requires Repertoire(nd) && |s| <= FRACTION_DIGITS && |t| <= FRACTION_DIGITS && AllDigits(nd, s) && AllDigits(nd, t)
    ensures Number(nd, Padded(s)) == Number(nd, Padded(t)) <==> Trimmed(Plain(nd, s)) == Trimmed(Plain(nd, t))
  {
    assert nd('0') == Some(0);
    NumbersDetermineDigits(nd, Padded(s), Padded(t));
    PlainPadded(nd, s);
    PlainPadded(nd, t);
    PaddingIsTrimming(Plain(nd, s), Plain(nd, t));
  }

  lemma TwoDigitsAgree(nd: DigitOf, a: char, b: char, c: char, d: char)
    requires Repertoire(nd) && nd(a).Some? && nd(b).Some? && nd(c).Some? && nd(d).Some?
    ensures Two(nd, a, b) == Two(nd, c, d) <==> AsciiOf(nd, a) == AsciiOf(nd, c) && AsciiOf(nd, b) == AsciiOf(nd, d)
  {
  }

  lemma PlainIsDigit(nd: DigitOf, c: char)
    requires Repertoire(nd)
    ensures nd(c).Some? ==> AsciiDigit(AsciiOf(nd, c)) && nd(AsciiOf(nd, c)) == nd(c)
    ensures nd(c).None? ==> AsciiOf(nd, c) == c
    ensures AsciiDigit(c) ==> AsciiOf(nd, c) == c
    ensures c in {'-', 'T', ':', '.', 'Z'} ==> AsciiOf(nd, c) == c
    ensures AsciiOf(nd, c) == c <==> (nd(c).Some? ==> c < 128 as char)
  {
  }

  lemma FractionOfPlain(nd: DigitOf, t: string)
    requires Repertoire(nd) && |t| >= 20
    ensures Fraction(Plain(nd, t)) == Plain(nd, Fraction(t))
  {
    var p := Plain(nd, t);
    assert |Fraction(p)| == |Fraction(t)|;
    forall i | 0 <= i < |Fraction(t)| ensures Fraction(p)[i] == Plain(nd, Fraction(t))[i] {
      assert Fraction(p)[i] == p[20 + i] && Fraction(t)[i] == t[20 + i];
    }
  }

  predicate SameFields(a: Civil, b: Civil) {
    a.year == b.year && a.month == b.month && a.day == b.day && a.hour == b.hour && a.minute == b.minute && a.second == b.second
  }

  lemma ShapedDigits(nd: DigitOf, t: string)
    requires Repertoire(nd) && Shaped(nd, t)
    ensures forall i :: 0 <= i < 19 && i !in {4, 7, 10, 13, 16} ==> nd(t[i]).Some?
    ensures t[4] == '-' && t[7] == '-' && t[10] == 'T' && t[13] == ':' && t[16] == ':'
  {
  }

  predicate SameAt(nd: DigitOf, a: string, b: string, i: nat)
    requires Repertoire(nd) && i < |a| && i < |b|
  {
    AsciiOf(nd, a[i]) == AsciiOf(nd, b[i])
  }

  lemma YearAgrees(nd: DigitOf, a: string, b: string)
    requires Repertoire(nd) && Shaped(nd, a) && Shaped(nd, b)
    ensures Fields(nd, a).year == Fields(nd, b).year
            <==> SameAt(nd, a, b, 0) && SameAt(nd, a, b, 1) && SameAt(nd, a, b, 2) && SameAt(nd, a, b, 3)
  {
    hide Number, Padded, Fraction;
    TwoDigitsAgree(nd, a[0], a[1], b[0], b[1]);
    TwoDigitsAgree(nd, a[2], a[3], b[2], b[3]);
    DigitAgrees(nd, a[2], b[2]);
    DigitAgrees(nd, a[3], b[3]);
    assert 0 <= Two(nd, a[2], a[3]) < 100 && 0 <= Two(nd, b[2], b[3]) < 100;
  }

  lemma OthersAgree(nd: DigitOf, a: string, b: string)
    requires Repertoire(nd) && Shaped(nd, a) && Shaped(nd, b)
    ensures var c, d := Fields(nd, a), Fields(nd, b);
            && (c.month == d.month <==> SameAt(nd, a, b, 5) && SameAt(nd, a, b, 6))
            && (c.day == d.day <==> SameAt(nd, a, b, 8) && SameAt(nd, a, b, 9))
            && (c.hour == d.hour <==> SameAt(nd, a, b, 11) && SameAt(nd, a, b, 12))
            && (c.minute == d.minute <==> SameAt(nd, a, b, 14) && SameAt(nd, a, b, 15))
            && (c.second == d.second <==> SameAt(nd, a, b, 17) && SameAt(nd, a, b, 18))
  {
    ShapedDigits(nd, a);
    ShapedDigits(nd, b);
    hide Number, Padded, Fraction, Repertoire, Shaped, Two, AsciiOf;
    TwoDigitsAgree(nd, a[5], a[6], b[5], b[6]);
    TwoDigitsAgree(nd, a[8], a[9], b[8], b[9]);
    TwoDigitsAgree(nd, a[11], a[12], b[11], b[12]);
    TwoDigitsAgree(nd, a[14], a[15], b[14], b[15]);
    TwoDigitsAgree(nd, a[17], a[18], b[17], b[18]);
  }

  lemma DatesAgree(nd: DigitOf, a: string, b: string)
    requires Repertoire(nd) && Shaped(nd, a) && Shaped(nd, b)
    ensures SameFields(Fields(nd, a), Fields(nd, b)) <==> Plain(nd, a)[..19] == Plain(nd, b)[..19]
  {
    hide Number, Padded, Fraction, Repertoire, Shaped, Two, AsciiOf, Fields, Plain, SameAt;
    ShapedEnds(nd, a);
    ShapedEnds(nd, b);
    YearAgrees(nd, a, b);
    OthersAgree(nd, a, b);
    PrefixAgrees(nd, a, b);
    PunctuationAgrees(nd, a, b);
    var all := forall i: nat :: i < 19 ==> SameAt(nd, a, b, i);
    if SameFields(Fields(nd, a), Fields(nd, b)) {
      forall i: nat | i < 19 ensures SameAt(nd, a, b, i) {}
    }
    if all {
      assert SameAt(nd, a, b, 0) && SameAt(nd, a, b, 1) && SameAt(nd, a, b, 2) && SameAt(nd, a, b, 3);
      assert SameAt(nd, a, b, 5) && SameAt(nd, a, b, 6) && SameAt(nd, a, b, 8) && SameAt(nd, a, b, 9);
      assert SameAt(nd, a, b, 11) && SameAt(nd, a, b, 12) && SameAt(nd, a, b, 14) && SameAt(nd, a, b, 15);
      assert SameAt(nd, a, b, 17) && SameAt(nd, a, b, 18);
    }
  }

  lemma PunctuationAgrees(nd: DigitOf, a: string, b: string)
    requires Repertoire(nd) && Shaped(nd, a) && Shaped(nd, b)
    ensures SameAt(nd, a, b, 4) && SameAt(nd, a, b, 7) && SameAt(nd, a, b, 10) && SameAt(nd, a, b, 13) && SameAt(nd, a, b, 16)
  {
    hide Repertoire;
  }

  lemma PrefixAgrees(nd: DigitOf, a: string, b: string)
    requires Repertoire(nd) && |a| >= 20 && |b| >= 20
    ensures Plain(nd, a)[..19] == Plain(nd, b)[..19] <==> forall i: nat :: i < 19 ==> SameAt(nd, a, b, i)
  {
    hide Repertoire, AsciiOf;
    var p, q := Plain(nd, a)[..19], Plain(nd, b)[..19];
    if p == q {
      forall i: nat | i < 19 ensures SameAt(nd, a, b, i) { assert p[i] == q[i]; }
    }
    if forall i: nat :: i < 19 ==> SameAt(nd, a, b, i) {
      forall i: nat | i < 19 ensures p[i] == q[i] { assert SameAt(nd, a, b, i); }
    }
  }

  lemma StrippedAgree(s: string, t: string)
    requires |s| >= 20 && |t| >= 20
    ensures Stripped(s) == Stripped(t) <==> s[..19] == t[..19] && Trimmed(Fraction(s)) == Trimmed(Fraction(t))
  {
    hide Trimmed, Fraction;
    var f, g := Trimmed(Fraction(s)), Trimmed(Fraction(t));
    var x, y := (if f == [] then [] else "." + f) + "Z", (if g == [] then [] else "." + g) + "Z";
    assert Stripped(s) == s[..19] + x && Stripped(t) == t[..19] + y;
    if Stripped(s) == Stripped(t) {
      assert s[..19] == Stripped(s)[..19] == Stripped(t)[..19] == t[..19];
      assert x == Stripped(s)[19..] == Stripped(t)[19..] == y;
      assert f == (if |x| == 1 then [] else x[1..|x| - 1]);
      assert g == (if |y| == 1 then [] else y[1..|y| - 1]);
    }
  }

  /** Two accepted texts have the same integer exactly when, digits written in ASCII, they differ only in
      trailing fraction zeros; and integers are ordered as the calendar is. */
  lemma EqualInstants(nd: DigitOf, a: string, b: string)
    requires Repertoire(nd) && Read(nd, a).Some? && Read(nd, b).Some?
    ensures Read(nd, a) == Read(nd, b) <==> Stripped(Plain(nd, a)) == Stripped(Plain(nd, b))
    ensures Read(nd, a).value < Read(nd, b).value <==> Earlier(Fields(nd, a), Fields(nd, b))
  {
    ReadsExactly(nd, a);
    ReadsExactly(nd, b);
    ShapedFractions(nd, a);
    ShapedFractions(nd, b);
    hide Read, Repertoire, Instant, Valid, Stripped, Trimmed, Padded, Fraction, Earlier, AsciiOf;
    var c, d := Fields(nd, a), Fields(nd, b);
    InstantsAreOrdered(c, d);
    DatesAgree(nd, a, b);
    FractionsAgree(nd, Fraction(a), Fraction(b));
    FractionOfPlain(nd, a);
    FractionOfPlain(nd, b);
    StrippedAgree(Plain(nd, a), Plain(nd, b));
    hide Shaped, Plain;
  }

  lemma ShapedFractions(nd: DigitOf, t: string)
    requires Shaped(nd, t)
    ensures |Fraction(t)| <= FRACTION_DIGITS && AllDigits(nd, Fraction(t))
  {
  }

  lemma PlainOfAscii(nd: DigitOf, t: string)
    requires Repertoire(nd)
    ensures Plain(nd, t) == t <==> forall i :: 0 <= i < |t| ==> (nd(t[i]).Some? ==> t[i] < 128 as char)
    ensures Ascii(t) ==> Plain(nd, t) == t
  {
    forall i | 0 <= i < |t| ensures Plain(nd, t)[i] == t[i] <==> (nd(t[i]).Some? ==> t[i] < 128 as char) { PlainIsDigit(nd, t[i]); }
  }

  /** For ASCII texts: the same integer exactly when they differ only in trailing fraction zeros. */
  lemma AsciiTextsAgree(nd: DigitOf, a: string, b: string)
    requires Repertoire(nd) && Ascii(a) && Ascii(b) && Read(nd, a).Some? && Read(nd, b).Some?
    ensures Read(nd, a) == Read(nd, b) <==> Stripped(a) == Stripped(b)
  {
    PlainOfAscii(nd, a);
    PlainOfAscii(nd, b);
    EqualInstants(nd, a, b);
  }

  /** Writing the digits in ASCII keeps a text acceptable, with the same fields. */
  lemma PlainIsRead(nd: DigitOf, t: string)
    requires Repertoire(nd) && Shaped(nd, t)
    ensures Shaped(nd, Plain(nd, t)) && Fields(nd, Plain(nd, t)) == Fields(nd, t) && Ascii(Plain(nd, t))
  {
    var p := Plain(nd, t);
    PlainCharacters(nd, t);
    ShapedFractions(nd, t);
    FractionOfPlain(nd, t);
    PlainDigits(nd, Fraction(t));
    SameNumber(nd, Padded(Fraction(t)));
    PlainPadded(nd, Fraction(t));
    hide Repertoire, Plain, AsciiOf, Number, Padded;
  }

  lemma PlainDigits(nd: DigitOf, s: string)
    requires Repertoire(nd) && AllDigits(nd, s)
    ensures AllDigits(nd, Plain(nd, s))
  {
    forall i | 0 <= i < |s| ensures nd(Plain(nd, s)[i]).Some? { PlainIsDigit(nd, s[i]); }
  }

  lemma PlainCharacters(nd: DigitOf, t: string)
    requires Repertoire(nd) && Shaped(nd, t)
    ensures |Plain(nd, t)| == |t|
    ensures forall i :: 0 <= i < |t| ==>
              Plain(nd, t)[i] < 128 as char && nd(Plain(nd, t)[i]) == nd(t[i]) && (t[i] < 128 as char ==> Plain(nd, t)[i] == t[i])
  {
    hide Shaped;
    forall i | 0 <= i < |t|
      ensures Plain(nd, t)[i] < 128 as char && nd(Plain(nd, t)[i]) == nd(t[i]) && (t[i] < 128 as char ==> Plain(nd, t)[i] == t[i])
    {
      PlainIsDigit(nd, t[i]);
      ShapedCharacters(nd, t, i);
    }
  }

  lemma ShapedCharacters(nd: DigitOf, t: string, i: nat)
    requires Repertoire(nd) && Shaped(nd, t) && i < |t|
    ensures nd(t[i]).Some? || t[i] in {'-', 'T', ':', '.', 'Z'}
  {
    ShapedDigits(nd, t);
    if 20 <= i < |t| - 1 { assert Fraction(t)[i - 20] == t[i]; }
  }

  lemma {:induction false} SameNumber(nd: DigitOf, s: string)
    requires Repertoire(nd)
    ensures Number(nd, Plain(nd, s)) == Number(nd, s)
  {
    if s != [] {
      SameNumber(nd, s[..|s| - 1]);
      assert Plain(nd, s)[..|s| - 1] == Plain(nd, s[..|s| - 1]);
      PlainIsDigit(nd, s[|s| - 1]);
    }
  }

  /** The ASCII guard is exact.  Any accepted text shares its integer with its ASCII form, and the two
      differ only in trailing fraction zeros if and only if the text was ASCII. */
  lemma AsciiGuardIsExact(nd: DigitOf, t: string)
    requires Repertoire(nd) && Read(nd, t).Some?
    ensures Read(nd, Plain(nd, t)) == Read(nd, t)
    ensures Stripped(t) == Stripped(Plain(nd, t)) <==> Ascii(t)
  {
    ReadsExactly(nd, t);
    PlainIsRead(nd, t);
    ReadsExactly(nd, Plain(nd, t));
    PlainOfAscii(nd, t);
    if !Ascii(t) { NonAsciiShows(nd, t); }
    hide Read, Fields, Instant, Valid, Shaped, Stripped, Repertoire;
  }

  /** A character outside ASCII is never trimmed, and never survives rewriting. */
  lemma NonAsciiShows(nd: DigitOf, t: string)
    requires Repertoire(nd) && Shaped(nd, t) && !Ascii(t)
    ensures Stripped(t) != Stripped(Plain(nd, t))
  {
    hide Shaped, Stripped, Trimmed, Plain;
    ShapedEnds(nd, t);
    var i :| 0 <= i < |t| && t[i] >= 128 as char;
    ShapedCharacters(nd, t, i);
    StrippedAgree(t, Plain(nd, t));
    FractionOfPlain(nd, t);
    PlainIsDigit(nd, t[i]);
    if i < 19 {
      assert t[..19][i] != Plain(nd, t)[..19][i];
    } else {
      assert Fraction(t)[i - 20] == t[i];
      TrimmedKeeps(Fraction(t), i - 20);
      TrimmedPrefix(Plain(nd, Fraction(t)));
    }
  }

  lemma ShapedEnds(nd: DigitOf, t: string)
    requires Shaped(nd, t)
    ensures |t| >= 20 && t[|t| - 1] == 'Z' && (|t| > 20 ==> t[19] == '.')
  {
  }

  /** A character that is no zero survives trimming. */
  lemma {:induction false} TrimmedKeeps(s: string, i: nat)
    requires i < |s| && s[i] != '0'
    ensures i < |Trimmed(s)| && Trimmed(s)[i] == s[i]
  {
    if s[|s| - 1] == '0' { TrimmedKeeps(s[..|s| - 1], i); }
  }

  lemma {:induction false} TrimmedPrefix(s: string)
    ensures |Trimmed(s)| <= |s| && Trimmed(s) == s[..|Trimmed(s)|]
  {
    if s != [] && s[|s| - 1] == '0' { TrimmedPrefix(s[..|s| - 1]); }
  }

  /** The promise fails outside ASCII: with a second character worth one, two texts that are not the same up
      to trailing zeros share an integer. */
  lemma NonAsciiDigitsCollide(nd: DigitOf, one: char) returns (a: string, b: string)
    requires Repertoire(nd) && nd(one) == Some(1) && one >= 128 as char
    ensures Read(nd, a).Some? && Read(nd, a) == Read(nd, b) && Stripped(a) != Stripped(b)
    ensures a == "2026-01-01T00:00:00.1Z" && |b| == |a| && b[20] == one
  {
    hide Read, Fields, Shaped, Stripped;
    assert nd('1') == Some(1);
    a := Sample('1');
    b := Sample(one);
    SampleIsRead(nd, '1');
    SampleIsRead(nd, one);
    SampleIsPlain(nd, one);
    AsciiGuardIsExact(nd, b);
    assert b[20] == one;
  }

  lemma SampleIsPlain(nd: DigitOf, one: char)
    requires Repertoire(nd) && nd(one) == Some(1)
    ensures Plain(nd, Sample(one)) == Sample('1')
  {
    var a, b := Sample('1'), Sample(one);
    forall i | 0 <= i < |a| ensures Plain(nd, b)[i] == a[i] { PlainIsDigit(nd, b[i]); }
  }

  lemma SampleIsRead(nd: DigitOf, one: char)
    requires Repertoire(nd) && nd(one) == Some(1)
    ensures Read(nd, Sample(one)).Some?
  {
    hide Fields, Shaped, Sample;
    SampleIsShaped(nd, one);
    ReadsExactly(nd, Sample(one));
  }

  function Sample(one: char): string { "2026-01-01T00:00:00." + [one] + "Z" }

  lemma SampleIsShaped(nd: DigitOf, one: char)
    requires Repertoire(nd) && nd(one) == Some(1)
    ensures Shaped(nd, Sample(one))
    ensures var c := Fields(nd, Sample(one)); c.year == 2026 && c.month == 1 && c.day == 1 && c.second == 0
  {
    hide Number, Padded;
    var t := Sample(one);
    assert |t| == 22 && Fraction(t) == [one];
    assert nd('0') == Some(0) && nd('1') == Some(1) && nd('2') == Some(2) && nd('6') == Some(6);
    hide Repertoire;
  }

  // ---------- Every calendar instant has a text ----------

  function DigitChar(n: int): char
    requires 0 <= n < 10
  {
    '0' + n as char
  }

  function Digits(n: nat, width: nat): (s: string)
    ensures |s| == width
  {
    if width == 0 then [] else Digits(n / 10, width - 1) + [DigitChar(n % 10)]
  }

  lemma {:induction false} DigitsRoundTrip(nd: DigitOf, n: nat, width: nat)
    requires Repertoire(nd) && n < Pow10(width)
    ensures Number(nd, Digits(n, width)) == n && AllDigits(nd, Digits(n, width))
  {
    if width > 0 {
      DigitsRoundTrip(nd, n / 10, width - 1);
      assert Digits(n, width)[..width - 1] == Digits(n / 10, width - 1);
      assert nd(DigitChar(n % 10)) == Some(n % 10);
    }
  }

  /** The date and time of an instant, as nineteen characters. */
  function DateText(c: Civil): (s: string)
    requires Valid(c)
    ensures |s| == 19
  {
    [DigitChar(c.year / 100 / 10), DigitChar(c.year / 100 % 10), DigitChar(c.year % 100 / 10), DigitChar(c.year % 100 % 10), '-',
     DigitChar(c.month / 10), DigitChar(c.month % 10), '-', DigitChar(c.day / 10), DigitChar(c.day % 10), 'T',
     DigitChar(c.hour / 10), DigitChar(c.hour % 10), ':', DigitChar(c.minute / 10), DigitChar(c.minute % 10), ':',
     DigitChar(c.second / 10), DigitChar(c.second % 10)]
  }

  function Written(c: Civil): string
    requires Valid(c)
  {
    DateText(c) + "." + Digits(c.fraction, FRACTION_DIGITS) + "Z"
  }

  lemma WrittenCharacters(c: Civil)
    requires Valid(c)
    ensures var t := Written(c);
            |t| == 39 && t[..19] == DateText(c) && t[19] == '.' && t[38] == 'Z' && Fraction(t) == Digits(c.fraction, FRACTION_DIGITS)
  {
    hide DateText, Digits;
  }

  lemma DigitCharIs(nd: DigitOf, n: int)
    requires Repertoire(nd) && 0 <= n < 10
    ensures nd(DigitChar(n)) == Some(n) && Worth(nd, DigitChar(n)) == n
  {
  }

  /** Every valid calendar instant, down to 10^-18 s, is written by some accepted text. */
  lemma WrittenIsRead(nd: DigitOf, c: Civil)
    requires Repertoire(nd) && Valid(c)
    ensures Read(nd, Written(c)) == Some(Instant(c))
  {
    hide Read, Instant;
    var t := Written(c);
    ScaleIsPow10();
    DigitsRoundTrip(nd, c.fraction, FRACTION_DIGITS);
    WrittenCharacters(c);
    WrittenDate(nd, c, t);
    ReadsExactly(nd, t);
    hide Written, Shaped, Pow10, Repertoire;
    assert Padded(Fraction(t)) == Fraction(t);
    assert Fields(nd, t) == c;
  }

  lemma WrittenPair(nd: DigitOf, n: int, a: char, b: char)
    requires Repertoire(nd) && 0 <= n < 100 && a == DigitChar(n / 10) && b == DigitChar(n % 10)
    ensures Two(nd, a, b) == n && nd(a).Some? && nd(b).Some?
    ensures 1 <= n <= 12 ==> MonthText(a, b)
    ensures 1 <= n <= 31 ==> DayText(nd, a, b)
    ensures n < 24 ==> HourText(nd, a, b)
    ensures n < 60 ==> MinuteText(nd, a, b)
  {
    DigitCharIs(nd, n / 10);
    DigitCharIs(nd, n % 10);
    hide Repertoire;
  }

  lemma DateCharacters(c: Civil, t: string)
    requires Valid(c) && |t| == 39 && t[..19] == DateText(c)
    ensures t[0] == DigitChar(c.year / 100 / 10) && t[1] == DigitChar(c.year / 100 % 10)
    ensures t[2] == DigitChar(c.year % 100 / 10) && t[3] == DigitChar(c.year % 100 % 10)
    ensures t[5] == DigitChar(c.month / 10) && t[6] == DigitChar(c.month % 10)
    ensures t[8] == DigitChar(c.day / 10) && t[9] == DigitChar(c.day % 10)
    ensures t[11] == DigitChar(c.hour / 10) && t[12] == DigitChar(c.hour % 10)
    ensures t[14] == DigitChar(c.minute / 10) && t[15] == DigitChar(c.minute % 10)
    ensures t[17] == DigitChar(c.second / 10) && t[18] == DigitChar(c.second % 10)
    ensures t[4] == '-' && t[7] == '-' && t[10] == 'T' && t[13] == ':' && t[16] == ':'
  {
    hide DigitChar;
    var s := DateText(c);
    assert forall i :: 0 <= i < 19 ==> t[i] == t[..19][i] == s[i];
  }

  lemma WrittenDate(nd: DigitOf, c: Civil, t: string)
    requires Repertoire(nd) && Valid(c) && |t| == 39 && t[..19] == DateText(c) && t[19] == '.' && t[38] == 'Z'
    requires AllDigits(nd, Fraction(t))
    ensures Shaped(nd, t) && SameFields(Fields(nd, t), c)
  {
    hide Number, Padded, Fraction, AllDigits, Repertoire, DateText, DigitChar, Two, MonthText, DayText, HourText, MinuteText;
    DateCharacters(c, t);
    WrittenPair(nd, c.year / 100, t[0], t[1]);
    WrittenPair(nd, c.year % 100, t[2], t[3]);
    WrittenPair(nd, c.month, t[5], t[6]);
    WrittenPair(nd, c.day, t[8], t[9]);
    WrittenPair(nd, c.hour, t[11], t[12]);
    WrittenPair(nd, c.minute, t[14], t[15]);
    WrittenPair(nd, c.second, t[17], t[18]);
  }
}
