/** Keyset pagination over inventories that do not change: pages of 100 rows after a cursor, each row's
    cursor strictly past the last, at most 10,000 pages, and a count that must be met exactly. */
module Keyset {
  import opened Options
  import opened SqlArchive
  import opened Ordering

  const PAGE_SIZE: nat := 100
  const MAX_PAGES: nat := 10_000
  const MAX_CURSOR: nat := 512

  /** A row as a page returns it: its cursor, if its key is text, and everything else. */
  datatype Row = Row(key: Option<string>, fields: string)

  function KeyOf(r: Row): string { if r.key.Some? then r.key.value else [] }

  /** Where a continuation starts: after the last row collected. */
  function Cursor(rows: seq<Row>): string { if rows == [] then [] else KeyOf(rows[|rows| - 1]) }

  predicate After(a: string, b: string) { TextLeq(a, b) && a != b }

  /** The rows a page may draw from. */
  function Selected(table: seq<Row>, after: string): seq<Row> {
    if table == [] then []
    else (if table[0].key.Some? && After(after, table[0].key.value) then [table[0]] else []) + Selected(table[1..], after)
  }

  predicate KeyLeq(a: Row, b: Row) { a.key.None? || (b.key.Some? && TextLeq(a.key.value, b.key.value)) }

  /** What the paged query may answer: the first hundred of the selected rows, in some arrangement by key
      that leaves ties open, or all of them when there are fewer. */
  ghost predicate IsPage(table: seq<Row>, after: string, page: seq<Row>, rest: seq<Row>) {
    && multiset(page + rest) == multiset(Selected(table, after)) && Sorted(KeyLeq, page + rest)
    && |page| <= PAGE_SIZE && (|page| < PAGE_SIZE ==> rest == [])
  }

  // ---------- What a collection is ----------

  /** Strictly increasing, nonempty keys. */
  ghost predicate InKeyOrder(rows: seq<Row>) {
    && (forall i :: 0 <= i < |rows| ==> rows[i].key.Some? && rows[i].key.value != [])
    && (forall i, j :: 0 <= i < j < |rows| ==> After(rows[i].key.value, rows[j].key.value))
  }

  /** Every row of the table exactly once, in key order. */
  ghost predicate Exactly(table: seq<Row>, rows: seq<Row>) {
    InKeyOrder(rows) && multiset(rows) == multiset(table)
  }

  /** What the page protocol can carry: fewer than a million rows, cursors of at most 512 characters, and
      no NUL in a cursor a continuation starts from. */
  ghost predicate Carriable(rows: seq<Row>) {
    && InKeyOrder(rows) && |rows| < MAX_PAGES * PAGE_SIZE
    && (forall i :: 0 <= i < |rows| ==> |rows[i].key.value| <= MAX_CURSOR)
    && (forall m :: 0 < m && m * PAGE_SIZE <= |rows| ==> '\0' !in rows[m * PAGE_SIZE - 1].key.value)
  }

  // ---------- Order ----------

  lemma AfterTransitive(a: string, b: string, c: string)
    requires After(a, b) && TextLeq(b, c)
    ensures After(a, c)
  {
    TextTransitive(a, b, c);
    if a == c { TextAntisymmetric(a, b); }
  }

  lemma AfterExcludes(a: string, b: string)
    ensures TextLeq(a, b) <==> !After(b, a)
    ensures [] != b ==> After([], b)
  {
    TextTotal(a, b);
    if TextLeq(a, b) && TextLeq(b, a) { TextAntisymmetric(a, b); }
  }

  lemma KeyOrderTotal()
    ensures Total(KeyLeq)
  {
    TextOrder();
    hide TextLeq;
  }

  lemma {:induction false} SelectedIs(table: seq<Row>, after: string)
    ensures multiset(Selected(table, after)) <= multiset(table)
    ensures forall r :: r in Selected(table, after) ==> r.key.Some? && After(after, r.key.value)
  {
    if table != [] {
      SelectedIs(table[1..], after);
      HeadAndTail(table);
    }
  }

  /** How often a row is selected. */
  lemma {:induction false} SelectedCount(table: seq<Row>, after: string, r: Row)
    ensures multiset(Selected(table, after))[r]
            == if r.key.Some? && After(after, r.key.value) then multiset(table)[r] else 0
  {
    hide After;
    if table != [] {
      SelectedCount(table[1..], after, r);
      HeadAndTail(table);
    }
  }

  // ---------- A page that is accepted ----------

  /** Everything collected so far, and everything still ahead of the cursor, fits inside the table. */
  ghost predicate Ahead(table: seq<Row>, rows: seq<Row>, after: string) {
    && InKeyOrder(rows) && after == Cursor(rows)
    && multiset(rows) + multiset(Selected(table, after)) <= multiset(table)
  }

  lemma {:induction false} InKeyOrderGrows(rows: seq<Row>, row: Row)
    requires InKeyOrder(rows) && row.key.Some? && After(Cursor(rows), row.key.value)
    ensures InKeyOrder(rows + [row])
  {
    forall i | 0 <= i < |rows| ensures After(rows[i].key.value, row.key.value) {
      if i < |rows| - 1 { AfterTransitive(rows[i].key.value, rows[|rows| - 1].key.value, row.key.value); }
    }
  }

  /** Accepting a page moves its rows from ahead of the cursor to the collection. */
  lemma PageMoves(table: seq<Row>, rows: seq<Row>, after: string, page: seq<Row>, rest: seq<Row>, last: string)
    requires Ahead(table, rows, after) && IsPage(table, after, page, rest)
    requires InKeyOrder(rows + page) && last == Cursor(rows + page)
    ensures Ahead(table, rows + page, last)
    ensures |page| < PAGE_SIZE ==> Selected(table, last) == []
  {
    if page == [] {
      assert rows + page == rows && last == after;
      if Selected(table, after) != [] { HeadAndTail(Selected(table, after)); }
    } else {
      assert last == KeyOf(page[|page| - 1]);
      forall r ensures multiset(rows + page)[r] + multiset(Selected(table, last))[r] <= multiset(table)[r] {
        MovedRow(table, rows, after, page, rest, last, r);
      }
      if |page| < PAGE_SIZE && Selected(table, last) != [] {
        var r := Selected(table, last)[0];
        assert multiset(Selected(table, last))[r] > 0;
        MovedRow(table, rows, after, page, rest, last, r);
      }
    }
  }

  lemma MovedRow(table: seq<Row>, rows: seq<Row>, after: string, page: seq<Row>, rest: seq<Row>, last: string, r: Row)
    requires Ahead(table, rows, after) && IsPage(table, after, page, rest) && page != [] && last == KeyOf(page[|page| - 1])
    requires InKeyOrder(rows + page)
    ensures multiset(rows + page)[r] + multiset(Selected(table, last))[r] <= multiset(table)[r]
    ensures multiset(Selected(table, last))[r] <= multiset(rest)[r]
  {
    hide After, TextLeq, KeyLeq;
    SelectedCount(table, after, r);
    SelectedCount(table, last, r);
    assert multiset(page + rest)[r] == multiset(page)[r] + multiset(rest)[r];
    if r.key.Some? && After(last, r.key.value) {
      LastIsPast(rows, page, after, last, r);
      NotBeforeLast(rows, page, last, r);
    }
  }

  lemma LastIsPast(rows: seq<Row>, page: seq<Row>, after: string, last: string, r: Row)
    requires page != [] && last == KeyOf(page[|page| - 1]) && InKeyOrder(rows + page)
    requires after == Cursor(rows)
    requires r.key.Some? && After(last, r.key.value)
    ensures After(after, r.key.value)
  {
    var all := rows + page;
    assert all[|all| - 1].key.value == last && last != [];
    if rows == [] { AfterExcludes([], last); } else { assert all[|rows| - 1] == rows[|rows| - 1]; }
    AfterTransitive(after, last, r.key.value);
  }

  lemma NotBeforeLast(rows: seq<Row>, page: seq<Row>, last: string, r: Row)
    requires page != [] && last == KeyOf(page[|page| - 1]) && InKeyOrder(rows + page)
    requires r.key.Some? && After(last, r.key.value)
    ensures multiset(page)[r] == 0
  {
    if multiset(page)[r] > 0 {
      assert r in page;
      var i :| 0 <= i < |page| && page[i] == r;
      var all := rows + page;
      assert all[|rows| + i] == r && all[|all| - 1].key.value == last;
      if i < |page| - 1 { AfterExcludes(r.key.value, last); }
    }
  }

  // ---------- A collection that can succeed ----------

  lemma KeysSeparate(rows: seq<Row>)
    requires InKeyOrder(rows)
    ensures Separates(KeyLeq, set r | r in rows) && Sorted(KeyLeq, rows)
  {
    hide TextLeq;
    forall x, y | x in rows && y in rows && KeyLeq(x, y) && KeyLeq(y, x) ensures x == y {
      TextAntisymmetric(x.key.value, y.key.value);
      var i :| 0 <= i < |rows| && rows[i] == x;
      var j :| 0 <= j < |rows| && rows[j] == y;
    }
  }

  /** A table has at most one collection. */
  lemma ExactlyOne(table: seq<Row>, a: seq<Row>, b: seq<Row>)
    requires Exactly(table, a) && Exactly(table, b)
    ensures a == b
  {
    KeysSeparate(a);
    KeysSeparate(b);
    hide KeyLeq, InKeyOrder, Separates, Sorted;
    forall x | x in multiset(a) ensures x in set r | r in a {}
    SortedIsUnique(KeyLeq, a, b, set r | r in a);
  }

  lemma InKeyOrderTail(rows: seq<Row>, k: nat)
    requires InKeyOrder(rows) && k <= |rows|
    ensures InKeyOrder(rows[k..]) && InKeyOrder(rows[..k])
    ensures forall r :: r in rows[k..] ==> r.key.Some? && After(Cursor(rows[..k]), r.key.value)
    ensures forall r :: r in rows[..k] ==> r.key.Some? && !After(Cursor(rows[..k]), r.key.value)
  {
    hide TextLeq;
    var cursor := Cursor(rows[..k]);
    forall r | r in rows[k..] ensures r.key.Some? && After(cursor, r.key.value) {
      var i :| 0 <= i < |rows[k..]| && rows[k..][i] == r;
      assert rows[k + i] == r;
      if k == 0 { AfterExcludes([], r.key.value); } else { assert After(rows[k - 1].key.value, rows[k + i].key.value); }
    }
    forall r | r in rows[..k] ensures r.key.Some? && !After(cursor, r.key.value) {
      var i :| 0 <= i < k && rows[..k][i] == r;
      assert rows[i] == r;
      AfterExcludes(r.key.value, cursor);
      TextReflexive(cursor);
      if i < k - 1 { assert After(rows[i].key.value, rows[k - 1].key.value); }
    }
  }

  lemma TextReflexive(a: string)
    ensures TextLeq(a, a)
  {
    TextTotal(a, a);
  }

  /** From any point of the collection, what the query selects is the remainder. */
  lemma SelectedIsRemainder(table: seq<Row>, goal: seq<Row>, k: nat)
    requires Exactly(table, goal) && k <= |goal|
    ensures multiset(Selected(table, Cursor(goal[..k]))) == multiset(goal[k..])
  {
    hide Selected, InKeyOrder, After, Cursor;
    var after := Cursor(goal[..k]);
    InKeyOrderTail(goal, k);
    assert goal == goal[..k] + goal[k..];
    forall r ensures multiset(Selected(table, after))[r] == multiset(goal[k..])[r] {
      SelectedCount(table, after, r);
      assert multiset(table)[r] == multiset(goal[..k])[r] + multiset(goal[k..])[r];
      if r.key.Some? && After(after, r.key.value) {
        assert r !in goal[..k];
      } else {
        assert r !in goal[k..];
      }
    }
  }

  /** So the next page is the next stretch of the collection. */
  lemma NextPage(table: seq<Row>, goal: seq<Row>, k: nat, page: seq<Row>, rest: seq<Row>)
    requires Exactly(table, goal) && k <= |goal| && IsPage(table, Cursor(goal[..k]), page, rest)
    ensures page + rest == goal[k..]
    ensures |page| == if |goal| - k < PAGE_SIZE then |goal| - k else PAGE_SIZE
    ensures goal[..k] + page == goal[..k + |page|]
  {
    PageIsRemainder(table, goal, k, page, rest);
    hide KeyLeq, InKeyOrder, Sorted, Selected, Cursor;
    Stretch(goal, k, page, rest);
  }

  lemma Stretch(goal: seq<Row>, k: nat, page: seq<Row>, rest: seq<Row>)
    requires k <= |goal| && page + rest == goal[k..] && |page| <= PAGE_SIZE && (|page| < PAGE_SIZE ==> rest == [])
    ensures |page| == if |goal| - k < PAGE_SIZE then |goal| - k else PAGE_SIZE
    ensures goal[..k] + page == goal[..k + |page|]
  {
    assert |page| + |rest| == |goal| - k;
    forall i | 0 <= i < |page| ensures page[i] == goal[k + i] { assert (page + rest)[i] == goal[k..][i]; }
  }

  lemma PageIsRemainder(table: seq<Row>, goal: seq<Row>, k: nat, page: seq<Row>, rest: seq<Row>)
    requires Exactly(table, goal) && k <= |goal| && IsPage(table, Cursor(goal[..k]), page, rest)
    ensures page + rest == goal[k..]
  {
    SelectedIsRemainder(table, goal, k);
    InKeyOrderTail(goal, k);
    KeysSeparate(goal[k..]);
    hide KeyLeq, InKeyOrder, Separates, Sorted, Selected, Cursor;
    var tail := goal[k..];
    forall x | x in multiset(tail) ensures x in set r | r in tail {}
    SortedIsUnique(KeyLeq, tail, page + rest, set r | r in tail);
  }

  // ---------- The collection loop ----------

  predicate Short(rows: seq<Row>) { forall i :: 0 <= i < |rows| ==> |KeyOf(rows[i])| <= MAX_CURSOR }

  /** The rows of one page, each past the last. */
  method AcceptPage(rows: seq<Row>, page: seq<Row>) returns (r: Option<seq<Row>>)
    requires InKeyOrder(rows) && Short(rows)
    ensures r.Some? ==> r.value == rows + page && InKeyOrder(r.value) && Short(r.value)
    ensures r.None? ==> !(InKeyOrder(rows + page) && Short(rows + page))
  {
    hide After, TextLeq;
    var accepted := rows;
    var i := 0;
    while i < |page|
      invariant 0 <= i <= |page| && accepted == rows + page[..i] && InKeyOrder(accepted) && Short(accepted)
    {
      ghost var all := rows + page;
      assert all[..|rows| + i] == accepted && all[|rows| + i] == page[i];
      var after := Cursor(accepted);
      if page[i].key.None? || !After(after, page[i].key.value) || |page[i].key.value| > MAX_CURSOR {
        if InKeyOrder(all) { FollowsCursor(all, |rows| + i); }
        return None;
      }
      InKeyOrderGrows(accepted, page[i]);
      accepted := accepted + [page[i]];
      assert page[..i + 1] == page[..i] + [page[i]];
      i := i + 1;
    }
    assert page[..i] == page;
    return Some(accepted);
  }

  lemma FollowsCursor(all: seq<Row>, k: nat)
    requires InKeyOrder(all) && k < |all|
    ensures all[k].key.Some? && After(Cursor(all[..k]), all[k].key.value)
  {
    hide TextLeq;
    if k == 0 { AfterExcludes([], all[k].key.value); } else { assert After(all[k - 1].key.value, all[k].key.value); }
  }

  /** The database's answer to one page statement. */
  method Query(table: seq<Row>, after: string) returns (page: seq<Row>)
    ensures exists rest :: IsPage(table, after, page, rest)
  {
    hide KeyLeq, Selected;
    var sorted := Sort(KeyLeq, Selected(table, after));
    KeyOrderTotal();
    SortSorts(KeyLeq, Selected(table, after));
    var size := if |sorted| < PAGE_SIZE then |sorted| else PAGE_SIZE;
    page := sorted[..size];
    assert page + sorted[size..] == sorted;
    assert IsPage(table, after, page, sorted[size..]);
  }

  /** Whether some collection of the table can be carried by the pages. */
  ghost predicate Collectable(table: seq<Row>) {
    exists rows :: Exactly(table, rows) && Carriable(rows)
  }

  /** One inventory: exactly its rows in key order, or a refusal, and a refusal only when no such
      collection can be carried. */
  method Inventory(table: seq<Row>) returns (r: Option<seq<Row>>)
    ensures r.Some? ==> Exactly(table, r.value) && Carriable(r.value)
    ensures r.Some? <==> Collectable(table)
  {
    hide Selected, InKeyOrder, Short, KeyOf, IsPage, Ahead, Carriable, Exactly;
    ghost var possible, goal: seq<Row> := Collectable(table), [];
    if possible { goal :| Exactly(table, goal) && Carriable(goal); }
    var rows: seq<Row>, pages: nat := [], 0;
    StartAhead(table, goal, possible);
    while pages < MAX_PAGES
      invariant pages <= MAX_PAGES && |rows| == pages * PAGE_SIZE
      invariant Ahead(table, rows, Cursor(rows)) && InKeyOrder(rows) && Short(rows)
      invariant NoNulBefore(rows, pages)
      invariant possible ==> |rows| <= |goal| && rows == goal[..|rows|]
    {
      var after := Cursor(rows);
      if |after| > MAX_CURSOR || '\0' in after {
        if possible { ContinuationIsPlain(goal, rows, pages); }
        return None;
      }
      var page := Query(table, after);
      ghost var rest :| IsPage(table, after, page, rest);
      var accepted := AcceptPage(rows, page);
      if possible { NextPage(table, goal, |rows|, page, rest); }
      if accepted.None? {
        if possible { GoalIsAccepted(goal, |rows + page|); }
        return None;
      }
      PageSizes(table, after, page, rest);
      PageMoves(table, rows, after, page, rest, Cursor(accepted.value));
      if |accepted.value| > |table| {
        AheadIsInside(table, accepted.value);
        assert false;
      }
      NoNulAfter(rows, pages, page);
      rows := accepted.value;
      if |page| < PAGE_SIZE {
        if |rows| != |table| {
          if possible { GoalCounts(table, goal); }
          return None;
        }
        AllCollected(table, rows);
        ShortIsCarriable(rows, pages);
        return Some(rows);
      }
      pages := pages + 1;
    }
    if possible { GoalIsFinite(goal); }
    return None;
  }

  /** The cursors at the first `pages` full pages are free of NUL, except perhaps the last. */
  ghost predicate NoNulBefore(rows: seq<Row>, pages: nat) {
    forall m :: 0 < m < pages && m * PAGE_SIZE <= |rows| ==> '\0' !in KeyOf(rows[m * PAGE_SIZE - 1])
  }

  lemma StartAhead(table: seq<Row>, goal: seq<Row>, possible: bool)
    ensures Ahead(table, [], Cursor([])) && InKeyOrder([]) && Short([])
    ensures goal[..0] == []
  {
    SelectedIs(table, []);
    assert multiset([]) + multiset(Selected(table, [])) == multiset(Selected(table, []));
  }

  lemma ContinuationIsPlain(goal: seq<Row>, rows: seq<Row>, pages: nat)
    requires Carriable(goal) && |rows| <= |goal| && rows == goal[..|rows|] && |rows| == pages * PAGE_SIZE
    ensures |Cursor(rows)| <= MAX_CURSOR && '\0' !in Cursor(rows)
  {
    hide After;
    if rows != [] { assert pages * PAGE_SIZE <= |goal| && Cursor(rows) == goal[pages * PAGE_SIZE - 1].key.value; }
  }

  lemma GoalIsAccepted(goal: seq<Row>, k: nat)
    requires Carriable(goal) && k <= |goal|
    ensures InKeyOrder(goal[..k]) && Short(goal[..k])
  {
    InKeyOrderTail(goal, k);
  }

  lemma PageSizes(table: seq<Row>, after: string, page: seq<Row>, rest: seq<Row>)
    requires IsPage(table, after, page, rest)
    ensures |page| <= PAGE_SIZE
  {
  }

  lemma AheadIsInside(table: seq<Row>, rows: seq<Row>)
    requires Ahead(table, rows, Cursor(rows))
    ensures |rows| <= |table|
  {
    hide Selected;
    assert multiset(rows) <= multiset(table);
    Smaller(multiset(rows), multiset(table));
  }

  lemma Smaller<T>(a: multiset<T>, b: multiset<T>)
    requires a <= b
    ensures |a| <= |b| && (|a| == |b| ==> a == b)
  {
    assert b == a + (b - a);
    assert |b| == |a| + |b - a|;
  }

  lemma GoalCounts(table: seq<Row>, goal: seq<Row>)
    requires Exactly(table, goal)
    ensures |goal| == |table|
  {
    assert |multiset(goal)| == |multiset(table)|;
  }

  lemma AllCollected(table: seq<Row>, rows: seq<Row>)
    requires Ahead(table, rows, Cursor(rows)) && |rows| == |table|
    ensures Exactly(table, rows)
  {
    hide Selected;
    assert multiset(rows) <= multiset(table);
    Smaller(multiset(rows), multiset(table));
  }

  /** The checked cursor of a continuation joins the others. */
  lemma NoNulAfter(rows: seq<Row>, pages: nat, page: seq<Row>)
    requires NoNulBefore(rows, pages) && |rows| == pages * PAGE_SIZE && '\0' !in Cursor(rows)
    ensures NoNulBefore(rows + page, pages + 1)
  {
    forall m | 0 < m < pages + 1 && m * PAGE_SIZE <= |rows + page| ensures '\0' !in KeyOf((rows + page)[m * PAGE_SIZE - 1]) {
      assert m * PAGE_SIZE <= |rows|;
      assert (rows + page)[m * PAGE_SIZE - 1] == rows[m * PAGE_SIZE - 1];
    }
  }

  lemma ShortIsCarriable(rows: seq<Row>, pages: nat)
    requires InKeyOrder(rows) && Short(rows) && NoNulBefore(rows, pages + 1)
    requires pages < MAX_PAGES && |rows| < pages * PAGE_SIZE + PAGE_SIZE
    ensures Carriable(rows)
  {
    hide After;
    forall m | 0 < m && m * PAGE_SIZE <= |rows| ensures '\0' !in rows[m * PAGE_SIZE - 1].key.value {
      assert m < pages + 1;
    }
  }

  lemma GoalIsFinite(goal: seq<Row>)
    requires Carriable(goal)
    ensures |goal| < MAX_PAGES * PAGE_SIZE
  {
  }

  // ---------- Two sweeps ----------

  /** Every inventory in turn. */
  method Sweep(db: seq<seq<Row>>) returns (r: Option<seq<seq<Row>>>)
    ensures r.Some? ==> |r.value| == |db| && forall i :: 0 <= i < |db| ==> Exactly(db[i], r.value[i])
    ensures r.Some? <==> forall i :: 0 <= i < |db| ==> Collectable(db[i])
  {
    hide Exactly, Carriable, Collectable;
    var inventories: seq<seq<Row>> := [];
    var i := 0;
    while i < |db|
      invariant 0 <= i <= |db| && |inventories| == i
      invariant forall k :: 0 <= k < i ==> Exactly(db[k], inventories[k]) && Collectable(db[k])
    {
      var rows := Inventory(db[i]);
      if rows.None? { return None; }
      inventories := inventories + [rows.value];
      i := i + 1;
    }
    return Some(inventories);
  }

  /** The whole collection of an unchanging database: a result is exactly every row of every inventory in
      key order, and there is one if and only if every inventory can be carried. */
  method Collect(db: seq<seq<Row>>) returns (r: Option<seq<seq<Row>>>)
    ensures r.Some? ==> |r.value| == |db| && forall i :: 0 <= i < |db| ==> Exactly(db[i], r.value[i])
    ensures r.Some? <==> forall i :: 0 <= i < |db| ==> Collectable(db[i])
  {
    hide Exactly, Carriable, Collectable;
    var first := Sweep(db);
    if first.None? { return None; }
    var second := Sweep(db);
    if second.Some? {
      forall i | 0 <= i < |db| ensures first.value[i] == second.value[i] { ExactlyOne(db[i], first.value[i], second.value[i]); }
      assert first.value == second.value;
    }
    if second != first { return None; }
    return first;
  }

  /** Distinct, nonempty, NUL-free keys of at most 512 characters, and fewer than a million rows. */
  ghost predicate WellKeyed(table: seq<Row>) {
    && |table| < MAX_PAGES * PAGE_SIZE
    && (forall i :: 0 <= i < |table| ==>
          table[i].key.Some? && 0 < |table[i].key.value| <= MAX_CURSOR && '\0' !in table[i].key.value)
    && (forall i, j :: 0 <= i < j < |table| ==> table[i].key != table[j].key)
  }

  /** Such an inventory is always collected. */
  lemma WellKeyedIsCollectable(table: seq<Row>)
    requires WellKeyed(table)
    ensures Collectable(table)
  {
    hide KeyLeq, Sort;
    KeyOrderTotal();
    SortSorts(KeyLeq, table);
    var rows := Sort(KeyLeq, table);
    assert |rows| == |multiset(rows)| == |multiset(table)| == |table|;
    forall i | 0 <= i < |rows|
      ensures rows[i].key.Some? && 0 < |rows[i].key.value| <= MAX_CURSOR && '\0' !in rows[i].key.value
    {
      assert rows[i] in multiset(table);
      var j :| 0 <= j < |table| && table[j] == rows[i];
    }
    SortedDistinct(table, rows);
    forall i, j | 0 <= i < j < |rows| ensures After(rows[i].key.value, rows[j].key.value) {
      KeyLeqIsTextLeq(rows[i], rows[j]);
    }
    assert Exactly(table, rows) && Carriable(rows);
  }

  lemma KeyLeqIsTextLeq(a: Row, b: Row)
    requires a.key.Some? && b.key.Some? && KeyLeq(a, b)
    ensures TextLeq(a.key.value, b.key.value)
  {
  }

  /** Distinct keys stay distinct when the rows are rearranged. */
  lemma {:induction false} SortedDistinct(table: seq<Row>, rows: seq<Row>)
    requires multiset(rows) == multiset(table)
    requires forall i, j :: 0 <= i < j < |table| ==> table[i].key != table[j].key
    ensures forall i, j :: 0 <= i < j < |rows| ==> rows[i].key != rows[j].key
    decreases |rows|
  {
    if rows != [] {
      HeadAndTail(rows);
      var k :| 0 <= k < |table| && table[k] == rows[0];
      Remove(table, k);
      assert multiset(rows[1..]) == multiset(rows) - multiset{rows[0]};
      SortedDistinct(Without(table, k), rows[1..]);
      ApartFromHead(table, k, rows);
    }
  }

  lemma ApartFromHead(table: seq<Row>, k: nat, rows: seq<Row>)
    requires k < |table| && rows != [] && table[k] == rows[0]
    requires multiset(rows[1..]) == multiset(Without(table, k))
    requires forall i, j :: 0 <= i < j < |table| ==> table[i].key != table[j].key
    requires forall i, j :: 0 <= i < j < |rows| - 1 ==> rows[1..][i].key != rows[1..][j].key
    ensures forall i, j :: 0 <= i < j < |rows| ==> rows[i].key != rows[j].key
  {
    var others := Without(table, k);
    forall i, j | 0 <= i < j < |rows| ensures rows[i].key != rows[j].key {
      assert rows[1..][j - 1] == rows[j];
      if i > 0 { assert rows[1..][i - 1] == rows[i]; } else {
        assert rows[j] in multiset(others);
        var m :| 0 <= m < |others| && others[m] == rows[j];
        assert others[m] == table[if m < k then m else m + 1];
      }
    }
  }
}
