/** Sorting by a total order, and why its result depends on the elements alone. */
module Ordering {

  predicate Sorted<T(!new)>(leq: (T, T) -> bool, s: seq<T>) {
    forall i, j :: 0 <= i < j < |s| ==> leq(s[i], s[j])
  }

  ghost predicate Total<T(!new)>(leq: (T, T) -> bool) {
    && (forall x, y :: leq(x, y) || leq(y, x))
    && (forall x, y, z :: leq(x, y) && leq(y, z) ==> leq(x, z))
  }

  function Insert<T>(leq: (T, T) -> bool, x: T, s: seq<T>): seq<T> {
    if s == [] then [x] else if leq(x, s[0]) then [x] + s else [s[0]] + Insert(leq, x, s[1..])
  }

  function Sort<T>(leq: (T, T) -> bool, s: seq<T>): seq<T> {
    if s == [] then [] else Insert(leq, s[0], Sort(leq, s[1..]))
  }

  lemma {:induction false} InsertKeeps<T>(leq: (T, T) -> bool, x: T, s: seq<T>)
    ensures multiset(Insert(leq, x, s)) == multiset(s) + multiset{x}
  {
    if s != [] {
      assert s == [s[0]] + s[1..];
      if !leq(x, s[0]) { InsertKeeps(leq, x, s[1..]); }
    }
  }

  lemma {:induction false} InsertSorts<T(!new)>(leq: (T, T) -> bool, x: T, s: seq<T>)
    requires Total(leq) && Sorted(leq, s)
    ensures Sorted(leq, Insert(leq, x, s))
  {
    if s != [] && !leq(x, s[0]) {
      InsertSorts(leq, x, s[1..]);
      InsertKeeps(leq, x, s[1..]);
      var r := Insert(leq, x, s[1..]);
      forall j | 0 <= j < |r| ensures leq(s[0], r[j]) {
        assert r[j] in multiset(r);
        assert r[j] == x || r[j] in s[1..];
      }
    }
  }

  lemma {:induction false} SortSorts<T(!new)>(leq: (T, T) -> bool, s: seq<T>)
    requires Total(leq)
    ensures Sorted(leq, Sort(leq, s)) && multiset(Sort(leq, s)) == multiset(s)
  {
    if s != [] {
      SortSorts(leq, s[1..]);
      InsertSorts(leq, s[0], Sort(leq, s[1..]));
      InsertKeeps(leq, s[0], Sort(leq, s[1..]));
      assert s == [s[0]] + s[1..];
    }
  }

  lemma SmallestFirst<T(!new)>(leq: (T, T) -> bool, a: seq<T>, x: T)
    requires Sorted(leq, a) && x in multiset(a)
    ensures a != [] && (x == a[0] || leq(a[0], x))
  {
    var i :| 0 <= i < |a| && a[i] == x;
  }

  lemma HeadAndTail<T>(a: seq<T>)
    requires a != []
    ensures multiset(a) == multiset{a[0]} + multiset(a[1..]) && a[0] in multiset(a)
  {
    assert a == [a[0]] + a[1..];
  }

  /** The order tells the members of `among` apart. */
  ghost predicate Separates<T(!new)>(leq: (T, T) -> bool, among: set<T>) {
    forall x, y :: x in among && y in among && leq(x, y) && leq(y, x) ==> x == y
  }

  lemma SortedTail<T(!new)>(leq: (T, T) -> bool, a: seq<T>)
    requires Sorted(leq, a) && a != []
    ensures Sorted(leq, a[1..])
  {
  }

  lemma SameHead<T(!new)>(leq: (T, T) -> bool, a: seq<T>, b: seq<T>, among: set<T>)
    requires Sorted(leq, a) && Sorted(leq, b) && multiset(a) == multiset(b) && a != []
    requires Separates(leq, among) && forall x :: x in multiset(a) ==> x in among
    ensures b != [] && a[0] == b[0] && multiset(a[1..]) == multiset(b[1..])
  {
    HeadAndTail(a);
    SmallestFirst(leq, b, a[0]);
    HeadAndTail(b);
    SmallestFirst(leq, a, b[0]);
    assert multiset(a[1..]) == multiset(a) - multiset{a[0]};
    assert multiset(b[1..]) == multiset(b) - multiset{b[0]};
  }

  function Without<T>(b: seq<T>, i: nat): (r: seq<T>)
    requires i < |b|
    ensures |r| == |b| - 1 && forall k :: 0 <= k < |r| ==> r[k] == b[if k < i then k else k + 1]
  {
    b[..i] + b[i + 1..]
  }

  lemma Remove<T>(b: seq<T>, i: nat)
    requires i < |b|
    ensures multiset(b) == multiset{b[i]} + multiset(Without(b, i))
    ensures multiset(Without(b, i)) == multiset(b) - multiset{b[i]}
  {
    assert b == b[..i] + ([b[i]] + b[i + 1..]);
  }

  /** Two sorted arrangements of the same elements are the same sequence, when the order separates them. */
  lemma {:induction false} SortedIsUnique<T(!new)>(leq: (T, T) -> bool, a: seq<T>, b: seq<T>, among: set<T>)
    requires Sorted(leq, a) && Sorted(leq, b) && multiset(a) == multiset(b)
    requires Separates(leq, among) && forall x :: x in multiset(a) ==> x in among
    ensures a == b
    decreases |a|
  {
    hide Sorted, Separates;
    if a == [] {
      assert b == [] by { if b != [] { HeadAndTail(b); } }
    } else {
      SameHead(leq, a, b, among);
      SortedTail(leq, a);
      SortedTail(leq, b);
      HeadAndTail(a);
      SortedIsUnique(leq, a[1..], b[1..], among);
      assert a == [a[0]] + a[1..] && b == [b[0]] + b[1..];
    }
  }

  // ---------- Text, octet by octet ----------

  predicate TextLeq(a: string, b: string) {
    a == [] || (b != [] && (a[0] < b[0] || (a[0] == b[0] && TextLeq(a[1..], b[1..]))))
  }

  lemma {:induction false} TextTotal(a: string, b: string)
    ensures TextLeq(a, b) || TextLeq(b, a)
  {
    if a != [] && b != [] && a[0] == b[0] { TextTotal(a[1..], b[1..]); }
  }

  lemma {:induction false} TextTransitive(a: string, b: string, c: string)
    requires TextLeq(a, b) && TextLeq(b, c)
    ensures TextLeq(a, c)
  {
    if a != [] && a[0] == b[0] == c[0] { TextTransitive(a[1..], b[1..], c[1..]); }
  }

  lemma {:induction false} TextAntisymmetric(a: string, b: string)
    requires TextLeq(a, b) && TextLeq(b, a)
    ensures a == b
  {
    if a != [] {
      TextAntisymmetric(a[1..], b[1..]);
      assert a == [a[0]] + a[1..] && b == [b[0]] + b[1..];
    }
  }

  lemma TextOrder()
    ensures Total(TextLeq)
    ensures forall a, b :: TextLeq(a, b) && TextLeq(b, a) ==> a == b
  {
    forall a, b ensures TextLeq(a, b) || TextLeq(b, a) { TextTotal(a, b); }
    forall a, b, c | TextLeq(a, b) && TextLeq(b, c) ensures TextLeq(a, c) { TextTransitive(a, b, c); }
    forall a, b | TextLeq(a, b) && TextLeq(b, a) ensures a == b { TextAntisymmetric(a, b); }
  }

  /** Sorting text is canonical: it depends only on which texts there are. */
  lemma TextSortIsCanonical(a: seq<string>, b: seq<string>)
    requires multiset(a) == multiset(b)
    ensures Sort(TextLeq, a) == Sort(TextLeq, b)
  {
    TextOrder();
    SortSorts(TextLeq, a);
    SortSorts(TextLeq, b);
    SortedIsUnique(TextLeq, Sort(TextLeq, a), Sort(TextLeq, b), set x | x in a);
  }

  lemma SortedTextStays(a: seq<string>)
    requires Sorted(TextLeq, a)
    ensures Sort(TextLeq, a) == a
  {
    TextOrder();
    SortSorts(TextLeq, a);
    SortedIsUnique(TextLeq, Sort(TextLeq, a), a, set x | x in a);
  }
}
