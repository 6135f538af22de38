/** The fixed-origin attempt: every mutation is latched durably before it is invoked, each at most
    once; teardown is ordered; one verdict is recorded.  An instance may be refused, raise, or die
    with the process at any point; a latch commit succeeds or the process dies. */
module FixedOrigin {
  import opened Options
  import opened Crashes

  /** The four resources in creation order: the database, the receiver, the two secrets. */
  type Slot = i: nat | i < 4

  datatype Key = Preflight | Create(i: Slot) | InitializeGuard | Install | Disable | Restore | Delete(i: Slot)

  datatype Result = NoResult | Truth(value: bool) | Identity(id: string) | Restored(exact: bool) | OtherResult

  datatype Row = Row(acknowledged: bool, result: Result)

  datatype Call = Call(key: Key, argument: string)

  /** The journal's contents, with what happened in the world: the calls made, and how many steps of
      the two halves were latched and called. */
  datatype Record = Record(operations: map<Key, Row>, confirmed: Option<bool>, calls: seq<Call>,
                           up: nat, down: nat, calledUp: nat, calledDown: nat)
  {
    /** How many creations were latched. */
    function Created(): nat { if up == 0 then 0 else if up <= 5 then up - 1 else 4 }
    predicate Acknowledged(k: Key) { k in operations && operations[k].acknowledged }
    /** Acknowledged with the result its caller insists on. */
    predicate Good(k: Key) {
      && Acknowledged(k)
      && match k
         case Create(_) => operations[k].result.Identity?
         case Restore => operations[k].result == Restored(true)
         case _ => operations[k].result == Truth(true)
    }
  }

  // ---------- The intended order ----------

  predicate IsUp(k: Key) { k.Preflight? || k.Create? || k.InitializeGuard? || k.Install? }

  /** The n-th step of provisioning. */
  function UpAt(n: nat): Key
    requires n < 7
  {
    if n == 0 then Preflight else if n <= 4 then Create(n - 1) else if n == 5 then InitializeGuard else Install
  }

  function UpPosition(k: Key): nat
    requires IsUp(k)
  {
    match k case Preflight => 0 case Create(i) => i + 1 case InitializeGuard => 5 case Install => 6
  }

  /** The n-th step of the teardown of `created` resources: last created, first deleted. */
  function DownAt(created: nat, n: nat): Key
    requires created <= 4 && n < created + 2
  {
    if n == 0 then Disable else if n == 1 then Restore else Delete(created + 1 - n)
  }

  /** Where a teardown step stands; a deletion of something never created stands nowhere. */
  function DownPosition(created: nat, k: Key): int
    requires !IsUp(k)
  {
    match k case Disable => 0 case Restore => 1 case Delete(i) => if i < created then created + 1 - i else 100
  }

  // ---------- Consistency ----------

  ghost predicate LatchedInOrder(r: Record) {
    && r.up <= 7 && r.down <= r.Created() + 2
    && (forall k :: k in r.operations <==> if IsUp(k) then UpPosition(k) < r.up else DownPosition(r.Created(), k) < r.down)
    && (forall n :: 0 <= n < r.up - 1 ==> r.Good(UpAt(n)))
    && (forall n :: 0 <= n < r.down - 1 ==> r.Good(DownAt(r.Created(), n)))
  }

  /** At most the last step of each half is latched and not called, and then it is not acknowledged. */
  ghost predicate Balanced(r: Record) {
    && r.calledUp <= r.up <= r.calledUp + 1 && r.calledDown <= r.down <= r.calledDown + 1
    && r.up <= 7 && r.down <= r.Created() + 2
    && (r.calledUp < r.up ==> !r.Acknowledged(UpAt(r.up - 1)))
    && (r.calledDown < r.down ==> !r.Acknowledged(DownAt(r.Created(), r.down - 1)))
  }

  ghost predicate Sequenced(r: Record) {
    && r.calledUp <= 7 && r.calledDown <= r.Created() + 2
    && |r.calls| == r.calledUp + r.calledDown
    && (forall n :: 0 <= n < r.calledUp ==> r.calls[n].key == UpAt(n))
    && (forall n :: 0 <= n < r.calledDown ==> r.calls[r.calledUp + n].key == DownAt(r.Created(), n))
  }

  /** Every deletion carries the identity its creation was acknowledged with. */
  ghost predicate DeletesByIdentity(r: Record) {
    && (forall n :: 0 <= n < |r.calls| && r.calls[n].key.Delete? ==>
          r.Good(Create(r.calls[n].key.i)) && r.operations[Create(r.calls[n].key.i)].result == Identity(r.calls[n].argument))
    && (forall i: Slot :: Delete(i) in r.operations ==> r.Good(Create(i)))
    && (forall i: Slot :: r.Acknowledged(Create(i)) ==> r.Good(Create(i)))
  }

  ghost predicate Consistent(r: Record) {
    && LatchedInOrder(r) && Balanced(r) && Sequenced(r) && DeletesByIdentity(r)
    && (r.confirmed.Some? ==> r.down > 0)
    && (r.confirmed == Some(true) ==> r.down == r.Created() + 2 && r.Good(DownAt(r.Created(), r.down - 1)))
  }

  // ---------- What consistency means ----------

  /** Each operation key is invoked at most once. */
  lemma CalledOnce(r: Record, i: nat, j: nat)
    requires Consistent(r) && i < j < |r.calls|
    ensures r.calls[i].key != r.calls[j].key
  {
    hide LatchedInOrder, Balanced, DeletesByIdentity;
    if j < r.calledUp {
      assert r.calls[i].key == UpAt(i) && r.calls[j].key == UpAt(j);
    } else {
      assert r.calls[r.calledUp + (j - r.calledUp)].key == DownAt(r.Created(), j - r.calledUp);
      if i < r.calledUp { assert r.calls[i].key == UpAt(i); } else {
        assert r.calls[r.calledUp + (i - r.calledUp)].key == DownAt(r.Created(), i - r.calledUp);
      }
    }
  }

  function Keys(calls: seq<Call>): seq<Key> {
    seq(|calls|, i requires 0 <= i < |calls| => calls[i].key)
  }

  const PROVISIONING: seq<Key> := [Preflight, Create(0), Create(1), Create(2), Create(3), InitializeGuard, Install]

  function Teardown(created: nat): seq<Key>
    requires created <= 4
  {
    [Disable, Restore] + Deletions(created)
  }

  function Deletions(created: nat): (s: seq<Key>)
    requires created <= 4
    ensures |s| == created && forall n :: 0 <= n < created ==> s[n] == Delete(created - 1 - n)
  {
    if created == 0 then [] else [Delete(created - 1)] + Deletions(created - 1)
  }

  /** The calls made are a prefix of the provisioning followed by a prefix of the teardown, which deletes
      in reverse creation order what was latched for creation and nothing else. */
  lemma CallsFollowThePlan(r: Record)
    requires Consistent(r)
    ensures r.calledUp <= 7 && r.calledDown <= r.Created() + 2
    ensures Keys(r.calls) == PROVISIONING[..r.calledUp] + Teardown(r.Created())[..r.calledDown]
  {
    hide LatchedInOrder, Balanced, DeletesByIdentity, Record.Good;
    var planned := PROVISIONING[..r.calledUp] + Teardown(r.Created())[..r.calledDown];
    forall n | 0 <= n < |r.calls| ensures Keys(r.calls)[n] == planned[n] {
      CallIsPlanned(r, n);
    }
  }

  lemma CallIsPlanned(r: Record, n: nat)
    requires Consistent(r) && n < |r.calls|
    ensures n < r.calledUp <= 7 ==> r.calls[n].key == PROVISIONING[n]
    ensures n >= r.calledUp && n - r.calledUp < r.Created() + 2 ==> r.calls[n].key == Teardown(r.Created())[n - r.calledUp]
  {
    hide LatchedInOrder, Balanced, DeletesByIdentity;
    if n >= r.calledUp {
      assert r.calls[r.calledUp + (n - r.calledUp)].key == DownAt(r.Created(), n - r.calledUp);
    }
  }

  /** The position of the one deletion of a latched creation. */
  function DeleteCall(r: Record, i: Slot): int { r.calledUp + r.Created() + 1 - i }

  /** A recorded confirmation means: admission was disabled and the exact state restored, both
      acknowledged; every creation that was ever attempted was acknowledged and then deleted, by its
      exact identity, with the deletion acknowledged. */
  lemma ConfirmedMeansRemoved(r: Record)
    requires Consistent(r) && r.confirmed == Some(true)
    ensures r.Good(Disable) && r.Good(Restore)
    ensures forall n :: 0 <= n < |r.calls| && r.calls[n].key.Create? ==>
              var i := r.calls[n].key.i;
              && r.Good(Create(i)) && r.Good(Delete(i))
              && n < DeleteCall(r, i) < |r.calls|
              && r.calls[DeleteCall(r, i)] == Call(Delete(i), r.operations[Create(i)].result.id)
  {
    var c := r.Created();
    assert r.Good(DownAt(c, 0)) && r.Good(DownAt(c, 1));
    forall n | 0 <= n < |r.calls| && r.calls[n].key.Create?
      ensures var i := r.calls[n].key.i;
              && r.Good(Create(i)) && r.Good(Delete(i))
              && n < DeleteCall(r, i) < |r.calls|
              && r.calls[DeleteCall(r, i)] == Call(Delete(i), r.operations[Create(i)].result.id)
    {
      ConfirmedCreation(r, n);
    }
  }

  lemma LateCallsTearDown(r: Record, n: nat)
    requires Consistent(r) && n < |r.calls|
    ensures n >= r.calledUp ==> !IsUp(r.calls[n].key)
  {
    if n >= r.calledUp {
      assert r.calls[r.calledUp + (n - r.calledUp)].key == DownAt(r.Created(), n - r.calledUp);
    }
  }

  lemma ConfirmedCreation(r: Record, n: nat)
    requires Consistent(r) && r.confirmed == Some(true) && n < |r.calls| && r.calls[n].key.Create?
    ensures var i := r.calls[n].key.i;
            && r.Good(Create(i)) && r.Good(Delete(i))
            && n < DeleteCall(r, i) < |r.calls|
            && r.calls[DeleteCall(r, i)] == Call(Delete(i), r.operations[Create(i)].result.id)
  {
    var c := r.Created();
    LateCallsTearDown(r, n);
    assert r.calls[n].key == UpAt(n);
    var i := n - 1;
    assert i < c && DownAt(c, c + 1 - i) == Delete(i) && r.Good(DownAt(c, c + 1 - i));
    assert r.calls[r.calledUp + (c + 1 - i)].key == DownAt(c, c + 1 - i);
  }

  // ---------- Steps of the journal ----------

  function Latched(r: Record, k: Key): Record {
    if IsUp(k) then r.(operations := r.operations[k := Row(false, NoResult)], up := r.up + 1)
    else r.(operations := r.operations[k := Row(false, NoResult)], down := r.down + 1)
  }

  function Called(r: Record, k: Key, argument: string): Record {
    if IsUp(k) then r.(calls := r.calls + [Call(k, argument)], calledUp := r.calledUp + 1)
    else r.(calls := r.calls + [Call(k, argument)], calledDown := r.calledDown + 1)
  }

  function Answered(r: Record, k: Key, result: Result): Record {
    r.(operations := r.operations[k := Row(true, result)])
  }

  /** `k` is the next step: everything before it in its half was acknowledged as required. */
  ghost predicate Next(r: Record, k: Key, argument: string) {
    && r.confirmed == None && k !in r.operations
    && (IsUp(k) ==>
          r.down == 0 && r.up == r.calledUp == UpPosition(k) && (r.up > 0 ==> r.Good(UpAt(r.up - 1))))
    && (!IsUp(k) ==>
          && r.down == r.calledDown == DownPosition(r.Created(), k)
          && (0 < r.down <= r.Created() + 2 ==> r.Good(DownAt(r.Created(), r.down - 1)))
          && (k.Delete? ==> r.Good(Create(k.i)) && r.operations[Create(k.i)].result == Identity(argument)))
  }

  /** Just latched: the last step of its half, not called, not acknowledged. */
  ghost predicate Pending(r: Record, k: Key, argument: string) {
    && r.confirmed == None && k in r.operations && !r.operations[k].acknowledged
    && (IsUp(k) ==> r.down == 0 && r.up == r.calledUp + 1 == UpPosition(k) + 1)
    && (!IsUp(k) ==>
          && r.down == r.calledDown + 1 == DownPosition(r.Created(), k) + 1
          && (k.Delete? ==> r.Good(Create(k.i)) && r.operations[Create(k.i)].result == Identity(argument)))
  }

  /** Called and not yet acknowledged. */
  ghost predicate Open(r: Record, k: Key) {
    && r.confirmed == None && k in r.operations && !r.operations[k].acknowledged
    && (IsUp(k) ==> r.down == 0 && r.up == r.calledUp == UpPosition(k) + 1)
    && (!IsUp(k) ==> r.down == r.calledDown == DownPosition(r.Created(), k) + 1)
  }

  // Each step keeps each of the three orders.

  lemma LatchKeepsGood(r: Record, k: Key, other: Key)
    requires k !in r.operations
    ensures r.Good(other) ==> Latched(r, k).Good(other)
  {
  }

  lemma LatchKeepsOrder(r: Record, k: Key, argument: string)
    requires LatchedInOrder(r) && Next(r, k, argument)
    ensures LatchedInOrder(Latched(r, k))
  {
    hide Record.Good;
    var l := Latched(r, k);
    forall n | 0 <= n < l.up - 1 ensures l.Good(UpAt(n)) { LatchKeepsGood(r, k, UpAt(n)); }
    assert IsUp(k) || l.Created() == r.Created();
    forall n | 0 <= n < l.down - 1 ensures l.Good(DownAt(l.Created(), n)) { LatchKeepsGood(r, k, DownAt(r.Created(), n)); }
  }

  lemma LatchKeepsBalance(r: Record, k: Key, argument: string)
    requires Balanced(r) && LatchedInOrder(r) && Next(r, k, argument)
    ensures Balanced(Latched(r, k))
  {
    LatchKeepsOrder(r, k, argument);
    hide LatchedInOrder;
    if IsUp(k) { assert UpAt(r.up) == k; } else { assert DownAt(r.Created(), r.down) == k; }
  }

  lemma LatchKeepsSequence(r: Record, k: Key, argument: string)
    requires Balanced(r) && Sequenced(r) && Next(r, k, argument)
    ensures Sequenced(Latched(r, k))
  {
  }

  lemma LatchKeepsDeletes(r: Record, k: Key, argument: string)
    requires DeletesByIdentity(r) && Next(r, k, argument)
    ensures DeletesByIdentity(Latched(r, k))
  {
    var l := Latched(r, k);
    forall n | 0 <= n < |l.calls| && l.calls[n].key.Delete?
      ensures l.Good(Create(l.calls[n].key.i)) && l.operations[Create(l.calls[n].key.i)].result == Identity(l.calls[n].argument)
    {
      assert r.Good(Create(r.calls[n].key.i));
    }
    forall i: Slot | Delete(i) in l.operations ensures l.Good(Create(i)) { assert r.Good(Create(i)); }
    forall i: Slot | l.Acknowledged(Create(i)) ensures l.Good(Create(i)) { assert r.Acknowledged(Create(i)); }
  }

  lemma LatchStep(r: Record, k: Key, argument: string)
    requires Consistent(r) && Next(r, k, argument)
    ensures Consistent(Latched(r, k)) && Pending(Latched(r, k), k, argument)
  {
    hide LatchedInOrder, Balanced, Sequenced, DeletesByIdentity;
    LatchKeepsOrder(r, k, argument);
    LatchKeepsBalance(r, k, argument);
    LatchKeepsSequence(r, k, argument);
    LatchKeepsDeletes(r, k, argument);
  }

  lemma CallStep(r: Record, k: Key, argument: string)
    requires Consistent(r) && Pending(r, k, argument)
    ensures Consistent(Called(r, k, argument)) && Open(Called(r, k, argument), k)
  {
    hide LatchedInOrder, Balanced, Sequenced, DeletesByIdentity;
    CallKeepsOrder(r, k, argument);
    CallKeepsBalance(r, k, argument);
    CallKeepsSequence(r, k, argument);
    CallKeepsDeletes(r, k, argument);
  }

  lemma CallKeepsOrder(r: Record, k: Key, argument: string)
    requires LatchedInOrder(r) && Pending(r, k, argument)
    ensures LatchedInOrder(Called(r, k, argument))
  {
    var l := Called(r, k, argument);
    forall n | 0 <= n < l.up - 1 ensures l.Good(UpAt(n)) { assert r.Good(UpAt(n)); }
    forall n | 0 <= n < l.down - 1 ensures l.Good(DownAt(l.Created(), n)) { assert r.Good(DownAt(r.Created(), n)); }
  }

  lemma CallKeepsDeletes(r: Record, k: Key, argument: string)
    requires DeletesByIdentity(r) && Pending(r, k, argument)
    ensures DeletesByIdentity(Called(r, k, argument))
  {
    var l := Called(r, k, argument);
    forall n | 0 <= n < |l.calls| && l.calls[n].key.Delete?
      ensures l.Good(Create(l.calls[n].key.i)) && l.operations[Create(l.calls[n].key.i)].result == Identity(l.calls[n].argument)
    {
      if n < |r.calls| { assert l.calls[n] == r.calls[n] && r.Good(Create(r.calls[n].key.i)); }
    }
  }

  lemma CallKeepsBalance(r: Record, k: Key, argument: string)
    requires Balanced(r) && Pending(r, k, argument)
    ensures Balanced(Called(r, k, argument))
  {
  }

  lemma CallKeepsSequence(r: Record, k: Key, argument: string)
    requires Balanced(r) && Sequenced(r) && Pending(r, k, argument)
    ensures Sequenced(Called(r, k, argument))
  {
    var l := Called(r, k, argument);
    if IsUp(k) {
      assert r.down == 0;
      forall n | 0 <= n < l.calledUp ensures l.calls[n].key == UpAt(n) {
        if n < r.calledUp { assert r.calls[n].key == UpAt(n); }
      }
    } else {
      forall n | 0 <= n < l.calledUp ensures l.calls[n].key == UpAt(n) { assert r.calls[n].key == UpAt(n); }
      forall n | 0 <= n < l.calledDown ensures l.calls[l.calledUp + n].key == DownAt(l.Created(), n) {
        if n < r.calledDown { assert r.calls[r.calledUp + n].key == DownAt(r.Created(), n); }
      }
    }
  }

  lemma AnswerStep(r: Record, k: Key, result: Result)
    requires Consistent(r) && Open(r, k) && (k.Create? ==> result.Identity?)
    ensures Consistent(Answered(r, k, result))
  {
    hide LatchedInOrder, Balanced, Sequenced, DeletesByIdentity;
    AnswerKeepsOrder(r, k, result);
    AnswerKeepsBalance(r, k, result);
    AnswerKeepsSequence(r, k, result);
    AnswerKeepsDeletes(r, k, result);
  }

  lemma AnswerKeepsOrder(r: Record, k: Key, result: Result)
    requires LatchedInOrder(r) && Open(r, k)
    ensures LatchedInOrder(Answered(r, k, result))
  {
    var l := Answered(r, k, result);
    assert l.Created() == r.Created();
    forall n | 0 <= n < l.up - 1 ensures l.Good(UpAt(n)) { assert r.Good(UpAt(n)); }
    forall n | 0 <= n < l.down - 1 ensures l.Good(DownAt(l.Created(), n)) { assert r.Good(DownAt(r.Created(), n)); }
  }

  lemma AnswerKeepsBalance(r: Record, k: Key, result: Result)
    requires Balanced(r) && Open(r, k)
    ensures Balanced(Answered(r, k, result))
  {
  }

  lemma AnswerKeepsSequence(r: Record, k: Key, result: Result)
    requires Balanced(r) && Sequenced(r) && Open(r, k)
    ensures Sequenced(Answered(r, k, result))
  {
    var l := Answered(r, k, result);
    assert l.Created() == r.Created();
    forall n | 0 <= n < l.calledUp ensures l.calls[n].key == UpAt(n) { assert r.calls[n].key == UpAt(n); }
    forall n | 0 <= n < l.calledDown ensures l.calls[l.calledUp + n].key == DownAt(l.Created(), n) {
      assert r.calls[r.calledUp + n].key == DownAt(r.Created(), n);
    }
  }

  lemma AnswerKeepsDeletes(r: Record, k: Key, result: Result)
    requires DeletesByIdentity(r) && Open(r, k) && (k.Create? ==> result.Identity?)
    ensures DeletesByIdentity(Answered(r, k, result))
  {
    var l := Answered(r, k, result);
    forall n | 0 <= n < |l.calls| && l.calls[n].key.Delete?
      ensures l.Good(Create(l.calls[n].key.i)) && l.operations[Create(l.calls[n].key.i)].result == Identity(l.calls[n].argument)
    {
      assert r.Good(Create(r.calls[n].key.i));
    }
    forall i: Slot | Delete(i) in l.operations ensures l.Good(Create(i)) { assert r.Good(Create(i)); }
    forall i: Slot | l.Acknowledged(Create(i)) ensures l.Good(Create(i)) { assert k == Create(i) || r.Acknowledged(Create(i)); }
  }

  // ---------- One instance ----------

  lemma EmptyConsistent()
    ensures Consistent(Record(map[], None, [], 0, 0, 0, 0))
  {
  }

  class Journal {
    var operations: map<Key, Row>
    var confirmed: Option<bool>
    ghost var calls: seq<Call>
    ghost var up: nat
    ghost var down: nat
    ghost var calledUp: nat
    ghost var calledDown: nat

    constructor ()
      ensures Valid() && operations == map[] && confirmed == None
    {
      operations, confirmed, calls := map[], None, [];
      up, down, calledUp, calledDown := 0, 0, 0, 0;
      new;
      hide Consistent;
      assert Now() == Record(map[], None, [], 0, 0, 0, 0);
      EmptyConsistent();
    }

    ghost function Now(): Record
      reads this
    {
      Record(operations, confirmed, calls, up, down, calledUp, calledDown)
    }

    ghost predicate Valid()
      reads this
    {
      Consistent(Now())
    }
  }

  predicate IdentityText(id: string) {
    1 <= |id| <= 128
    && forall i :: 0 <= i < |id| ==>
         'a' <= id[i] <= 'z' || 'A' <= id[i] <= 'Z' || '0' <= id[i] <= '9' || id[i] == '_' || id[i] == '-'
  }

  /** A canonical lower-case UUID, as its own rendering. */
  predicate CanonicalUuid(id: string) {
    |id| == 36
    && forall i :: 0 <= i < 36 ==>
         if i in {8, 13, 18, 23} then id[i] == '-' else '0' <= id[i] <= '9' || 'a' <= id[i] <= 'f'
  }

  /** Ready for the n-th step of provisioning. */
  ghost predicate ReadyUp(r: Record, n: nat) {
    && n <= 7 && r.confirmed == None && r.down == r.calledDown == 0 && r.up == r.calledUp == n
    && (n > 0 ==> r.Good(UpAt(n - 1)))
  }

  /** Ready for the n-th step of the teardown. */
  ghost predicate ReadyDown(r: Record, n: nat) {
    && r.confirmed == None && r.down == r.calledDown == n && n <= r.Created() + 2
    && (n > 0 ==> r.Good(DownAt(r.Created(), n - 1)))
  }

  lemma NextUp(r: Record, n: nat, argument: string)
    requires Consistent(r) && ReadyUp(r, n) && n < 7
    ensures Next(r, UpAt(n), argument)
  {
  }

  lemma NextDown(r: Record, n: nat, argument: string)
    requires Consistent(r) && ReadyDown(r, n) && n < r.Created() + 2
    requires var k := DownAt(r.Created(), n);
             k.Delete? ==> r.Good(Create(k.i)) && r.operations[Create(k.i)].result == Identity(argument)
    ensures Next(r, DownAt(r.Created(), n), argument)
  {
    assert DownPosition(r.Created(), DownAt(r.Created(), n)) == n;
  }

  /** An untouched journal is ready for anything's first step. */
  lemma Untouched(r: Record)
    requires Consistent(r) && r.operations == map[]
    ensures ReadyUp(r, 0)
  {
    assert Preflight in r.operations <==> UpPosition(Preflight) < r.up;
    assert Disable in r.operations <==> DownPosition(r.Created(), Disable) < r.down;
  }

  /** No teardown step yet: ready for the first, however the provisioning ended. */
  lemma TeardownStart(r: Record)
    requires Consistent(r) && Disable !in r.operations
    ensures ReadyDown(r, 0)
  {
  }

  lemma DisableWasFirst(r: Record)
    requires Consistent(r) && Disable in r.operations
    ensures r.down > 0
  {
  }

  lemma CreatedMeansLatched(r: Record, i: Slot)
    requires Consistent(r)
    ensures Create(i) in r.operations <==> i < r.Created()
  {
  }

  lemma AcknowledgedCreations(r: Record, i: Slot)
    requires Consistent(r) && r.Acknowledged(Create(i))
    ensures r.Good(Create(i))
  {
  }

  lemma VerdictStep(r: Record, ok: bool)
    requires Consistent(r) && r.confirmed == None && r.down > 0
    requires ok ==> ReadyDown(r, r.Created() + 2)
    ensures Consistent(r.(confirmed := Some(ok)))
  {
    hide LatchedInOrder, Balanced, Sequenced, DeletesByIdentity;
    VerdictKeepsOrder(r, ok);
    VerdictKeepsCalls(r, ok);
    VerdictKeepsDeletes(r, ok);
  }

  lemma VerdictKeepsOrder(r: Record, ok: bool)
    requires LatchedInOrder(r)
    ensures LatchedInOrder(r.(confirmed := Some(ok)))
  {
    var l := r.(confirmed := Some(ok));
    assert l.Created() == r.Created();
    forall n | 0 <= n < l.up - 1 ensures l.Good(UpAt(n)) { assert r.Good(UpAt(n)); }
    forall n | 0 <= n < l.down - 1 ensures l.Good(DownAt(l.Created(), n)) { assert r.Good(DownAt(r.Created(), n)); }
  }

  lemma VerdictKeepsCalls(r: Record, ok: bool)
    requires Balanced(r) && Sequenced(r)
    ensures Balanced(r.(confirmed := Some(ok))) && Sequenced(r.(confirmed := Some(ok)))
  {
    var l := r.(confirmed := Some(ok));
    assert l.Created() == r.Created();
    forall n | 0 <= n < l.calledDown ensures l.calls[l.calledUp + n].key == DownAt(l.Created(), n) {
      assert r.calls[r.calledUp + n].key == DownAt(r.Created(), n);
    }
  }

  lemma VerdictKeepsDeletes(r: Record, ok: bool)
    requires DeletesByIdentity(r)
    ensures DeletesByIdentity(r.(confirmed := Some(ok)))
  {
    var l := r.(confirmed := Some(ok));
    forall n | 0 <= n < |l.calls| && l.calls[n].key.Delete?
      ensures l.Good(Create(l.calls[n].key.i)) && l.operations[Create(l.calls[n].key.i)].result == Identity(l.calls[n].argument)
    {
      assert r.Good(Create(r.calls[n].key.i));
    }
    forall i: Slot | Delete(i) in l.operations ensures l.Good(Create(i)) { assert r.Good(Create(i)); }
    forall i: Slot | l.Acknowledged(Create(i)) ensures l.Good(Create(i)) { assert r.Acknowledged(Create(i)); }
  }

  /** A recorded verdict means something was latched: the journal is no longer untouched. */
  lemma VerdictMeansStarted(r: Record)
    requires Consistent(r) && r.confirmed.Some?
    ensures r.operations != map[]
  {
    assert DownPosition(r.Created(), Disable) < r.down;
    assert Disable in r.operations;
  }

  class Lifecycle {
    const journal: Journal
    const names: seq<string>

    constructor (journal: Journal, names: seq<string>)
      requires |names| == 4
      ensures this.journal == journal && this.names == names
    {
      this.journal, this.names := journal, names;
    }

    predicate ValidIdentity(i: Slot, id: string)
      requires |names| == 4
    {
      IdentityText(id) && (i > 0 ==> id == names[i]) && (i == 0 ==> CanonicalUuid(id))
    }

    /** What an operation may return.  A creation checks its identity itself and raises otherwise; any other
        result, whatever its type, is returned and left to the caller to judge. */
    predicate Returnable(k: Key, result: Result)
      requires |names| == 4
    {
      k.Create? ==> result.Identity? && ValidIdentity(k.i, result.id)
    }

    /** Latch, call, acknowledge.  A key already latched is refused, whatever became of it; any returned value
        is acknowledged, right or wrong. */
    method Once(k: Key, argument: string) returns (r: Flow<Result>)
      requires journal.Valid() && |names| == 4
      requires k in journal.operations || Next(journal.Now(), k, argument)
      modifies journal
      ensures journal.Valid()
      ensures old(k in journal.operations) ==> r.Raised? && journal.Now() == old(journal.Now())
      ensures old(k !in journal.operations) ==>
                (journal.Now() == old(journal.Now()) && r.Crashed?)
                || (journal.Now() == Latched(old(journal.Now()), k) && r.Crashed?)
                || (journal.Now() == Called(Latched(old(journal.Now()), k), k, argument) && !r.Ok?)
                || exists result :: Returnable(k, result) && (r.Crashed? || r == Ok(result))
                     && journal.Now() == Answered(Called(Latched(old(journal.Now()), k), k, argument), k, result)
    {
      if k in journal.operations { return Raised; }
      hide Consistent, Next;
      ghost var before := journal.Now();
      LatchStep(before, k, argument);
      CallStep(Latched(before, k), k, argument);
      var dies: bool := *;
      if dies { return Crashed; }
      Latch(k);
      dies := *;
      if dies { return Crashed; }
      Invoke(k, argument);
      var fails: bool, result: Result := *, *;
      dies := *;
      if dies { return Crashed; }
      if fails || !Returnable(k, result) { return Raised; }
      AnswerStep(Called(Latched(before, k), k, argument), k, result);
      journal.operations := journal.operations[k := Row(true, result)];
      dies := *;
      return if dies then Crashed else Ok(result);
    }

    method Latch(k: Key)
      modifies journal
      ensures journal.Now() == Latched(old(journal.Now()), k)
    {
      journal.operations := journal.operations[k := Row(false, NoResult)];
      if IsUp(k) { journal.up := journal.up + 1; } else { journal.down := journal.down + 1; }
    }

    ghost method Invoke(k: Key, argument: string)
      modifies journal
      ensures journal.Now() == Called(old(journal.Now()), k, argument)
    {
      journal.calls := journal.calls + [Call(k, argument)];
      if IsUp(k) { journal.calledUp := journal.calledUp + 1; } else { journal.calledDown := journal.calledDown + 1; }
    }

    /** A clock or guard check, which raises or passes. */
    method Check() returns (r: Flow<()>)
      ensures !r.Crashed?
    {
      var passes: bool := *;
      return if passes then Ok(()) else Raised;
    }

    /** The n-th provisioning step, required to answer as its caller insists. */
    method StepUp(n: nat, argument: string) returns (r: Flow<()>)
      requires journal.Valid() && |names| == 4 && n < 7 && ReadyUp(journal.Now(), n)
      modifies journal
      ensures journal.Valid()
      ensures r.Ok? ==> ReadyUp(journal.Now(), n + 1)
    {
      hide Consistent;
      NextUp(journal.Now(), n, argument);
      var k := UpAt(n);
      var result :- Once(k, argument);
      if !k.Create? && result != Truth(true) { return Raised; }
      return Ok(());
    }

    /** Provision: the exact resources once each, then guard and publication. */
    method Provision() returns (r: Flow<()>)
      requires journal.Valid() && |names| == 4
      modifies journal
      ensures journal.Valid()
      ensures old(journal.operations) != map[] ==> r.Raised? && journal.Now() == old(journal.Now())
      ensures r.Ok? ==> ReadyUp(journal.Now(), 7)
    {
      hide Consistent, ReadyUp;
      var _ :- Check();
      if journal.operations != map[] { return Raised; }
      Untouched(journal.Now());
      var _ :- StepUp(0, "");
      var i := 0;
      while i < 4
        invariant 0 <= i <= 4 && journal.Valid() && ReadyUp(journal.Now(), i + 1)
      {
        var _ :- Check();
        var _ :- StepUp(i + 1, names[i]);
        i := i + 1;
      }
      var _ :- StepUp(5, "");
      var _ :- Check();
      var _ :- StepUp(6, "");
      r := Check();
    }

    /** The n-th teardown step. */
    method StepDown(k: Key, argument: string, ghost n: nat) returns (r: Flow<()>)
      requires journal.Valid() && |names| == 4
      requires ReadyDown(journal.Now(), n) && n < journal.Now().Created() + 2 && k == DownAt(journal.Now().Created(), n)
      requires k.Delete? ==> journal.Now().Good(Create(k.i)) && journal.operations[Create(k.i)].result == Identity(argument)
      modifies journal
      ensures journal.Valid() && (!r.Crashed? ==> journal.down > 0)
      ensures journal.confirmed == None && journal.up == old(journal.up)
      ensures forall i: Slot :: SameRow(old(journal.operations), journal.operations, Create(i))
      ensures r.Ok? ==> ReadyDown(journal.Now(), n + 1)
    {
      hide Consistent;
      NextDown(journal.Now(), n, argument);
      var result :- Once(k, argument);
      if k.Restore? && result != Restored(true) { return Raised; }
      if !k.Restore? && result != Truth(true) { return Raised; }
      return Ok(());
    }

    static ghost predicate SameRow(a: map<Key, Row>, b: map<Key, Row>, k: Key) {
      (k in a <==> k in b) && (k in a ==> a[k] == b[k])
    }

    /** The deletions, last created first; a creation without an acknowledgement stops them. */
    method DeleteCreated() returns (r: Flow<()>)
      requires journal.Valid() && |names| == 4 && ReadyDown(journal.Now(), 2)
      modifies journal
      ensures journal.Valid() && journal.confirmed == None && (!r.Crashed? ==> journal.down > 0)
      ensures r.Ok? ==> ReadyDown(journal.Now(), journal.Now().Created() + 2)
    {
      hide Consistent;
      ghost var c := journal.Now().Created();
      var i := 4;
      while i > 0
        invariant 0 <= i <= 4 && journal.Valid() && journal.Now().Created() == c
        invariant ReadyDown(journal.Now(), if i < c then c + 2 - i else 2)
      {
        i := i - 1;
        CreatedMeansLatched(journal.Now(), i);
        if Create(i) in journal.operations {
          if !journal.operations[Create(i)].acknowledged { return Raised; }
          AcknowledgedCreations(journal.Now(), i);
          var _ :- StepDown(Delete(i), journal.operations[Create(i)].result.id, c + 1 - i);
        }
      }
      return Ok(());
    }

    /** The guarded part of the cleanup. */
    method Teardown() returns (r: Flow<()>)
      requires journal.Valid() && |names| == 4 && journal.confirmed == None
      modifies journal
      ensures journal.Valid() && journal.confirmed == None
      ensures !r.Crashed? ==> journal.down > 0
      ensures r.Ok? ==> ReadyDown(journal.Now(), journal.Now().Created() + 2)
    {
      hide Consistent;
      if Disable in journal.operations {
        DisableWasFirst(journal.Now());
        return Raised;
      }
      TeardownStart(journal.Now());
      var _ :- StepDown(Disable, "", 0);
      var _ :- Check();
      var _ :- StepDown(Restore, "", 1);
      r := DeleteCreated();
    }

    /** Cleanup: the recorded verdict, if there is one; otherwise one teardown and its verdict. */
    method Cleanup() returns (r: Flow<bool>)
      requires journal.Valid() && |names| == 4
      modifies journal
      ensures journal.Valid() && !r.Raised?
      ensures old(journal.confirmed).Some? ==> r == Ok(old(journal.confirmed.value)) && journal.Now() == old(journal.Now())
      ensures r.Ok? ==> journal.confirmed == Some(r.value)
    {
      hide Consistent;
      if journal.confirmed.Some? { return Ok(journal.confirmed.value); }
      var torn := Teardown();
      var dies: bool := *;
      if torn.Crashed? || dies { return Crashed; }
      VerdictStep(journal.Now(), torn.Ok?);
      journal.confirmed := Some(torn.Ok?);
      dies := *;
      return if dies then Crashed else Ok(torn.Ok?);
    }

    /** The whole attempt: provision, then clean up whatever happened, each under the owner lock and refused
        while another instance holds it.  Between and after the two the lock is free, and other instances
        may run any sessions of their own; the answer is read from the journal at the end. */
    method Attempt() returns (r: Flow<bool>)
      requires journal.Valid() && |names| == 4
      modifies journal
      ensures journal.Valid()
      ensures old(journal.confirmed).Some? ==> journal.Now() == old(journal.Now())
      ensures r.Ok? ==> (r.value <==> journal.confirmed == Some(true))
    {
      hide Consistent;
      if journal.confirmed.Some? { VerdictMeansStarted(journal.Now()); }
      var held: bool := *;
      var provisioned: Flow<()> := Raised;
      if !held { provisioned := Provision(); }
      if provisioned.Crashed? { return Crashed; }
      Meanwhile(journal, names);
      held := *;
      if held { return Raised; }
      var _ :- Cleanup();
      Meanwhile(journal, names);
      return if provisioned.Ok? then Ok(journal.confirmed == Some(true)) else Raised;
    }
  }

  /** What other instances do while the lock is free: any number of provisioning and cleanup sessions, each
      ending as it may. */
  method Meanwhile(journal: Journal, names: seq<string>)
    requires journal.Valid() && |names| == 4
    modifies journal
    ensures journal.Valid()
    ensures old(journal.confirmed).Some? ==> journal.Now() == old(journal.Now())
  {
    hide Consistent;
    var n: int := *;
    while n > 0
      invariant journal.Valid()
      invariant old(journal.confirmed).Some? ==> journal.Now() == old(journal.Now())
    {
      if journal.confirmed.Some? { VerdictMeansStarted(journal.Now()); }
      var other := new Lifecycle(journal, names);
      var provisions: bool := *;
      if provisions {
        var _ := other.Provision();
      } else {
        var _ := other.Cleanup();
      }
      n := n - 1;
    }
  }

  /** Any number of sessions of any instances, one at a time under the owner lock, each ending as it
      may.  Once a verdict is recorded, nothing whatever is latched, called or recorded again. */
  method Sessions(journal: Journal, names: seq<string>, sessions: nat) returns (ghost verdict: Option<Record>)
    requires journal.Valid() && |names| == 4
    modifies journal
    ensures journal.Valid()
    ensures verdict.Some? ==> journal.Now() == verdict.value
    ensures verdict == None ==> journal.confirmed == None
  {
    hide Consistent;
    verdict := if journal.confirmed.Some? then Some(journal.Now()) else None;
    var n := sessions;
    while n > 0
      invariant journal.Valid()
      invariant verdict.Some? ==> journal.confirmed.Some? && journal.Now() == verdict.value
      invariant verdict == None ==> journal.confirmed == None
    {
      var instance := new Lifecycle(journal, names);
      var choice: nat := *;
      if journal.confirmed.Some? { VerdictMeansStarted(journal.Now()); }
      if choice == 0 {
        var _ := instance.Provision();
      } else if choice == 1 {
        var _ := instance.Cleanup();
      } else {
        var _ := instance.Attempt();
      }
      if verdict == None && journal.confirmed.Some? { verdict := Some(journal.Now()); }
      n := n - 1;
    }
  }

  // ---------- The owner lock ----------

  /** What instances do with the lock file; `Remove` is the manual removal of a dead owner's file. */
  datatype LockEvent = Acquire(p: nat) | Work(p: nat) | Release(p: nat) | Die(p: nat) | Remove

  datatype Lock = Lock(file: Option<nat>, inside: set<nat>, dead: set<nat>)

  function LockStep(l: Lock, e: LockEvent): Lock {
    match e
    case Acquire(p) => Lock(Some(p), l.inside + {p}, l.dead)
    case Work(_) => l
    case Release(p) => Lock(None, l.inside - {p}, l.dead)
    case Die(p) => Lock(l.file, l.inside - {p}, l.dead + {p})
    case Remove => Lock(None, l.inside, l.dead)
  }

  /** An exclusive create needs the file absent; only a live instance inside works or releases; the file
      is removed by hand only when the instance that made it is dead. */
  predicate LockAllowed(l: Lock, e: LockEvent) {
    match e
    case Acquire(p) => l.file == None && p !in l.dead
    case Work(p) => p in l.inside
    case Release(p) => p in l.inside
    case Die(p) => true
    case Remove => l.file.Some? && l.file.value in l.dead
  }

  function LockAfter(es: seq<LockEvent>): Lock {
    if es == [] then Lock(None, {}, {}) else LockStep(LockAfter(es[..|es| - 1]), es[|es| - 1])
  }

  ghost predicate LockLawful(es: seq<LockEvent>) {
    forall i :: 0 <= i < |es| ==> LockAllowed(LockAfter(es[..i]), es[i])
  }

  /** At most the instance named by the file is inside, and it is alive. */
  lemma {:induction false} OnlyOwnerInside(es: seq<LockEvent>, n: nat)
    requires LockLawful(es) && n <= |es|
    ensures forall p :: p in LockAfter(es[..n]).inside ==> LockAfter(es[..n]).file == Some(p) && p !in LockAfter(es[..n]).dead
    decreases n
  {
    if n > 0 {
      OnlyOwnerInside(es, n - 1);
      assert es[..n][..n - 1] == es[..n - 1];
    }
  }

  lemma {:induction false} StaysInside(es: seq<LockEvent>, i: nat, j: nat, p: nat)
    requires LockLawful(es) && i <= j <= |es| && p in LockAfter(es[..i]).inside
    requires forall m :: i <= m < j ==> es[m] != Release(p) && es[m] != Die(p)
    ensures p in LockAfter(es[..j]).inside
    decreases j - i
  {
    if i < j {
      StaysInside(es, i, j - 1, p);
      assert es[..j][..j - 1] == es[..j - 1];
    }
  }

  /** Two instances' work never interleaves: between them the first released the lock or died.  So the
      sessions above, one at a time, are all that competing instances can do. */
  lemma WorkIsSerial(es: seq<LockEvent>, i: nat, j: nat)
    requires LockLawful(es) && i < j < |es| && es[i].Work? && es[j].Work? && es[i].p != es[j].p
    ensures exists m :: i < m < j && (es[m] == Release(es[i].p) || es[m] == Die(es[i].p))
  {
    var p, q := es[i].p, es[j].p;
    assert LockAllowed(LockAfter(es[..i]), es[i]) && LockAllowed(LockAfter(es[..j]), es[j]);
    if forall m :: i <= m < j ==> es[m] != Release(p) && es[m] != Die(p) {
      StaysInside(es, i, j, p);
      OnlyOwnerInside(es, j);
      assert false;
    }
  }
}
