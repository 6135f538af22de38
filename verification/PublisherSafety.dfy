/** What every lawful trace guarantees, whatever the provider answered and wherever it was cut. */
module PublisherSafety {
  import opened Options
  import opened PublisherLedger

  // ---------- Replay ----------

  lemma ReplayAppend(t: Trace, step: Step)
    ensures Replay(t + [step]) == Apply(Replay(t), step)
  {
    assert (t + [step])[..|t|] == t;
  }

  lemma LawfulAppend(plan: Plan, t: Trace, step: Step)
    requires |plan.cases| == 4
    requires Lawful(plan, t) && Allowed(plan, t, step)
    ensures Lawful(plan, t + [step])
  {
    assert (t + [step])[..|t|] == t;
  }

  lemma {:induction false} LawAt(plan: Plan, t: Trace, i: nat)
    requires |plan.cases| == 4
    requires Lawful(plan, t) && i < |t|
    ensures Lawful(plan, t[..i]) && Allowed(plan, t[..i], t[i])
    decreases |t|
  {
    var front := t[..|t| - 1];
    if i < |t| - 1 {
      LawAt(plan, front, i);
      assert front[..i] == t[..i] && front[i] == t[i];
    }
  }

  /** Every prefix of a lawful trace is lawful: a crash at any point leaves a lawful history. */
  lemma {:induction false} LawfulPrefix(plan: Plan, t: Trace, i: nat)
    requires |plan.cases| == 4
    requires Lawful(plan, t) && i <= |t|
    ensures Lawful(plan, t[..i])
  {
    if i == |t| { assert t[..i] == t; } else { LawAt(plan, t, i); }
  }

  lemma ReplayNext(t: Trace, j: nat)
    requires j < |t|
    ensures Replay(t[..j + 1]) == Apply(Replay(t[..j]), t[j])
  {
    assert t[..j + 1] == t[..j] + [t[j]];
    ReplayAppend(t[..j], t[j]);
  }

  // The law of one kind of step, without the rest.

  lemma ReserveLaw(plan: Plan, t: Trace, i: nat)
    requires |plan.cases| == 4
    requires Lawful(plan, t) && i < |t| && t[i].Reserve?
    ensures t[i].key !in Replay(t[..i]).events && |Replay(t[..i]).keys| < JOURNAL_INTENT_BOUND
  {
    LawAt(plan, t, i);
  }

  lemma FinishLaw(plan: Plan, t: Trace, i: nat)
    requires |plan.cases| == 4
    requires Lawful(plan, t) && i < |t| && t[i].Finish?
    ensures t[i].key in Replay(t[..i]).events && Replay(t[..i]).events[t[i].key].state == Pending
    ensures FinishAllowed(t[..i], t[i].key, t[i].state, t[i].receipt)
  {
    LawAt(plan, t, i);
  }

  lemma InvokeLaw(plan: Plan, t: Trace, i: nat)
    requires |plan.cases| == 4
    requires Lawful(plan, t) && i < |t| && t[i].Invoke?
    ensures i > 0 && t[i - 1].Reserve? && t[i - 1].key == Intent(t[i].op)
    ensures InvokeAllowed(plan, t[..i], Replay(t[..i]), t[i].op, t[i].target)
  {
    LawAt(plan, t, i);
    assert t[..i][i - 1] == t[i - 1];
  }

  lemma DispatchLaw(plan: Plan, t: Trace, i: nat)
    requires |plan.cases| == 4
    requires Lawful(plan, t) && i < |t| && t[i].Dispatch?
    ensures i > 0 && t[i - 1].Reserve? && t[i - 1].key == Client(t[i].s, t[i].p)
    ensures CleanupEntered !in Replay(t[..i]).events
    ensures plan.startsAt <= t[i].at < plan.expiresAt
  {
    LawAt(plan, t, i);
    assert t[..i][i - 1] == t[i - 1];
  }

  lemma PhaseLaw(plan: Plan, t: Trace, i: nat)
    requires |plan.cases| == 4
    requires Lawful(plan, t) && i < |t| && t[i].Reserve? && t[i].key.Client?
    ensures PhaseReady(t[..i], Replay(t[..i]), t[i].key.s, t[i].key.p)
  {
    LawAt(plan, t, i);
  }

  lemma ChargeLaw(plan: Plan, t: Trace, i: nat)
    requires |plan.cases| == 4
    requires Lawful(plan, t) && i < |t| && t[i].Reserve?
    ensures t[i].key.Request? ==>
              (t[i].payload.RequestPayload?
               && t[i].payload.reservedResponseBytes == PROVIDER_SINGLE_RESPONSE_BYTES)
    ensures t[i].key.Request? || t[i].key.Sql? ==>
              TotalsOf(Replay(t[..i])).Plus(Charge(t[i].key, Event(Pending, t[i].payload, NoReceipt))).Within(plan.budgets)
  {
    LawAt(plan, t, i);
  }

  lemma ApplyKeepsRow(l: Ledger, step: Step, k: Key)
    requires k in l.events
    requires step.Reserve? ==> step.key !in l.events
    requires step.Finish? ==> step.key in l.events && l.events[step.key].state == Pending
    ensures k in Apply(l, step).events
    ensures Apply(l, step).events[k].payload == l.events[k].payload
    ensures l.events[k].state != Pending ==> Apply(l, step).events[k] == l.events[k]
  {
  }

  /** Rows never disappear, payloads never change, and a settled row never changes again. */
  lemma {:induction false} RowsPersist(plan: Plan, t: Trace, i: nat, j: nat, k: Key)
    requires |plan.cases| == 4
    requires Lawful(plan, t) && i <= j <= |t|
    requires k in Replay(t[..i]).events
    ensures k in Replay(t[..j]).events
    ensures Replay(t[..j]).events[k].payload == Replay(t[..i]).events[k].payload
    ensures Replay(t[..i]).events[k].state != Pending ==> Replay(t[..j]).events[k] == Replay(t[..i]).events[k]
    decreases j - i
  {
    hide Lawful, Replay, FinishAllowed, Apply;
    if i < j {
      RowsPersist(plan, t, i, j - 1, k);
      if t[j - 1].Reserve? { ReserveLaw(plan, t, j - 1); }
      if t[j - 1].Finish? { FinishLaw(plan, t, j - 1); }
      ReplayNext(t, j - 1);
      ApplyKeepsRow(Replay(t[..j - 1]), t[j - 1], k);
    }
  }

  lemma {:induction false} ReservedOnce(plan: Plan, t: Trace, i: nat, j: nat)
    requires |plan.cases| == 4
    requires Lawful(plan, t) && i < j < |t|
    requires t[i].Reserve? && t[j].Reserve?
    ensures t[i].key != t[j].key
  {
    var k := t[i].key;
    ReserveLaw(plan, t, i);
    ReserveLaw(plan, t, j);
    ReplayNext(t, i);
    if t[j].key == k { RowsPersist(plan, t, i + 1, j, k); }
  }

  lemma {:induction false} RowWasReserved(t: Trace, n: nat, k: Key) returns (i: nat)
    requires n <= |t| && k in Replay(t[..n]).events
    ensures i < n && t[i].Reserve? && t[i].key == k
  {
    ReplayNext(t, n - 1);
    if t[n - 1].Reserve? && t[n - 1].key == k { i := n - 1; } else { i := RowWasReserved(t, n - 1, k); }
  }

  lemma {:induction false} SettledWasFinished(t: Trace, n: nat, k: Key) returns (i: nat)
    requires n <= |t| && Replay(t[..n]).Done(k)
    ensures i < n && t[i] == Finish(k, Complete, Replay(t[..n]).events[k].receipt)
  {
    ReplayNext(t, n - 1);
    if t[n - 1].Finish? && t[n - 1].key == k && k in Replay(t[..n - 1]).events {
      i := n - 1;
    } else {
      i := SettledWasFinished(t, n - 1, k);
    }
  }

  // ---------- Client phases ----------

  /** Each (scenario, phase) reaches the transport at most once, directly after its own reservation. */
  lemma {:induction false} DispatchedOnce(plan: Plan, t: Trace, i: nat, j: nat)
    requires |plan.cases| == 4
    requires Lawful(plan, t) && i < j < |t|
    requires t[i].Dispatch? && t[j].Dispatch?
    ensures t[i].s != t[j].s || t[i].p != t[j].p
    ensures i > 0 && t[i - 1].Reserve? && t[i - 1].key == Client(t[i].s, t[i].p)
    ensures plan.startsAt <= t[i].at < plan.expiresAt
  {
    DispatchLaw(plan, t, i);
    DispatchLaw(plan, t, j);
    if t[i].s == t[j].s && t[i].p == t[j].p { ReservedOnce(plan, t, i - 1, j - 1); }
  }

  lemma {:induction false} PhaseAfterPhase(plan: Plan, t: Trace, n: nat, s: Scenario, p: Phase)
    requires |plan.cases| == 4
    requires Lawful(plan, t) && n <= |t|
    requires Client(s, p) in Replay(t[..n]).events && p > 0
    ensures Replay(t[..n]).Done(Client(s, p - 1))
  {
    var i := RowWasReserved(t, n, Client(s, p));
    PhaseLaw(plan, t, i);
    RowsPersist(plan, t, i, n, Client(s, p - 1));
  }

  /** The first `n` phases are complete, nothing is reserved past phase `n`, and phase `n` itself is
      absent, pending or unknown. */
  predicate ClientShape(l: Ledger, s: Scenario, n: nat) {
    && n <= 7
    && (forall q: Phase :: q < n ==> l.Done(Client(s, q)))
    && (forall q: Phase :: q > n ==> !l.Has(Client(s, q)))
    && (n < 7 ==> !l.Done(Client(s, n)))
  }

  lemma {:induction false} ClientEntriesArePrefix(plan: Plan, t: Trace, n: nat, s: Scenario) returns (done: nat)
    requires |plan.cases| == 4
    requires Lawful(plan, t) && n <= |t|
    ensures ClientShape(Replay(t[..n]), s, done)
  {
    var l := Replay(t[..n]);
    done := 0;
    while done < 7 && l.Done(Client(s, done))
      invariant done <= 7
      invariant forall q: Phase :: q < done ==> l.Done(Client(s, q))
    {
      done := done + 1;
    }
    var last := 6;
    while last > done
      invariant last <= 6 && done <= 7
      invariant forall q: Phase :: q > last && q > done ==> !l.Has(Client(s, q))
    {
      if l.Has(Client(s, last)) {
        var q := last;
        while q > done
          invariant done <= q <= 6 && l.Has(Client(s, q))
          invariant q < last ==> l.Done(Client(s, q))
        {
          PhaseAfterPhase(plan, t, n, s, q);
          q := q - 1;
        }
      }
      last := last - 1;
    }
  }

  lemma {:induction false} PhaseZeroAlso(plan: Plan, t: Trace, n: nat, s: Scenario, p: Phase)
    requires |plan.cases| == 4
    requires Lawful(plan, t) && n <= |t| && Client(s, p) in Replay(t[..n]).events
    ensures Client(s, 0) in Replay(t[..n]).events
    ensures forall q: Phase :: q < p ==> Replay(t[..n]).Done(Client(s, q))
    decreases p
  {
    if p > 0 {
      PhaseAfterPhase(plan, t, n, s, p);
      PhaseZeroAlso(plan, t, n, s, p - 1);
    }
  }

  lemma {:induction false} SawDisabledLater(t: Trace, i: nat, n: nat, op: Operation)
    requires i <= n <= |t| && SawDisabled(t[..i], op)
    ensures SawDisabled(t[..n], op)
  {
    var j :| 0 <= j < i && t[..i][j] == Return(op, Endpoint(false, false));
    assert t[..n][j] == t[..i][j];
  }

  /** A scenario has started only if every earlier one completed all seven phases and was then read
      back disabled. */
  lemma {:induction false} EarlierScenariosFinished(plan: Plan, t: Trace, n: nat, s: Scenario, p: Phase, e: Scenario)
    requires |plan.cases| == 4
    requires Lawful(plan, t) && n <= |t| && Client(s, p) in Replay(t[..n]).events && e < s
    ensures forall q: Phase :: Replay(t[..n]).Done(Client(e, q))
    ensures SawDisabled(t[..n], ReadDisabled(e))
    decreases s
  {
    PhaseZeroAlso(plan, t, n, s, p);
    var i := RowWasReserved(t, n, Client(s, 0));
    PhaseLaw(plan, t, i);
    RowsPersist(plan, t, i, n, Client(s - 1, 6));
    if e == s - 1 {
      PhaseZeroAlso(plan, t, n, s - 1, 6);
      SawDisabledLater(t, i, n, ReadDisabled(e));
    } else {
      EarlierScenariosFinished(plan, t, n, s - 1, 6, e);
    }
  }

  /** Once the cleanup barrier is in the journal, no client phase is reserved or dispatched. */
  lemma {:induction false} NothingDispatchedAfterCleanup(plan: Plan, t: Trace, i: nat, j: nat)
    requires |plan.cases| == 4
    requires Lawful(plan, t) && i < j < |t|
    requires t[i].Reserve? && t[i].key == CleanupEntered
    ensures !t[j].Dispatch? && !(t[j].Reserve? && t[j].key.Client?)
  {
    ReplayNext(t, i);
    RowsPersist(plan, t, i + 1, j, CleanupEntered);
    if t[j].Dispatch? { DispatchLaw(plan, t, j); }
    if t[j].Reserve? && t[j].key.Client? { PhaseLaw(plan, t, j); }
  }

  // ---------- Disposal ----------

  /** No operation is invoked twice: in particular one delete per Worker and one per database, over
      any number of cleanup attempts and crashes. */
  lemma {:induction false} InvokedOnce(plan: Plan, t: Trace, i: nat, j: nat)
    requires |plan.cases| == 4
    requires Lawful(plan, t) && i < j < |t|
    requires t[i].Invoke? && t[j].Invoke?
    ensures t[i].op != t[j].op
  {
    InvokeLaw(plan, t, i);
    InvokeLaw(plan, t, j);
    if t[i].op == t[j].op { ReservedOnce(plan, t, i - 1, j - 1); }
  }

  /** A Worker is deleted only under its acknowledged creation identity, after a cleanup was entered
      and after its access was read back disabled. */
  lemma {:induction false} WorkerDisposal(plan: Plan, t: Trace, i: nat, s: Scenario)
    returns (worker: Worker, created: nat, disabled: nat)
    requires |plan.cases| == 4
    requires Lawful(plan, t) && i < |t| && t[i].Invoke? && t[i].op == DisposeWorker(s)
    ensures t[i].target == WorkerTarget(worker)
    ensures created < i && t[created] == Finish(Intent(CreateWorker(s)), Complete, WorkerReceipt(worker))
    ensures disabled < i && exists a :: t[disabled] == Return(CleanupReadDisabled(a, s), Endpoint(false, false))
  {
    InvokeLaw(plan, t, i);
    worker := t[i].target.worker;
    created := SettledWasFinished(t, i, Intent(CreateWorker(s)));
    var a :| SawDisabled(t[..i], CleanupReadDisabled(a, s));
    disabled :| 0 <= disabled < i && t[..i][disabled] == Return(CleanupReadDisabled(a, s), Endpoint(false, false));
  }

  /** A database is deleted only by the identity in its acknowledged creation receipt, with its
      binding, version and deployment complete, and only after its own Worker was deleted (by that
      Worker's acknowledged identity), the deletion acknowledged, and the Worker then read back
      absent. */
  lemma {:induction false} DatabaseDisposal(plan: Plan, t: Trace, i: nat, s: Scenario)
    returns (database: Database, deleted: nat, acknowledged: nat, absent: nat)
    requires |plan.cases| == 4
    requires Lawful(plan, t) && i < |t| && t[i].Invoke? && t[i].op == DisposeDatabase(s)
    ensures t[i].target == DatabaseTarget(database)
    ensures OwnsDatabase(Replay(t[..i]), s, database)
    ensures BindingVerified(Replay(t[..i]), s, database.uuid)
    ensures deleted < acknowledged < absent < i
    ensures t[deleted].Invoke? && t[deleted].op == DisposeWorker(s)
    ensures t[acknowledged] == Finish(Intent(DisposeWorker(s)), Complete, DeletionAcknowledged)
    ensures exists a :: t[absent] == Return(ReadWorkerAbsence(a, s), Absent)
  {
    hide Lawful, Replay;
    InvokeLaw(plan, t, i);
    database := t[i].target.database;
    var k, a :| 0 <= k < i && t[..i][k] == Return(ReadWorkerAbsence(a, s), Absent)
                && Replay(t[..i][..k]).Done(Intent(DisposeWorker(s)));
    absent := k;
    assert t[..i][..k] == t[..k];
    acknowledged := SettledWasFinished(t, absent, Intent(DisposeWorker(s)));
    FinishLaw(plan, t, acknowledged);
    var target :| Invoke(DisposeWorker(s), target) in t[..acknowledged];
    deleted :| 0 <= deleted < acknowledged && t[..acknowledged][deleted] == Invoke(DisposeWorker(s), target);
  }

  // ---------- Totals ----------

  lemma {:induction false} SumIgnoresOtherRows(keys: seq<Key>, a: map<Key, Event>, b: map<Key, Event>)
    requires forall k :: k in keys ==> k in a && k in b && Charge(k, a[k]) == Charge(k, b[k])
    ensures Sum(keys, a) == Sum(keys, b)
  {
    if keys != [] { SumIgnoresOtherRows(keys[..|keys| - 1], a, b); }
  }

  lemma {:induction false} SumAppend(keys: seq<Key>, events: map<Key, Event>, k: Key, e: Event)
    requires k !in keys && forall j :: j in keys ==> j in events
    ensures Sum(keys + [k], events[k := e]) == Sum(keys, events).Plus(Charge(k, e))
  {
    assert (keys + [k])[..|keys|] == keys;
    SumIgnoresOtherRows(keys, events, events[k := e]);
  }

  lemma {:induction false} SumUpdate(keys: seq<Key>, events: map<Key, Event>, k: Key, e: Event)
    requires forall j :: j in keys ==> j in events
    requires forall i, j :: 0 <= i < j < |keys| ==> keys[i] != keys[j]
    requires k in keys
    ensures Sum(keys, events[k := e]).Plus(Charge(k, events[k])) == Sum(keys, events).Plus(Charge(k, e))
  {
    var front, last := keys[..|keys| - 1], keys[|keys| - 1];
    if last == k {
      assert k !in front;
      SumIgnoresOtherRows(front, events, events[k := e]);
    } else {
      SumUpdate(front, events, k, e);
    }
  }

  lemma {:induction false} KeysMatchRows(plan: Plan, t: Trace, n: nat)
    requires |plan.cases| == 4
    requires Lawful(plan, t) && n <= |t|
    ensures WellKeyed(Replay(t[..n]))
    decreases n
  {
    if n > 0 {
      KeysMatchRows(plan, t, n - 1);
      if t[n - 1].Reserve? { ReserveLaw(plan, t, n - 1); }
      ReplayNext(t, n - 1);
    }
  }

  predicate RequestRowsReserved(l: Ledger) {
    forall k :: k in l.events && k.Request? ==>
      && l.events[k].payload.RequestPayload?
      && l.events[k].payload.reservedResponseBytes == PROVIDER_SINGLE_RESPONSE_BYTES
  }

  lemma {:induction false} RequestsKeepReservation(plan: Plan, t: Trace, n: nat)
    requires |plan.cases| == 4
    requires Lawful(plan, t) && n <= |t|
    ensures RequestRowsReserved(Replay(t[..n]))
    decreases n
  {
    if n > 0 {
      RequestsKeepReservation(plan, t, n - 1);
      if t[n - 1].Reserve? { ChargeLaw(plan, t, n - 1); }
      ReplayNext(t, n - 1);
    }
  }

  /** Settling a row never raises what it counts for. */
  lemma SettlingNeverCharges(before: Trace, k: Key, e: Event, state: State, receipt: Receipt)
    requires e.state == Pending && FinishAllowed(before, k, state, receipt)
    requires k.Request? ==> e.payload.RequestPayload?
                            && e.payload.reservedResponseBytes == PROVIDER_SINGLE_RESPONSE_BYTES
    ensures Charge(k, Event(state, e.payload, receipt)).responseBytes <= Charge(k, e).responseBytes
    ensures Charge(k, Event(state, e.payload, receipt)) == Charge(k, e).(responseBytes := Charge(k, Event(state, e.payload, receipt)).responseBytes)
  {
  }

  /** The charged totals never exceed the plan's budgets, at any moment of any lawful history. */
  lemma {:induction false} TotalsWithinBudgets(plan: Plan, t: Trace, n: nat)
    requires |plan.cases| == 4
    requires Lawful(plan, t) && n <= |t|
    ensures TotalsOf(Replay(t[..n])).Within(plan.budgets)
    decreases n
  {
    if n > 0 {
      TotalsWithinBudgets(plan, t, n - 1);
      KeysMatchRows(plan, t, n - 1);
      ReplayNext(t, n - 1);
      var l := Replay(t[..n - 1]);
      match t[n - 1] {
        case Reserve(k, payload) =>
          ReserveLaw(plan, t, n - 1);
          ChargeLaw(plan, t, n - 1);
          SumAppend(l.keys, l.events, k, Event(Pending, payload, NoReceipt));
        case Finish(k, state, receipt) =>
          FinishLaw(plan, t, n - 1);
          RequestsKeepReservation(plan, t, n - 1);
          SettlingNeverCharges(t[..n - 1], k, l.events[k], state, receipt);
          SumUpdate(l.keys, l.events, k, Event(state, l.events[k].payload, receipt));
        case _ =>
      }
    }
  }

  // ---------- Facts that outlive a call ----------

  lemma DonePersists(plan: Plan, t: Trace, u: Trace, k: Key)
    requires |plan.cases| == 4
    requires Lawful(plan, u) && t <= u && Replay(t).Done(k)
    ensures Replay(u).Done(k) && Replay(u).events[k] == Replay(t).events[k]
  {
    assert u[..|t|] == t && u[..|u|] == u;
    RowsPersist(plan, u, |t|, |u|, k);
  }

  lemma PresencePersists(plan: Plan, t: Trace, u: Trace, k: Key)
    requires |plan.cases| == 4
    requires Lawful(plan, u) && t <= u && Replay(t).Has(k)
    ensures Replay(u).Has(k)
  {
    assert u[..|t|] == t && u[..|u|] == u;
    RowsPersist(plan, u, |t|, |u|, k);
  }

  lemma StepPersists(t: Trace, u: Trace, step: Step)
    requires t <= u && step in t
    ensures step in u
  {
    var i :| 0 <= i < |t| && t[i] == step;
    assert u[i] == step;
  }

  lemma WorkerGonePersists(t: Trace, u: Trace, s: Scenario)
    requires t <= u && WorkerGone(t, s)
    ensures WorkerGone(u, s)
  {
    var i, a :| 0 <= i < |t| && t[i] == Return(ReadWorkerAbsence(a, s), Absent) && Replay(t[..i]).Done(Intent(DisposeWorker(s)));
    assert u[i] == t[i] && u[..i] == t[..i];
  }

  /** A completed creation row always carries the identity it created. */
  lemma CreationReceipts(plan: Plan, t: Trace, op: Operation)
    requires |plan.cases| == 4 && Lawful(plan, t) && Replay(t).Done(Intent(op))
    ensures op.CreateDatabase? ==> Replay(t).events[Intent(op)].receipt.DatabaseReceipt?
    ensures op.CreateWorker? ==> Replay(t).events[Intent(op)].receipt.WorkerReceipt?
    ensures op.CreateVersion? ==> Replay(t).events[Intent(op)].receipt.VersionReceipt?
    ensures op.DeployVersion? ==> Replay(t).events[Intent(op)].receipt.DeploymentReceipt?
  {
    assert t[..|t|] == t;
    var i := SettledWasFinished(t, |t|, Intent(op));
    FinishLaw(plan, t, i);
  }

  /** A binding row always names the database acknowledged for its scenario. */
  lemma BindingNamesOwnedDatabase(plan: Plan, t: Trace, s: Scenario, d: Database)
    requires |plan.cases| == 4 && Lawful(plan, t)
    requires OwnsDatabase(Replay(t), s, d) && Binding(s) in Replay(t).events
    ensures Replay(t).events[Binding(s)].payload == BindingPayload(d.uuid)
  {
    assert t[..|t|] == t;
    var i := RowWasReserved(t, |t|, Binding(s));
    BindingLaw(plan, t, i, s);
    var e :| OwnsDatabase(Replay(t[..i]), s, e) && t[i].payload == BindingPayload(e.uuid);
    RowsPersist(plan, t, i, |t|, Intent(CreateDatabase(s)));
    ReplayNext(t, i);
    RowsPersist(plan, t, i + 1, |t|, Binding(s));
  }

  lemma BindingLaw(plan: Plan, t: Trace, i: nat, s: Scenario)
    requires |plan.cases| == 4
    requires Lawful(plan, t) && i < |t| && t[i].Reserve? && t[i].key == Binding(s)
    ensures exists d :: OwnsDatabase(Replay(t[..i]), s, d) && t[i].payload == BindingPayload(d.uuid)
  {
    LawAt(plan, t, i);
  }

  // ---------- One committed change ----------

  lemma CommitReserve(plan: Plan, t: Trace, k: Key, payload: Payload)
    requires |plan.cases| == 4
    requires Lawful(plan, t) && k !in Replay(t).events && |Replay(t).keys| < JOURNAL_INTENT_BOUND
    requires ReserveAllowed(plan, t, Replay(t), k, payload)
    ensures Lawful(plan, t + [Reserve(k, payload)])
    ensures Replay(t + [Reserve(k, payload)])
            == Ledger(Replay(t).keys + [k], Replay(t).events[k := Event(Pending, payload, NoReceipt)])
    ensures TotalsOf(Replay(t + [Reserve(k, payload)]))
            == TotalsOf(Replay(t)).Plus(Charge(k, Event(Pending, payload, NoReceipt)))
  {
    LawfulAppend(plan, t, Reserve(k, payload));
    ReplayAppend(t, Reserve(k, payload));
    assert t[..|t|] == t;
    KeysMatchRows(plan, t, |t|);
    SumAppend(Replay(t).keys, Replay(t).events, k, Event(Pending, payload, NoReceipt));
  }

  lemma CommitFinish(plan: Plan, t: Trace, k: Key, state: State, receipt: Receipt)
    requires |plan.cases| == 4
    requires Lawful(plan, t) && k in Replay(t).events && Replay(t).events[k].state == Pending
    requires FinishAllowed(t, k, state, receipt)
    ensures Lawful(plan, t + [Finish(k, state, receipt)])
    ensures Replay(t + [Finish(k, state, receipt)])
            == Ledger(Replay(t).keys, Replay(t).events[k := Event(state, Replay(t).events[k].payload, receipt)])
    ensures TotalsOf(Replay(t + [Finish(k, state, receipt)])).Plus(Charge(k, Replay(t).events[k]))
            == TotalsOf(Replay(t)).Plus(Charge(k, Event(state, Replay(t).events[k].payload, receipt)))
  {
    LawfulAppend(plan, t, Finish(k, state, receipt));
    ReplayAppend(t, Finish(k, state, receipt));
    assert t[..|t|] == t;
    KeysMatchRows(plan, t, |t|);
    SumUpdate(Replay(t).keys, Replay(t).events, k, Event(state, Replay(t).events[k].payload, receipt));
  }

  // ---------- What a dispatched phase rests on ----------

  lemma {:induction false} DoneWasInvoked(plan: Plan, t: Trace, n: nat, op: Operation) returns (i: nat)
    requires |plan.cases| == 4
    requires Lawful(plan, t) && n <= |t| && Replay(t[..n]).Done(Intent(op))
    ensures i < n && t[i].Invoke? && t[i].op == op
    ensures InvokeAllowed(plan, t[..i], Replay(t[..i]), op, t[i].target)
  {
    hide Lawful, Replay;
    var f := SettledWasFinished(t, n, Intent(op));
    FinishLaw(plan, t, f);
    var target :| Invoke(op, target) in t[..f];
    i :| 0 <= i < f && t[..f][i] == Invoke(op, target);
    InvokeLaw(plan, t, i);
  }

  lemma ReturnLaw(plan: Plan, t: Trace, i: nat)
    requires |plan.cases| == 4
    requires Lawful(plan, t) && i < |t| && t[i].Return?
    ensures Replay(t[..i]).Done(Intent(t[i].op))
  {
    LawAt(plan, t, i);
  }

  lemma DoneLater(plan: Plan, t: Trace, i: nat, n: nat, k: Key)
    requires |plan.cases| == 4
    requires Lawful(plan, t) && i <= n <= |t| && Replay(t[..i]).Done(k)
    ensures Replay(t[..n]).Done(k) && Replay(t[..n]).events[k] == Replay(t[..i]).events[k]
  {
    RowsPersist(plan, t, i, n, k);
  }

  lemma StepLater(t: Trace, i: nat, n: nat, step: Step)
    requires i <= n <= |t| && step in t[..i]
    ensures step in t[..n]
  {
    var j :| 0 <= j < i && t[..i][j] == step;
    assert t[..n][j] == step;
  }

  /** Migrations complete in order, each after its own SQL charge. */
  lemma {:induction false} MigrationsInOrder(plan: Plan, t: Trace, n: nat, s: Scenario, i: nat)
    requires |plan.cases| == 4
    requires Lawful(plan, t) && n <= |t| && Replay(t[..n]).Done(Intent(Migrate(s, i)))
    ensures forall m: nat :: m <= i ==>
              Replay(t[..n]).Done(Intent(Migrate(s, m))) && Replay(t[..n]).Done(Sql(MigrationBatch(s, m)))
    decreases i
  {
    hide Lawful, Replay;
    var v := DoneWasInvoked(plan, t, n, Migrate(s, i));
    DoneLater(plan, t, v, n, Sql(MigrationBatch(s, i)));
    if i > 0 {
      DoneLater(plan, t, v, n, Intent(Migrate(s, i - 1)));
      MigrationsInOrder(plan, t, n, s, i - 1);
    }
  }

  /** A version exists only on a fully migrated database. */
  lemma VersionFollowsMigrations(plan: Plan, t: Trace, n: nat, s: Scenario)
    requires |plan.cases| == 4
    requires Lawful(plan, t) && n <= |t| && Replay(t[..n]).Done(Intent(CreateVersion(s)))
    ensures forall m: nat :: m < |plan.migrations| ==>
              Replay(t[..n]).Done(Intent(Migrate(s, m))) && Replay(t[..n]).Done(Sql(MigrationBatch(s, m)))
  {
    hide Lawful, Replay;
    var v := DoneWasInvoked(plan, t, n, CreateVersion(s));
    if |plan.migrations| > 0 {
      DoneLater(plan, t, v, n, Intent(Migrate(s, |plan.migrations| - 1)));
      MigrationsInOrder(plan, t, n, s, |plan.migrations| - 1);
    }
  }

  /** A Worker exists only beside a database that was read back unchanged and empty. */
  lemma WorkerFollowsEmptyDatabase(plan: Plan, t: Trace, n: nat, s: Scenario, d: Database)
    requires |plan.cases| == 4
    requires Lawful(plan, t) && n <= |t| && Replay(t[..n]).Done(Intent(CreateWorker(s)))
    requires OwnsDatabase(Replay(t[..n]), s, d)
    ensures ReadEmpty(t[..n], s, d)
  {
    hide Lawful, Replay;
    var v := DoneWasInvoked(plan, t, n, CreateWorker(s));
    var e :| OwnsDatabase(Replay(t[..v]), s, e) && ReadEmpty(t[..v], s, e);
    DoneLater(plan, t, v, n, Intent(CreateDatabase(s)));
    StepLater(t, v, n, Return(InspectDatabase(s), DatabaseAnswer(e)));
    StepLater(t, v, n, Return(VerifyEmpty(s), Truth(true)));
  }

  /** Everything a scenario's Worker and database must have been through before their endpoint opens. */
  ghost predicate Deployable(plan: Plan, t: Trace, s: Scenario, d: Database, w: Worker, v: Version, e: Deployment) {
    var l := Replay(t);
    && OwnsDatabase(l, s, d) && ReadEmpty(t, s, d) && OwnsWorker(l, s, w)
    && (forall m: nat :: m < |plan.migrations| ==> l.Done(Intent(Migrate(s, m))) && l.Done(Sql(MigrationBatch(s, m))))
    && OwnsVersion(l, s, v) && OwnsDeployment(l, s, e) && ReadDeployed(t, s, v, e)
    && BindingVerified(l, s, d.uuid)
  }

  lemma {:induction false} EnabledWasDeployable(plan: Plan, t: Trace, n: nat, s: Scenario)
    returns (d: Database, w: Worker, v: Version, e: Deployment)
    requires |plan.cases| == 4
    requires Lawful(plan, t) && n <= |t| && Replay(t[..n]).Done(Intent(Enable(s)))
    ensures Deployable(plan, t[..n], s, d, w, v, e)
  {
    hide Lawful, Replay;
    var i := DoneWasInvoked(plan, t, n, Enable(s));
    w := t[i].target.worker;
    d :| OwnsDatabase(Replay(t[..i]), s, d) && BindingVerified(Replay(t[..i]), s, d.uuid);
    v, e :| OwnsVersion(Replay(t[..i]), s, v) && OwnsDeployment(Replay(t[..i]), s, e) && ReadDeployed(t[..i], s, v, e);
    DoneLater(plan, t, i, n, Intent(CreateDatabase(s)));
    DoneLater(plan, t, i, n, Intent(CreateWorker(s)));
    DoneLater(plan, t, i, n, Intent(CreateVersion(s)));
    DoneLater(plan, t, i, n, Intent(DeployVersion(s)));
    DoneLater(plan, t, i, n, Binding(s));
    StepLater(t, i, n, Return(InspectVersion(Deployed(s)), VersionAnswer(v)));
    StepLater(t, i, n, Return(InspectDeployment(Deployed(s)), DeploymentAnswer(e)));
    StepLater(t, i, n, Return(AssertOrigin(Deployed(s)), Truth(true)));
    VersionFollowsMigrations(plan, t, n, s);
    WorkerFollowsEmptyDatabase(plan, t, n, s, d);
  }

  /** A client phase reaches the transport only on an endpoint read back enabled, over an owned Worker
      and database: fresh and empty, fully migrated, deployed as uploaded, bound as recorded. */
  lemma {:induction false} PhaseRestsOnDeployment(plan: Plan, t: Trace, i: nat)
    returns (d: Database, w: Worker, v: Version, e: Deployment)
    requires |plan.cases| == 4
    requires Lawful(plan, t) && i < |t| && t[i].Dispatch?
    ensures Deployable(plan, t[..i], t[i].s, d, w, v, e)
    ensures Return(ReadEnabled(t[i].s), Endpoint(true, false)) in t[..i]
    ensures Replay(t[..i]).Done(Sql(PhaseBatch(t[i].s)))
  {
    hide Lawful, Replay, Deployable;
    var s := t[i].s;
    DispatchLaw(plan, t, i);
    ReservedIsThere(t, i);
    PhaseZeroAlso(plan, t, i, s, t[i].p);
    var j := RowWasReserved(t, i, Client(s, 0));
    PhaseLaw(plan, t, j);
    StepLater(t, j, i, Return(ReadEnabled(s), Endpoint(true, false)));
    DoneLater(plan, t, j, i, Sql(PhaseBatch(s)));
    var r :| 0 <= r < i && t[..i][r] == Return(ReadEnabled(s), Endpoint(true, false));
    ReturnLaw(plan, t, r);
    var read := DoneWasInvoked(plan, t, r, ReadEnabled(s));
    DoneLater(plan, t, read, i, Intent(Enable(s)));
    d, w, v, e := EnabledWasDeployable(plan, t, i, s);
  }

  lemma ReservedIsThere(t: Trace, i: nat)
    requires 0 < i <= |t| && t[i - 1].Reserve?
    ensures t[i - 1].key in Replay(t[..i]).events
  {
    ReplayNext(t, i - 1);
  }
}
