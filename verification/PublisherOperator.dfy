/** The hosted publisher operator: one run over four fresh resource pairs, and a separately
    authorised cleanup.  Every provider answer, clock reading, grant check and stop request is
    arbitrary; a call may end normally, raise, or die with the process (`Crashed`). */
module PublisherOperator {
  import opened Options
  import opened Crashes
  import opened PublisherLedger
  import opened PublisherSafety
  import opened PublisherJournal
  import opened PublisherClient
  import opened PublisherCapacity

  // ---------- Receipts ----------

  const MODULE_PIN: string := "worker"

  predicate LowerHex(c: char) { '0' <= c <= '9' || 'a' <= c <= 'f' }

  predicate IsUuid(id: string) {
    && |id| == 36
    && (forall i :: 0 <= i < 36 ==> if i in {8, 13, 18, 23} then id[i] == '-' else LowerHex(id[i]))
    && (exists i :: 0 <= i < 36 && id[i] !in {'0', '-'})
  }

  predicate IsWorkerId(id: string) {
    |id| == 32 && (forall i :: 0 <= i < 32 ==> LowerHex(id[i])) && exists i :: 0 <= i < 32 && id[i] != '0'
  }

  predicate IsDeploymentId(id: string) {
    32 <= |id| <= 36 && forall i :: 0 <= i < |id| ==> LowerHex(id[i]) || id[i] == '-'
  }

  function FindCase(cases: seq<Case>, named: Case -> bool): Option<Case> {
    if cases == [] then None else if named(cases[0]) then Some(cases[0]) else FindCase(cases[1..], named)
  }

  /** The receipt an answer earns, or nothing when its identity or timing is not acknowledged. */
  function ReceiptFor(plan: Plan, op: Operation, target: Target, answer: Answer, started: int, received: int): Option<Receipt> {
    match op
    case CreateDatabase(_) =>
      if !answer.DatabaseAnswer? || !IsUuid(answer.database.uuid) then None
      else
        var d := answer.database;
        var c := FindCase(plan.cases, (c: Case) => c.d1Name == d.name);
        if c.None? || !(c.value.startsAt <= started <= received < c.value.expiresAt)
           || (d.createdAt.Some? && !(plan.startsAt <= d.createdAt.value < c.value.expiresAt)) then None
        else Some(DatabaseReceipt(d))
    case CreateWorker(_) =>
      if !answer.WorkerAnswer? || !IsWorkerId(answer.worker.id) then None
      else
        var w := answer.worker;
        var c := FindCase(plan.cases, (c: Case) => c.workerName == w.name);
        if c.None? || !(plan.startsAt <= w.createdOn < c.value.expiresAt) then None else Some(WorkerReceipt(w))
    case CreateVersion(_) =>
      if answer.VersionAnswer? && target.WorkerTarget? && answer.version.workerId == target.worker.id
         && IsDeploymentId(answer.version.id) && IsDeploymentId(answer.version.workerId)
         && answer.version.moduleDigest == MODULE_PIN
      then Some(VersionReceipt(answer.version)) else None
    case DeployVersion(_) =>
      if answer.DeploymentAnswer? && target.VersionTarget? && answer.deployment.workerId == target.worker.id
         && IsDeploymentId(answer.deployment.id) && IsDeploymentId(answer.deployment.workerId)
         && IsDeploymentId(answer.deployment.versionId) && answer.deployment.versionId == target.version.id
      then Some(DeploymentReceipt(answer.deployment)) else None
    case DisposeWorker(_) => if answer == Deletion(true) then Some(DeletionAcknowledged) else None
    case DisposeDatabase(_) => if answer == Deletion(true) then Some(DeletionAcknowledged) else None
    case _ => Some(Presence(answer != Absent))
  }

  /** What a completed operation's receipt says about its answer. */
  predicate Acknowledges(receipt: Receipt, op: Operation, answer: Answer) {
    && (op.CreateDatabase? ==> answer.DatabaseAnswer? && receipt == DatabaseReceipt(answer.database))
    && (op.CreateWorker? ==> answer.WorkerAnswer? && receipt == WorkerReceipt(answer.worker))
    && (op.CreateVersion? ==> answer.VersionAnswer? && receipt == VersionReceipt(answer.version))
    && (op.DeployVersion? ==> answer.DeploymentAnswer? && receipt == DeploymentReceipt(answer.deployment))
    && (op.DisposeWorker? || op.DisposeDatabase? ==> answer == Deletion(true) && receipt == DeletionAcknowledged)
  }

  lemma ReceiptsAcknowledge(plan: Plan, op: Operation, target: Target, answer: Answer, started: int, received: int)
    ensures ReceiptFor(plan, op, target, answer, started, received).Some? ==>
              Acknowledges(ReceiptFor(plan, op, target, answer, started, received).value, op, answer)
  {
  }

  /** Rows other than request rows and the operation's own row are the same. */
  ghost predicate SameExcept(a: map<Key, Event>, b: map<Key, Event>, op: Operation) {
    forall k: Key :: !k.Request? && k != Intent(op) ==> (k in a <==> k in b) && (k in a ==> a[k] == b[k])
  }

  ghost predicate SameButRequests(a: map<Key, Event>, b: map<Key, Event>) {
    forall k: Key :: !k.Request? ==> (k in a <==> k in b) && (k in a ==> a[k] == b[k])
  }

  lemma ReadEmptyPersists(t: Trace, u: Trace, s: Scenario, d: Database)
    requires t <= u && ReadEmpty(t, s, d)
    ensures ReadEmpty(u, s, d)
  {
    StepPersists(t, u, Return(InspectDatabase(s), DatabaseAnswer(d)));
    StepPersists(t, u, Return(VerifyEmpty(s), Truth(true)));
  }

  lemma ReadDeployedPersists(t: Trace, u: Trace, s: Scenario, v: Version, d: Deployment)
    requires t <= u && ReadDeployed(t, s, v, d)
    ensures ReadDeployed(u, s, v, d)
  {
    StepPersists(t, u, Return(InspectVersion(Deployed(s)), VersionAnswer(v)));
    StepPersists(t, u, Return(InspectDeployment(Deployed(s)), DeploymentAnswer(d)));
    StepPersists(t, u, Return(AssertOrigin(Deployed(s)), Truth(true)));
  }

  lemma EnableAllowedLater(plan: Plan, t: Trace, u: Trace, s: Scenario, target: Target)
    requires |plan.cases| == 4 && Lawful(plan, u) && t <= u
    requires InvokeAllowed(plan, t, Replay(t), Enable(s), target)
    ensures InvokeAllowed(plan, u, Replay(u), Enable(s), target)
  {
    hide Lawful, Replay;
    var d :| OwnsDatabase(Replay(t), s, d) && BindingVerified(Replay(t), s, d.uuid);
    var v, e :| OwnsVersion(Replay(t), s, v) && OwnsDeployment(Replay(t), s, e) && ReadDeployed(t, s, v, e);
    DonePersists(plan, t, u, Intent(CreateWorker(s)));
    DonePersists(plan, t, u, Intent(CreateDatabase(s)));
    DonePersists(plan, t, u, Binding(s));
    DonePersists(plan, t, u, Intent(CreateVersion(s)));
    DonePersists(plan, t, u, Intent(DeployVersion(s)));
    ReadDeployedPersists(t, u, s, v, e);
    assert OwnsDatabase(Replay(u), s, d) && BindingVerified(Replay(u), s, d.uuid);
    assert OwnsVersion(Replay(u), s, v) && OwnsDeployment(Replay(u), s, e);
  }

  lemma InvokeAllowedLater(plan: Plan, t: Trace, u: Trace, op: Operation, target: Target)
    requires |plan.cases| == 4 && Lawful(plan, u) && t <= u
    requires InvokeAllowed(plan, t, Replay(t), op, target)
    ensures InvokeAllowed(plan, u, Replay(u), op, target)
  {
    hide Lawful, Replay;
    match op
    case CreateWorker(s) =>
      var d :| OwnsDatabase(Replay(t), s, d) && ReadEmpty(t, s, d);
      DonePersists(plan, t, u, Intent(CreateDatabase(s)));
      ReadEmptyPersists(t, u, s, d);
    case Migrate(s, i) =>
      DonePersists(plan, t, u, Intent(CreateDatabase(s)));
      DonePersists(plan, t, u, Sql(MigrationBatch(s, i)));
      if i > 0 { DonePersists(plan, t, u, Intent(Migrate(s, i - 1))); }
    case CreateVersion(s) =>
      DonePersists(plan, t, u, Intent(CreateWorker(s)));
      if |plan.migrations| > 0 { DonePersists(plan, t, u, Intent(Migrate(s, |plan.migrations| - 1))); }
    case DeployVersion(s) =>
      DonePersists(plan, t, u, Intent(CreateWorker(s)));
      DonePersists(plan, t, u, Intent(CreateVersion(s)));
    case Enable(s) =>
      EnableAllowedLater(plan, t, u, s, target);
    case ReadEnabled(s) =>
      DonePersists(plan, t, u, Intent(Enable(s)));
    case DisposeWorker(s) =>
      PresencePersists(plan, t, u, CleanupEntered);
      DonePersists(plan, t, u, Intent(CreateWorker(s)));
      var a :| SawDisabled(t, CleanupReadDisabled(a, s));
      StepPersists(t, u, Return(CleanupReadDisabled(a, s), Endpoint(false, false)));
      assert SawDisabled(u, CleanupReadDisabled(a, s));
    case DisposeDatabase(s) =>
      PresencePersists(plan, t, u, CleanupEntered);
      DonePersists(plan, t, u, Intent(CreateDatabase(s)));
      DonePersists(plan, t, u, Binding(s));
      DonePersists(plan, t, u, Intent(CreateVersion(s)));
      DonePersists(plan, t, u, Intent(DeployVersion(s)));
      WorkerGonePersists(t, u, s);
    case _ =>
  }

  lemma SumNothing(events: map<Key, Event>)
    ensures Sum([], events) == ZERO
  {
  }

  lemma SumNext(keys: seq<Key>, events: map<Key, Event>, i: nat)
    requires i < |keys|
    ensures Sum(keys[..i + 1], events)
            == Sum(keys[..i], events).Plus(if keys[i] in events then Charge(keys[i], events[keys[i]]) else ZERO)
  {
    hide Charge;
    assert keys[..i + 1][..i] == keys[..i];
  }

  /** A scenario is finished: all seven phases complete and its endpoint read back disabled. */
  ghost predicate Finished(t: Trace, s: Scenario) {
    && (forall q: Phase :: Replay(t).Done(Client(s, q)))
    && SawDisabled(t, ReadDisabled(s))
  }

  lemma FinishedPersists(plan: Plan, t: Trace, u: Trace, s: Scenario)
    requires |plan.cases| == 4 && Lawful(plan, u) && t <= u && Finished(t, s)
    ensures Finished(u, s)
  {
    hide Lawful, Replay;
    forall q: Phase ensures Replay(u).Done(Client(s, q)) { DonePersists(plan, t, u, Client(s, q)); }
    StepPersists(t, u, Return(ReadDisabled(s), Endpoint(false, false)));
  }

  /** The operations that need nothing to have happened before. */
  predicate Unconditional(op: Operation) {
    !op.CreateWorker? && !op.Migrate? && !op.CreateVersion? && !op.DeployVersion? && !op.Enable?
    && !op.ReadEnabled? && !op.DisposeWorker? && !op.DisposeDatabase?
  }

  /** A pair's two identities are acknowledged in the journal. */
  ghost predicate Provisioned(t: Trace, s: Scenario, database: Database, worker: Worker) {
    OwnsDatabase(Replay(t), s, database) && OwnsWorker(Replay(t), s, worker)
  }

  lemma ProvisionedPersists(plan: Plan, t: Trace, u: Trace, s: Scenario, database: Database, worker: Worker)
    requires |plan.cases| == 4 && Lawful(plan, u) && t <= u && Provisioned(t, s, database, worker)
    ensures Provisioned(u, s, database, worker)
  {
    hide Lawful, Replay;
    DonePersists(plan, t, u, Intent(CreateDatabase(s)));
    DonePersists(plan, t, u, Intent(CreateWorker(s)));
  }

  // ---------- Cleanup verdicts ----------

  datatype CaseStatus = IdentityUnknown | WorkerIdentityUnknown | WorkerDeletionUnknown
                      | WorkerRemovedBindingUnverified | DatabaseDeletionUnknown | PairAbsent | CleanupUnknown

  datatype Verdict = ResourcesDisposed | DisposedWithUnknownOutcomes | DisposalPending

  /** The pair of a scenario was disposed of: both deletions acknowledged, and both resources read
      back absent, the Worker's after its own deletion. */
  ghost predicate PairDisposed(t: Trace, attempt: string, s: Scenario) {
    && Replay(t).Done(Intent(DisposeWorker(s))) && Replay(t).Done(Intent(DisposeDatabase(s)))
    && WorkerGone(t, s)
    && Return(ReadDatabaseAbsence(attempt, s), Absent) in t
  }

  lemma PairDisposedPersists(plan: Plan, t: Trace, u: Trace, attempt: string, s: Scenario)
    requires |plan.cases| == 4 && Lawful(plan, u) && t <= u && PairDisposed(t, attempt, s)
    ensures PairDisposed(u, attempt, s)
  {
    hide Lawful, Replay;
    DonePersists(plan, t, u, Intent(DisposeWorker(s)));
    DonePersists(plan, t, u, Intent(DisposeDatabase(s)));
    WorkerGonePersists(t, u, s);
    StepPersists(t, u, Return(ReadDatabaseAbsence(attempt, s), Absent));
  }

  lemma BindingPersists(plan: Plan, t: Trace, u: Trace, s: Scenario, uuid: string)
    requires |plan.cases| == 4 && Lawful(plan, u) && t <= u && BindingVerified(Replay(t), s, uuid)
    ensures BindingVerified(Replay(u), s, uuid)
  {
    hide Lawful, Replay;
    DonePersists(plan, t, u, Binding(s));
    DonePersists(plan, t, u, Intent(CreateVersion(s)));
    DonePersists(plan, t, u, Intent(DeployVersion(s)));
  }

  // ---------- The operator ----------

  /** What the running process remembers of one resource pair. */
  datatype Entry = Entry(database: Database, worker: Option<Worker>, accessDisabled: bool)

  class HostedPublisherOperator {
    const plan: Plan
    const journal: DurableJournal
    const fence: DispatchFence
    var totals: Totals           // the six running counters
    var activeRequest: Option<Key>
    var requestCase: Option<Scenario>
    var stopping: bool
    var cleanupMode: bool
    var cleanupExpiresAt: int
    var entries: map<Scenario, Entry>

    ghost predicate Bound()
      reads journal
    {
      journal.Valid() && journal.plan == plan && fence.plan == plan
    }

    /** While the process lives, its totals are the fold over the journal. */
    ghost predicate Valid()
      reads this, journal
    {
      && Bound()
      && totals == TotalsOf(journal.Rows())
      && (activeRequest.Some? ==>
            activeRequest.value.Request? && activeRequest.value in journal.events
            && journal.events[activeRequest.value].state == Pending)
      && (cleanupMode ==> CleanupEntered in journal.events)
    }

    /** The mode flags fit the operation: mutations outside stopping and cleanup answer to their case. */
    ghost predicate ModeFits(op: Operation)
      reads this
    {
      && (stopping ==> op.Disable? || op.ReadDisabled?)
      && (!cleanupMode && !stopping ==> requestCase == RequestCase(op))
    }

    /** One journal row added to the running counters. */
    static function CountRow(t: Totals, key: Key, event: Event): (u: Totals)
      ensures u == t.Plus(Charge(key, event))
    {
      if key.Request? && event.payload.RequestPayload? then
        Totals(t.calls + 1, t.mutations + (if event.payload.mutation then 1 else 0),
               t.requestBytes + event.payload.requestBytes,
               t.responseBytes + (if event.state == Complete && event.receipt.ResponseReceipt? then event.receipt.responseBytes
                                  else event.payload.reservedResponseBytes),
               t.sqlCalls, t.sqlStatements)
      else if key.Sql? && event.payload.SqlPayload? then
        t.(sqlCalls := t.sqlCalls + event.payload.calls, sqlStatements := t.sqlStatements + event.payload.statements)
      else t
    }

    /** The counters of a journal, as the constructor recounts them. */
    static method Recount(keys: seq<Key>, events: map<Key, Event>) returns (t: Totals)
      ensures t == Sum(keys, events)
    {
      hide Charge, CountRow, Sum;
      SumNothing(events);
      t := ZERO;
      var i := 0;
      while i < |keys|
        invariant 0 <= i <= |keys|
        invariant t == Sum(keys[..i], events)
      {
        SumNext(keys, events, i);
        if keys[i] in events { t := CountRow(t, keys[i], events[keys[i]]); }
        i := i + 1;
      }
      assert keys[..i] == keys;
    }

    /** Reconstruction: a new process recounts the journal it finds. */
    constructor Open(plan: Plan, journal: DurableJournal, fence: DispatchFence)
      requires journal.Valid() && journal.plan == plan && fence.plan == plan
      ensures Valid() && this.plan == plan && this.journal == journal && this.fence == fence
      ensures !stopping && !cleanupMode && entries == map[] && activeRequest == None
    {
      this.plan, this.journal, this.fence := plan, journal, fence;
      totals := ZERO;
      activeRequest, requestCase, stopping, cleanupMode, cleanupExpiresAt := None, None, false, false, 0;
      entries := map[];
      new;
      hide Lawful, Replay;
      totals := Recount(journal.keys, journal.events);
    }

    /** The case-window check; it does not apply while stopping access or cleaning up. */
    method CaseWindow(now: int) returns (r: Flow<int>)
      requires |plan.cases| == 4
      ensures r.Ok? || r.Raised?
      ensures r.Ok? ==> r.value == now
      ensures r.Ok? && !cleanupMode && !stopping ==>
                requestCase.Some? && plan.cases[requestCase.value].startsAt <= now < plan.cases[requestCase.value].expiresAt
    {
      if cleanupMode || stopping { return Ok(now); }
      if requestCase.None? { return Raised; }
      var c := plan.cases[requestCase.value];
      return if c.startsAt <= now < c.expiresAt then Ok(now) else Raised;
    }

    /** The checks before the reservation of a provider request: authority, stop, metadata, budgets. */
    method Admit(mutation: bool, metadataValid: bool, bytes: int) returns (r: Flow<()>)
      requires |plan.cases| == 4
      modifies fence
      ensures r.Ok? || r.Raised?
      ensures r.Ok? ==> metadataValid && 0 <= bytes <= PROVIDER_SINGLE_RESPONSE_BYTES
                        && BudgetAdmits(totals, plan.budgets, mutation, bytes)
      ensures r.Ok? && !cleanupMode && !stopping ==> !fence.stopped
      ensures old(fence.stopped) ==> fence.stopped
    {
      var now :- fence.Window(cleanupMode);
      var granted: bool, stopRequested: bool := *, *;
      if !granted { return Raised; }
      now := *;
      if mutation { var _ :- CaseWindow(now); }
      now := *;
      if cleanupMode {
        if now >= cleanupExpiresAt { return Raised; }
      } else if !stopping && (fence.stopped || stopRequested) {
        fence.stopped := true;
        return Raised;
      }
      if !metadataValid || !(0 <= bytes <= 2_097_152) { return Raised; }
      if totals.calls >= plan.budgets.providerCalls { return Raised; }
      if mutation && totals.mutations >= plan.budgets.providerMutations { return Raised; }
      if totals.requestBytes + bytes > PROVIDER_REQUEST_BYTES
         || totals.responseBytes + PROVIDER_SINGLE_RESPONSE_BYTES > PROVIDER_RESPONSE_BYTES { return Raised; }
      return Ok(());
    }

    /** The authority checks repeated after the reservation, immediately before the transport. */
    method Confirm(mutation: bool) returns (r: Flow<int>)
      requires |plan.cases| == 4
      ensures r.Ok? || r.Raised?
      ensures r.Ok? && mutation && !cleanupMode && !stopping ==>
                requestCase.Some? && plan.cases[requestCase.value].startsAt <= r.value < plan.cases[requestCase.value].expiresAt
    {
      var now :- fence.Window(cleanupMode);
      var granted: bool := *;
      if !granted { return Raised; }
      now := *;
      if cleanupMode && now >= cleanupExpiresAt { return Raised; }
      now := *;
      if mutation { var _ :- CaseWindow(now); }
      return Ok(now);
    }

    /** The durable reservation of an admitted request, and its place in the counters. */
    method Book(op: Operation, suffix: string, mutation: bool, bytes: nat) returns (r: Flow<()>)
      requires Valid() && bytes <= PROVIDER_SINGLE_RESPONSE_BYTES
      requires BudgetAdmits(totals, plan.budgets, mutation, bytes)
      modifies this`totals, this`activeRequest, journal
      ensures Bound() && old(journal.trace) <= journal.trace && SameButRequests(old(journal.events), journal.events)
      ensures !r.Crashed? ==> Valid()
      ensures r.Ok? ==> JustReserved(journal.trace, Request(op, suffix))
                        && activeRequest == Some(Request(op, suffix)) && totals.calls == old(totals.calls) + 1
    {
      hide Lawful, Replay, Sum;
      TotalsNow();
      var reserved :- journal.Reserve(Request(op, suffix), RequestPayload(bytes, mutation, PROVIDER_SINGLE_RESPONSE_BYTES));
      if !reserved { return Raised; }
      totals := totals.(calls := totals.calls + 1, mutations := totals.mutations + (if mutation then 1 else 0),
                        requestBytes := totals.requestBytes + bytes,
                        responseBytes := totals.responseBytes + PROVIDER_SINGLE_RESPONSE_BYTES);
      activeRequest := Some(Request(op, suffix));
      return Ok(());
    }

    /** Admission of one provider request: checks, durable reservation, checks again. */
    method BeforeRequest(op: Operation, suffix: string, mutation: bool, metadataValid: bool, bytes: int) returns (r: Flow<()>)
      requires Valid() && ModeFits(op)
      modifies this`totals, this`activeRequest, journal, fence
      ensures Bound() && old(journal.trace) <= journal.trace && SameButRequests(old(journal.events), journal.events)
      ensures !r.Crashed? ==> Valid()
      ensures r.Ok? ==> activeRequest == Some(Request(op, suffix)) && totals.calls == old(totals.calls) + 1
      ensures r.Ok? ==> 0 <= bytes <= PROVIDER_SINGLE_RESPONSE_BYTES
                        && BudgetAdmits(old(totals), plan.budgets, mutation, bytes)
    {
      hide Lawful, Replay, Sum, TotalsOf;
      var _ :- Admit(mutation, metadataValid, bytes);
      var _ :- Book(op, suffix, mutation, bytes);
      var at :- Confirm(mutation);
      journal.Record(Send(Request(op, suffix), mutation, at));
      return Ok(());
    }

    /** The totals are within budget now, because the journal's history is lawful. */
    lemma TotalsNow()
      requires Valid()
      ensures totals.Within(plan.budgets)
    {
      assert journal.trace[..|journal.trace|] == journal.trace;
      TotalsWithinBudgets(plan, journal.trace, |journal.trace|);
    }

    method AfterRequest(status: int, bytes: int) returns (r: Flow<()>)
      requires Valid() && activeRequest.Some?
      modifies this`totals, this`activeRequest, journal
      ensures Bound() && old(journal.trace) <= journal.trace && SameButRequests(old(journal.events), journal.events)
      ensures !r.Crashed? ==> Valid()
      ensures r.Ok? ==> activeRequest == None
                        && totals == old(totals).(responseBytes := old(totals.responseBytes) + bytes - PROVIDER_SINGLE_RESPONSE_BYTES)
    {
      hide Lawful, Replay, Sum;
      if !(100 <= status <= 599) || !(0 <= bytes <= 2_097_152) { return Raised; }
      var key := activeRequest.value;
      RequestRowsNow();
      var _ :- journal.Finish(key, Complete, ResponseReceipt(status, bytes));
      totals := totals.(responseBytes := totals.responseBytes + bytes - PROVIDER_SINGLE_RESPONSE_BYTES);
      activeRequest := None;
      return Ok(());
    }

    lemma RequestRowsNow()
      requires Valid()
      ensures RequestRowsReserved(journal.Rows())
    {
      assert journal.trace[..|journal.trace|] == journal.trace;
      RequestsKeepReservation(plan, journal.trace, |journal.trace|);
    }

    /** An arbitrary provider: any number of requests through the durable hooks, then any answer, an
        exception, or the death of the process. */
    method Provider(op: Operation, target: Target) returns (r: Flow<Answer>)
      requires Valid() && ModeFits(op) && JustReserved(journal.trace, Intent(op))
      requires InvokeAllowed(plan, journal.trace, journal.Rows(), op, target)
      modifies this`totals, this`activeRequest, journal, fence
      ensures Bound() && old(journal.trace) <= journal.trace && SameButRequests(old(journal.events), journal.events)
      ensures Invoke(op, target) in journal.trace
      ensures !r.Crashed? ==> Valid()
    {
      hide Lawful, Replay, Sum, TotalsOf, InvokeAllowed, FinishAllowed, ReserveAllowed, SendAllowed;
      journal.Record(Invoke(op, target));
      ghost var invoked := journal.trace;
      assert invoked[|invoked| - 1] == Invoke(op, target);
      var requests: nat := *;
      while requests > 0
        invariant Valid() && ModeFits(op) && invoked <= journal.trace
        invariant SameButRequests(old(journal.events), journal.events)
      {
        var exchanged := OneRequest(op);
        StepPersists(invoked, journal.trace, Invoke(op, target));
        if !exchanged.Ok? { return exchanged.PropagateFailure<Answer>(); }
        requests := requests - 1;
      }
      StepPersists(invoked, journal.trace, Invoke(op, target));
      var fails: bool, dies: bool := *, *;
      if dies { return Crashed; }
      if fails { return Raised; }
      var answer: Answer := *;
      return Ok(answer);
    }

    method OneRequest(op: Operation) returns (r: Flow<()>)
      requires Valid() && ModeFits(op)
      modifies this`totals, this`activeRequest, journal, fence
      ensures Bound() && old(journal.trace) <= journal.trace && SameButRequests(old(journal.events), journal.events)
      ensures !r.Crashed? ==> Valid()
    {
      hide Lawful, Replay, Sum, TotalsOf;
      var suffix: string, mutation: bool, metadataValid: bool, bytes: int := *, *, *, *;
      var _ :- BeforeRequest(op, suffix, mutation, metadataValid, bytes);
      var answered: bool, dies: bool := *, *;
      if dies { return Crashed; }
      if !answered { return Raised; }
      var status: int, size: int := *, *;
      var _ :- AfterRequest(status, size);
      return Ok(());
    }

    /** The guarded body of an operation, after its intent is durable. */
    method Perform(op: Operation, target: Target) returns (r: Flow<Answer>)
      requires Valid() && ModeFits(op) && JustReserved(journal.trace, Intent(op))
      requires InvokeAllowed(plan, journal.trace, journal.Rows(), op, target)
      requires Intent(op) in journal.events && journal.events[Intent(op)].state == Pending
      modifies this`totals, this`activeRequest, journal, fence
      ensures Bound() && old(journal.trace) <= journal.trace && SameExcept(old(journal.events), journal.events, op)
      ensures !r.Crashed? ==> Valid() && Intent(op) in journal.events
      ensures r.Raised? ==> journal.events[Intent(op)].state == Pending
      ensures r.Ok? ==> Completed(op, r.value)
      ensures r.Ok? ==> Acknowledges(journal.events[Intent(op)].receipt, op, r.value)
    {
      hide Lawful, Replay, Sum, TotalsOf, ReceiptFor, Acknowledges;
      var started: int := *;
      if op.CreateDatabase? || op.CreateWorker? {
        var _ :- CaseWindow(started);
      }
      var answer :- Provider(op, target);
      var received: int := *;
      var receipt := ReceiptFor(plan, op, target, answer, started, received);
      if receipt.None? { return Raised; }
      ReceiptsAcknowledge(plan, op, target, answer, started, received);
      var _ :- Conclude(op, target, answer, receipt.value);
      return Ok(answer);
    }

    method Conclude(op: Operation, target: Target, answer: Answer, receipt: Receipt) returns (r: Flow<()>)
      requires Valid() && Acknowledges(receipt, op, answer) && Invoke(op, target) in journal.trace
      requires Intent(op) in journal.events && journal.events[Intent(op)].state == Pending
      modifies journal
      ensures Bound() && old(journal.trace) <= journal.trace && SameExcept(old(journal.events), journal.events, op)
      ensures !r.Crashed? ==> Valid() && Intent(op) in journal.events
      ensures r.Raised? ==> journal.events[Intent(op)].state == Pending
      ensures r.Ok? ==> Completed(op, answer) && journal.events[Intent(op)].receipt == receipt
    {
      hide Lawful, Replay, Sum, TotalsOf;
      var _ :- journal.Finish(Intent(op), Complete, receipt);
      journal.Record(Return(op, answer));
      return Ok(());
    }

    /** The operation is complete in the journal and its answer is the last thing that happened. */
    ghost predicate Completed(op: Operation, answer: Answer)
      reads journal
    {
      && journal.Rows().Done(Intent(op))
      && journal.trace != [] && journal.trace[|journal.trace| - 1] == Return(op, answer)
    }

    /** One operation: its intent is reserved once and for all, and an uncertain outcome is settled as
        unknown, never retried. */
    method Call(op: Operation, target: Target) returns (r: Flow<Answer>)
      requires Valid() && (stopping ==> op.Disable? || op.ReadDisabled?)
      requires InvokeAllowed(plan, journal.trace, journal.Rows(), op, target)
      modifies this`totals, this`activeRequest, this`requestCase, journal, fence
      ensures Bound() && old(journal.trace) <= journal.trace && SameExcept(old(journal.events), journal.events, op)
      ensures !r.Crashed? ==> Valid() && requestCase == old(requestCase)
      ensures r.Ok? ==> Completed(op, r.value) && |journal.trace| > |old(journal.trace)|
      ensures r.Ok? ==> Acknowledges(journal.events[Intent(op)].receipt, op, r.value)
      ensures r.Raised? && Intent(op) in journal.events && Intent(op) !in old(journal.events) ==> SettledUnknown(op)
    {
      hide Lawful, Replay, Sum, TotalsOf;
      ghost var before := journal.trace;
      var reserved :- journal.Reserve(Intent(op), Plain);
      if !reserved { return Raised; }
      InvokeAllowedNow(before, op, target);
      var previous := requestCase;
      requestCase := RequestCase(op);
      r := Perform(op, target);
      if r.Raised? {
        r := SettleUnknown(op);
      }
      requestCase := previous;
    }

    lemma InvokeAllowedNow(before: Trace, op: Operation, target: Target)
      requires Bound() && before <= journal.trace && InvokeAllowed(plan, before, Replay(before), op, target)
      ensures InvokeAllowed(plan, journal.trace, journal.Rows(), op, target)
    {
      InvokeAllowedLater(plan, before, journal.trace, op, target);
    }

    /** The exception handler of an operation.  The open request becomes unknown, and so does the operation;
        only a creation or deployment that retains a diagnostic may fail to record it and stay pending. */
    method SettleUnknown(op: Operation) returns (r: Flow<Answer>)
      requires Valid() && Intent(op) in journal.events && journal.events[Intent(op)].state == Pending
      modifies this`activeRequest, journal
      ensures Bound() && old(journal.trace) <= journal.trace && SameExcept(old(journal.events), journal.events, op)
      ensures !r.Ok?
      ensures r.Raised? ==> Valid() && activeRequest == None && SettledUnknown(op)
      ensures r.Raised? && old(activeRequest).Some? ==>
                old(activeRequest.value) in journal.events && journal.events[old(activeRequest.value)].state == State.Unknown
    {
      hide Lawful, Replay, Sum, TotalsOf;
      if activeRequest.Some? {
        RequestRowsNow();
        var _ :- journal.Finish(activeRequest.value, State.Unknown, Reason);
        activeRequest := None;
      }
      var diagnosed: bool := *;
      var retained := diagnosed && (op.CreateDatabase? || op.DeployVersion?);
      var _ :- journal.Finish(Intent(op), State.Unknown, if retained then Diagnostic else Reason);
      return Raised;
    }

    /** The operation's row says unknown, or, where a diagnostic may be retained, possibly still pending. */
    ghost predicate SettledUnknown(op: Operation)
      reads journal
    {
      && Intent(op) in journal.events
      && (journal.events[Intent(op)].state == State.Unknown
          || ((op.CreateDatabase? || op.DeployVersion?) && journal.events[Intent(op)].state == Pending))
    }

    // ---------- The run ----------

    /** The barrier row is where it was; nothing in a run ever enters a cleanup. */
    twostate predicate SameBarrier()
      reads journal
    {
      CleanupEntered in journal.events <==> old(CleanupEntered in journal.events)
    }

    /** An operation other than a disposal, as the run and the cleanup use it. */
    method Ask(op: Operation, target: Target) returns (r: Flow<Answer>)
      requires Valid() && (stopping ==> op.Disable? || op.ReadDisabled?)
      requires Unconditional(op) || InvokeAllowed(plan, journal.trace, journal.Rows(), op, target)
      modifies this`totals, this`activeRequest, this`requestCase, journal, fence
      ensures Bound() && old(journal.trace) <= journal.trace && SameBarrier()
      ensures !r.Crashed? ==> Valid() && requestCase == old(requestCase)
      ensures r.Ok? ==> journal.Rows().Done(Intent(op)) && Acknowledges(journal.events[Intent(op)].receipt, op, r.value)
      ensures r.Ok? ==> |journal.trace| > |old(journal.trace)| && journal.trace[|journal.trace| - 1] == Return(op, r.value)
      ensures r.Ok? && op.CreateDatabase? ==> r.value.DatabaseAnswer?
      ensures r.Ok? && op.CreateWorker? ==> r.value.WorkerAnswer?
      ensures r.Ok? && op.CreateVersion? ==> r.value.VersionAnswer?
      ensures r.Ok? && op.DeployVersion? ==> r.value.DeploymentAnswer?
    {
      hide Lawful, Replay, TotalsOf;
      r := Call(op, target);
    }

    method CheckDeployment(at: CheckPoint, worker: Worker, version: Version, deployment: Deployment) returns (r: Flow<()>)
      requires Valid() && !stopping
      modifies this`totals, this`activeRequest, this`requestCase, journal, fence
      ensures Bound() && old(journal.trace) <= journal.trace && SameBarrier()
      ensures !r.Crashed? ==> Valid() && requestCase == old(requestCase)
      ensures r.Ok? ==> && Return(InspectVersion(at), VersionAnswer(version)) in journal.trace
                        && Return(InspectDeployment(at), DeploymentAnswer(deployment)) in journal.trace
                        && Return(AssertOrigin(at), Truth(true)) in journal.trace
    {
      hide Lawful, Replay, TotalsOf, SameExcept, Acknowledges;
      var seen :- Ask(InspectVersion(at), VersionTarget(worker, version));
      if seen != VersionAnswer(version) { return Raised; }
      ghost var first := journal.trace;
      assert first[|first| - 1] == Return(InspectVersion(at), VersionAnswer(version));
      seen :- Ask(InspectDeployment(at), VersionTarget(worker, version));
      if seen != DeploymentAnswer(deployment) { return Raised; }
      ghost var second := journal.trace;
      assert second[|second| - 1] == Return(InspectDeployment(at), DeploymentAnswer(deployment));
      seen :- Ask(AssertOrigin(at), WorkerTarget(worker));
      if seen != Truth(true) { return Raised; }
      assert journal.trace[|journal.trace| - 1] == Return(AssertOrigin(at), Truth(true));
      StepPersists(first, journal.trace, Return(InspectVersion(at), VersionAnswer(version)));
      StepPersists(second, journal.trace, Return(InspectDeployment(at), DeploymentAnswer(deployment)));
      return Ok(());
    }

    /** Charge a submission before it is made; the charge is never taken back. */
    method ChargeSql(batch: SqlBatch, calls: nat, statements: nat) returns (r: Flow<()>)
      requires Valid()
      modifies this`totals, journal
      ensures Bound() && old(journal.trace) <= journal.trace && SameBarrier()
      ensures !r.Crashed? ==> Valid()
      ensures r.Ok? ==> totals == old(totals).(sqlCalls := old(totals.sqlCalls) + calls,
                                               sqlStatements := old(totals.sqlStatements) + statements)
      ensures r.Ok? ==> journal.Rows().Done(Sql(batch))
    {
      hide Lawful, Replay, Sum;
      if totals.sqlCalls + calls > plan.budgets.sqlCalls
         || totals.sqlStatements + statements > plan.budgets.sqlStatements { return Raised; }
      TotalsNow();
      var reserved :- journal.Reserve(Sql(batch), SqlPayload(calls, statements));
      if !reserved { return Raised; }
      totals := totals.(sqlCalls := totals.sqlCalls + calls, sqlStatements := totals.sqlStatements + statements);
      var _ :- journal.Finish(Sql(batch), Complete, Verified);
      return Ok(());
    }

    /** Disable a case's endpoint and read it back. */
    method StopCase(s: Scenario) returns (r: Flow<()>)
      requires Valid() && !stopping && s in entries && entries[s].worker.Some?
      modifies this, journal, fence
      ensures Bound() && old(journal.trace) <= journal.trace && SameBarrier()
      ensures !r.Crashed? ==> Valid() && !stopping && cleanupMode == old(cleanupMode) && requestCase == old(requestCase)
      ensures entries.Keys == old(entries.Keys)
      ensures forall e :: e in entries ==> entries[e].worker == old(entries)[e].worker && entries[e].database == old(entries)[e].database
      ensures r.Ok? ==> SawDisabled(journal.trace, ReadDisabled(s))
      ensures forall e :: e in entries && e != s ==> entries[e] == old(entries)[e]
      ensures !r.Crashed? && entries[s].accessDisabled ==> old(entries)[s].accessDisabled || SawDisabled(journal.trace, ReadDisabled(s))
    {
      hide Lawful, Replay, TotalsOf, SameExcept, InvokeAllowed, Acknowledges;
      var _ :- fence.Window(false);
      var worker := entries[s].worker.value;
      stopping := true;
      var observed := Ask(Disable(s), WorkerTarget(worker));
      if observed.Ok? {
        observed := Ask(ReadDisabled(s), WorkerTarget(worker));
      }
      stopping := false;
      var answer :- observed;
      entries := entries[s := entries[s].(accessDisabled := answer == Endpoint(false, false))];
      if answer != Endpoint(false, false) { return Raised; }
      return Ok(());
    }

    /** A fresh database, read back unchanged and empty. */
    method CreateEmptyDatabase(s: Scenario) returns (r: Flow<Database>)
      requires Valid() && !stopping
      modifies this, journal, fence
      ensures Bound() && old(journal.trace) <= journal.trace && SameBarrier()
      ensures !r.Crashed? ==> Valid() && !stopping && cleanupMode == old(cleanupMode)
      ensures forall e :: e in old(entries) && e != s ==> e in entries && entries[e] == old(entries)[e]
      ensures r.Ok? ==> s in entries && entries[s] == Entry(r.value, None, false)
      ensures r.Ok? ==> OwnsDatabase(journal.Rows(), s, r.value) && ReadEmpty(journal.trace, s, r.value)
    {
      hide Lawful, Replay, TotalsOf, SameExcept, InvokeAllowed;
      var created :- Ask(CreateDatabase(s), NoTarget);
      var database := created.database;
      ghost var owned := journal.trace;
      entries := entries[s := Entry(database, None, false)];
      var seen :- Ask(InspectDatabase(s), DatabaseTarget(database));
      if seen != DatabaseAnswer(database) { return Raised; }
      ghost var inspected := journal.trace;
      assert inspected[|inspected| - 1] == Return(InspectDatabase(s), DatabaseAnswer(database));
      var _ :- ChargeSql(EmptyCheck(s), 1, 1);
      seen :- Ask(VerifyEmpty(s), DatabaseTarget(database));
      if seen != Truth(true) { return Raised; }
      assert journal.trace[|journal.trace| - 1] == Return(VerifyEmpty(s), Truth(true));
      StepPersists(inspected, journal.trace, Return(InspectDatabase(s), DatabaseAnswer(database)));
      DonePersists(plan, owned, journal.trace, Intent(CreateDatabase(s)));
      return Ok(database);
    }

    /** One fresh database and Worker. */
    method Provision(s: Scenario) returns (r: Flow<()>)
      requires Valid() && !stopping
      modifies this, journal, fence
      ensures Bound() && old(journal.trace) <= journal.trace && SameBarrier()
      ensures !r.Crashed? ==> Valid() && !stopping && cleanupMode == old(cleanupMode)
      ensures forall e :: e in old(entries) && e != s ==> e in entries && entries[e] == old(entries)[e]
      ensures r.Ok? ==> s in entries && entries[s].worker.Some?
                        && Provisioned(journal.trace, s, entries[s].database, entries[s].worker.value)
    {
      hide Lawful, Replay, TotalsOf, SameExcept;
      var _ :- fence.Fence();
      var database :- CreateEmptyDatabase(s);
      ghost var owned := journal.trace;
      var created :- Ask(CreateWorker(s), NoTarget);
      DonePersists(plan, owned, journal.trace, Intent(CreateDatabase(s)));
      entries := entries[s := entries[s].(worker := Some(created.worker))];
      return Ok(());
    }

    /** Every migration, each charged before it is submitted. */
    method Migrations(s: Scenario, database: Database) returns (r: Flow<()>)
      requires Valid() && !stopping && OwnsDatabase(journal.Rows(), s, database)
      modifies this`totals, this`activeRequest, this`requestCase, journal, fence
      ensures Bound() && old(journal.trace) <= journal.trace && SameBarrier()
      ensures !r.Crashed? ==> Valid() && requestCase == old(requestCase)
      ensures r.Ok? && |plan.migrations| > 0 ==> journal.Rows().Done(Intent(Migrate(s, |plan.migrations| - 1)))
    {
      hide Lawful, Replay, TotalsOf, SameExcept;
      var i := 0;
      while i < |plan.migrations|
        invariant i <= |plan.migrations| && Valid() && old(journal.trace) <= journal.trace && SameBarrier()
        invariant requestCase == old(requestCase) && OwnsDatabase(journal.Rows(), s, database)
        invariant i > 0 ==> journal.Rows().Done(Intent(Migrate(s, i - 1)))
      {
        var _ :- fence.Fence();
        var unchangedSource: bool := *;
        if !unchangedSource { return Raised; }
        var _ :- MigrateOne(s, database, i);
        i := i + 1;
      }
      return Ok(());
    }

    method MigrateOne(s: Scenario, database: Database, i: nat) returns (r: Flow<()>)
      requires Valid() && !stopping && OwnsDatabase(journal.Rows(), s, database) && i < |plan.migrations|
      requires i > 0 ==> journal.Rows().Done(Intent(Migrate(s, i - 1)))
      modifies this`totals, this`activeRequest, this`requestCase, journal, fence
      ensures Bound() && old(journal.trace) <= journal.trace && SameBarrier()
      ensures !r.Crashed? ==> Valid() && requestCase == old(requestCase)
      ensures r.Ok? ==> journal.Rows().Done(Intent(Migrate(s, i))) && OwnsDatabase(journal.Rows(), s, database)
    {
      hide Lawful, Replay, TotalsOf, SameExcept;
      ghost var before := journal.trace;
      var _ :- ChargeSql(MigrationBatch(s, i), 1, plan.migrations[i]);
      DonePersists(plan, before, journal.trace, Intent(CreateDatabase(s)));
      if i > 0 { DonePersists(plan, before, journal.trace, Intent(Migrate(s, i - 1))); }
      var receipt :- Ask(Migrate(s, i), DatabaseTarget(database));
      if !receipt.Statements? || !(0 < receipt.count <= plan.migrations[i]) { return Raised; }
      DonePersists(plan, before, journal.trace, Intent(CreateDatabase(s)));
      return Ok(());
    }

    /** Upload and deploy, then read the version, the deployment and the origin back. */
    method Upload(s: Scenario, worker: Worker) returns (r: Flow<(Version, Deployment)>)
      requires Valid() && !stopping && OwnsWorker(journal.Rows(), s, worker)
      requires |plan.migrations| > 0 ==> journal.Rows().Done(Intent(Migrate(s, |plan.migrations| - 1)))
      modifies this`totals, this`activeRequest, this`requestCase, journal, fence
      ensures Bound() && old(journal.trace) <= journal.trace && SameBarrier()
      ensures !r.Crashed? ==> Valid() && requestCase == old(requestCase)
      ensures r.Ok? ==> OwnsVersion(journal.Rows(), s, r.value.0) && OwnsDeployment(journal.Rows(), s, r.value.1)
                        && ReadDeployed(journal.trace, s, r.value.0, r.value.1)
    {
      hide Lawful, Replay, TotalsOf, SameExcept;
      ghost var before := journal.trace;
      var version :- Ask(CreateVersion(s), WorkerTarget(worker));
      ghost var uploaded := journal.trace;
      DonePersists(plan, before, uploaded, Intent(CreateWorker(s)));
      var deployment :- Ask(DeployVersion(s), VersionTarget(worker, version.version));
      ghost var deployed := journal.trace;
      var _ :- CheckDeployment(Deployed(s), worker, version.version, deployment.deployment);
      DonePersists(plan, uploaded, journal.trace, Intent(CreateVersion(s)));
      DonePersists(plan, deployed, journal.trace, Intent(DeployVersion(s)));
      return Ok((version.version, deployment.deployment));
    }

    /** Record the verified binding, enable the endpoint and read it back. */
    method BindAndEnable(s: Scenario, database: Database, worker: Worker, ghost version: Version, ghost deployment: Deployment)
      returns (r: Flow<()>)
      requires Valid() && !stopping && OwnsWorker(journal.Rows(), s, worker) && OwnsDatabase(journal.Rows(), s, database)
      requires OwnsVersion(journal.Rows(), s, version) && OwnsDeployment(journal.Rows(), s, deployment)
      requires ReadDeployed(journal.trace, s, version, deployment)
      modifies this`totals, this`activeRequest, this`requestCase, journal, fence
      ensures Bound() && old(journal.trace) <= journal.trace && SameBarrier()
      ensures !r.Crashed? ==> Valid() && requestCase == old(requestCase)
      ensures r.Ok? ==> Return(ReadEnabled(s), Endpoint(true, false)) in journal.trace
    {
      hide Lawful, Replay, TotalsOf, SameExcept, InvokeAllowed;
      ghost var before := journal.trace;
      var _ :- Bind(s, database);
      var _ :- fence.Fence();
      EnableAllowedNow(before, s, database, worker, version, deployment);
      var _ :- Ask(Enable(s), WorkerTarget(worker));
      ReadEnabledAllowed(s, worker);
      var seen :- Ask(ReadEnabled(s), WorkerTarget(worker));
      if seen != Endpoint(true, false) { return Raised; }
      assert journal.trace[|journal.trace| - 1] == Return(ReadEnabled(s), Endpoint(true, false));
      return Ok(());
    }

    lemma ReadEnabledAllowed(s: Scenario, worker: Worker)
      requires journal.Rows().Done(Intent(Enable(s)))
      ensures InvokeAllowed(plan, journal.trace, journal.Rows(), ReadEnabled(s), WorkerTarget(worker))
    {
    }

    lemma EnableAllowedNow(before: Trace, s: Scenario, database: Database, worker: Worker, version: Version, deployment: Deployment)
      requires Bound() && before <= journal.trace && Lawful(plan, before)
      requires OwnsWorker(Replay(before), s, worker) && OwnsDatabase(Replay(before), s, database)
      requires OwnsVersion(Replay(before), s, version) && OwnsDeployment(Replay(before), s, deployment)
      requires ReadDeployed(before, s, version, deployment)
      requires journal.Rows().Done(Binding(s)) && journal.events[Binding(s)].receipt == Verified
      requires journal.events[Binding(s)].payload == BindingPayload(database.uuid)
      ensures InvokeAllowed(plan, journal.trace, journal.Rows(), Enable(s), WorkerTarget(worker))
    {
      hide Lawful, Replay;
      DonePersists(plan, before, journal.trace, Intent(CreateWorker(s)));
      DonePersists(plan, before, journal.trace, Intent(CreateDatabase(s)));
      DonePersists(plan, before, journal.trace, Intent(CreateVersion(s)));
      DonePersists(plan, before, journal.trace, Intent(DeployVersion(s)));
      ReadDeployedPersists(before, journal.trace, s, version, deployment);
      assert OwnsDatabase(journal.Rows(), s, database) && BindingVerified(journal.Rows(), s, database.uuid);
      assert OwnsVersion(journal.Rows(), s, version) && OwnsDeployment(journal.Rows(), s, deployment);
    }

    /** Upload, deploy, verify, bind and enable one case. */
    method Deploy(s: Scenario, database: Database, worker: Worker) returns (r: Flow<()>)
      requires Valid() && !stopping && Provisioned(journal.trace, s, database, worker)
      requires |plan.migrations| > 0 ==> journal.Rows().Done(Intent(Migrate(s, |plan.migrations| - 1)))
      modifies this`totals, this`activeRequest, this`requestCase, journal, fence
      ensures Bound() && old(journal.trace) <= journal.trace && SameBarrier()
      ensures !r.Crashed? ==> Valid() && requestCase == old(requestCase)
      ensures r.Ok? ==> Return(ReadEnabled(s), Endpoint(true, false)) in journal.trace
    {
      hide Lawful, Replay, TotalsOf, SameExcept, InvokeAllowed, ReadDeployed;
      ghost var before := journal.trace;
      var uploaded :- Upload(s, worker);
      ProvisionedPersists(plan, before, journal.trace, s, database, worker);
      r := BindAndEnable(s, database, worker, uploaded.0, uploaded.1);
    }

    method Bind(s: Scenario, database: Database) returns (r: Flow<()>)
      requires Valid() && OwnsDatabase(journal.Rows(), s, database)
      modifies journal
      ensures Bound() && old(journal.trace) <= journal.trace && SameBarrier()
      ensures !r.Crashed? ==> Valid()
      ensures r.Ok? ==> journal.Rows().Done(Binding(s)) && journal.events[Binding(s)].receipt == Verified
                        && journal.events[Binding(s)].payload == BindingPayload(database.uuid)
    {
      hide Lawful, Replay, Sum;
      ghost var before := journal.trace;
      var _ :- journal.Reserve(Binding(s), BindingPayload(database.uuid));
      var _ :- journal.Finish(Binding(s), Complete, Verified);
      DonePersists(plan, before, journal.trace, Intent(CreateDatabase(s)));
      BindingNamesOwnedDatabase(plan, journal.trace, s, database);
      return Ok(());
    }

    /** Everything one scenario does: migrate, deploy, run its seven phases, stop its access. */
    method Exercise(s: Scenario, budget: SharedBudget) returns (r: Flow<()>, ending: Ending)
      requires Valid() && !stopping && CleanupEntered !in journal.events
      requires s in entries && entries[s].worker.Some?
      requires Provisioned(journal.trace, s, entries[s].database, entries[s].worker.value)
      requires s > 0 ==> Finished(journal.trace, s - 1)
      requires budget.Valid() && budget.ClosedRunCaps() && |budget.charges| <= 7 * s
      modifies this, journal, fence, budget
      ensures Bound() && old(journal.trace) <= journal.trace && SameBarrier()
      ensures !r.Crashed? ==> Valid() && !stopping && cleanupMode == old(cleanupMode)
      ensures entries.Keys == old(entries.Keys)
      ensures forall e :: e in entries ==> entries[e].worker == old(entries)[e].worker && entries[e].database == old(entries)[e].database
      ensures budget.Valid() && |budget.charges| <= 7 * (s + 1)
      ensures r.Ok? ==> Finished(journal.trace, s)
      ensures ending != ActivityRefused
    {
      hide Lawful, Replay, TotalsOf, SameExcept, Finished, Provisioned;
      ending := NotStarted;
      ghost var before := journal.trace;
      var entry := entries[s];
      var prepared := Prepare(s, entry.database, entry.worker.value);
      if !prepared.Ok? { return prepared, ending; }
      if s > 0 { FinishedPersists(plan, before, journal.trace, s - 1); }
      StartAllowed(s);
      var client := new FiniteClient(s, journal, fence, budget, plan.cases[s].expiresAt);
      var status := client.Run();
      ending := client.ending;
      if status.Crashed? { return Crashed, ending; }
      if status != Ok(StatusComplete) { return Raised, ending; }
      ghost var exercised := journal.trace;
      assert forall q: Phase :: Replay(exercised).Done(Client(s, q));
      r := StopCase(s);
      if r.Ok? { FinishedNow(exercised, s); }
    }

    /** What comes before the client: the windows, the migrations, the deployment, the phase charge. */
    method Prepare(s: Scenario, database: Database, worker: Worker) returns (r: Flow<()>)
      requires Valid() && !stopping && Provisioned(journal.trace, s, database, worker)
      modifies this`totals, this`activeRequest, this`requestCase, journal, fence
      ensures Bound() && old(journal.trace) <= journal.trace && SameBarrier()
      ensures !r.Crashed? ==> Valid() && requestCase == old(requestCase)
      ensures r.Ok? ==> Return(ReadEnabled(s), Endpoint(true, false)) in journal.trace
                        && journal.Rows().Done(Sql(PhaseBatch(s)))
    {
      hide Lawful, Replay, TotalsOf, SameExcept;
      var _ :- fence.Fence();
      var now: int := *;
      if !(plan.cases[s].startsAt <= now < plan.cases[s].expiresAt) { return Raised; }
      ghost var before := journal.trace;
      var _ :- Migrations(s, database);
      ProvisionedPersists(plan, before, journal.trace, s, database, worker);
      var _ :- Deploy(s, database, worker);
      ghost var enabled := journal.trace;
      var _ :- ChargeSql(PhaseBatch(s), 7 * 264, 7 * (256 * 128 + 8));
      StepPersists(enabled, journal.trace, Return(ReadEnabled(s), Endpoint(true, false)));
      return Ok(());
    }

    lemma StartAllowed(s: Scenario)
      requires Bound() && CleanupEntered !in journal.events
      requires s > 0 ==> Finished(journal.trace, s - 1)
      requires Return(ReadEnabled(s), Endpoint(true, false)) in journal.trace && journal.Rows().Done(Sql(PhaseBatch(s)))
      ensures PhaseReady(journal.trace, journal.Rows(), s, 0)
    {
    }

    lemma FinishedNow(exercised: Trace, s: Scenario)
      requires Bound() && exercised <= journal.trace && SawDisabled(journal.trace, ReadDisabled(s))
      requires forall q: Phase :: Replay(exercised).Done(Client(s, q))
      ensures Finished(journal.trace, s)
    {
      hide Lawful, Replay;
      forall q: Phase ensures Replay(journal.trace).Done(Client(s, q)) {
        DonePersists(plan, exercised, journal.trace, Client(s, q));
      }
    }

    ghost predicate EntryProvisioned(s: Scenario)
      reads this, journal
    {
      && s in entries && entries[s].worker.Some?
      && Provisioned(journal.trace, s, entries[s].database, entries[s].worker.value)
    }

    /** Provisioned pairs stay provisioned as the journal grows. */
    lemma EntriesPersist(before: Trace, had: map<Scenario, Entry>, s: Scenario)
      requires Bound() && before <= journal.trace
      requires s in had && had[s].worker.Some? && Provisioned(before, s, had[s].database, had[s].worker.value)
      requires s in entries && entries[s].worker == had[s].worker && entries[s].database == had[s].database
      ensures EntryProvisioned(s)
    {
      hide Lawful, Replay, Provisioned;
      ProvisionedPersists(plan, before, journal.trace, s, had[s].database, had[s].worker.value);
    }

    /** The first half of the run: every pair, before any scenario starts. */
    method ProvisionAll() returns (r: Flow<()>)
      requires Valid() && !stopping
      modifies this, journal, fence
      ensures Bound() && old(journal.trace) <= journal.trace && SameBarrier()
      ensures !r.Crashed? ==> Valid() && !stopping && cleanupMode == old(cleanupMode)
      ensures r.Ok? ==> forall e: Scenario :: EntryProvisioned(e)
    {
      hide Lawful, Replay, TotalsOf, SameExcept, Provisioned;
      var s: nat := 0;
      while s < 4
        invariant 0 <= s <= 4 && Valid() && !stopping && cleanupMode == old(cleanupMode)
        invariant old(journal.trace) <= journal.trace && SameBarrier()
        invariant forall e: Scenario :: e < s ==> EntryProvisioned(e)
      {
        ghost var before, had := journal.trace, entries;
        forall e: Scenario | e < s
          ensures e in had && had[e].worker.Some? && Provisioned(before, e, had[e].database, had[e].worker.value)
        {
          assert EntryProvisioned(e);
        }
        var _ :- Provision(s);
        forall e: Scenario | e < s ensures EntryProvisioned(e) { EntriesPersist(before, had, e); }
        s := s + 1;
      }
      return Ok(());
    }

    /** The second half: the scenarios in order, on one shared budget. */
    method ExerciseAll(budget: SharedBudget) returns (r: Flow<()>, ending: Ending)
      requires Valid() && !stopping && CleanupEntered !in journal.events
      requires forall e: Scenario :: EntryProvisioned(e)
      requires budget.Valid() && budget.ClosedRunCaps() && |budget.charges| == 0
      modifies this, journal, fence, budget
      ensures Bound() && old(journal.trace) <= journal.trace && SameBarrier()
      ensures !r.Crashed? ==> Valid() && !stopping && cleanupMode == old(cleanupMode)
      ensures r.Ok? ==> forall s: Scenario :: Finished(journal.trace, s)
      ensures ending != ActivityRefused
    {
      hide Lawful, Replay, TotalsOf, SameExcept, Finished, Provisioned;
      ending := NotStarted;
      var s: nat := 0;
      while s < 4
        invariant 0 <= s <= 4 && Valid() && !stopping && cleanupMode == old(cleanupMode)
        invariant old(journal.trace) <= journal.trace && SameBarrier()
        invariant forall e: Scenario :: EntryProvisioned(e)
        invariant budget.Valid() && budget.ClosedRunCaps() && |budget.charges| <= 7 * s
        invariant forall e: Scenario :: e < s ==> Finished(journal.trace, e)
        invariant ending != ActivityRefused
      {
        ghost var before, had := journal.trace, entries;
        forall e: Scenario
          ensures e in had && had[e].worker.Some? && Provisioned(before, e, had[e].database, had[e].worker.value)
        {
          assert EntryProvisioned(e);
        }
        r, ending := Exercise(s, budget);
        if !r.Ok? { return; }
        forall e: Scenario ensures EntryProvisioned(e) { EntriesPersist(before, had, e); }
        forall e: Scenario | e < s ensures Finished(journal.trace, e) {
          FinishedPersists(plan, before, journal.trace, e);
        }
        s := s + 1;
      }
      r := Ok(());
    }

    /** The guarded body of the run: provision every pair, then exercise the scenarios in order. */
    method RunBody() returns (r: Flow<()>, ending: Ending)
      requires Valid() && !stopping && CleanupEntered !in journal.events
      modifies this, journal, fence
      ensures Bound() && old(journal.trace) <= journal.trace && SameBarrier()
      ensures !r.Crashed? ==> Valid() && !stopping && cleanupMode == old(cleanupMode)
      ensures r.Ok? ==> forall s: Scenario :: Finished(journal.trace, s)
      ensures ending != ActivityRefused
    {
      hide Lawful, Replay, TotalsOf, SameExcept, Finished, Provisioned;
      ending := NotStarted;
      var sourcesMatch: bool := *;
      if !sourcesMatch || |plan.migrations| != 26 { return Raised, ending; }
      r := ProvisionAll();
      if !r.Ok? { return; }
      forall e: Scenario ensures e in entries { assert EntryProvisioned(e); }
      if !(forall i: Scenario, j: Scenario :: i < j ==> entries[i].database.uuid != entries[j].database.uuid) {
        return Raised, ending;
      }
      var deadline: int := *;
      var budget := new SharedBudget(plan.budgets.clientRequests, 262_144, 8_388_608, deadline);
      r, ending := ExerciseAll(budget);
    }

    /** A Worker's access counts as stopped only where it did before or its endpoint was read back disabled. */
    ghost predicate StopsAreSeen(before: map<Scenario, Entry>)
      reads this`entries, journal
    {
      forall e :: e in entries && entries[e].accessDisabled ==>
        (e in before && before[e].accessDisabled) || SawDisabled(journal.trace, ReadDisabled(e))
    }

    /** After the run, whatever its outcome: stop every identity definitely created and not yet stopped.  No
        failure escapes, and a Worker is marked stopped only when seen so. */
    method StopRemaining() returns (r: Flow<()>)
      requires Valid() && !stopping
      modifies this, journal, fence
      ensures Bound() && old(journal.trace) <= journal.trace && SameBarrier()
      ensures r.Ok? || r.Crashed?
      ensures !r.Crashed? ==> Valid() && !stopping && cleanupMode == old(cleanupMode)
      ensures r.Ok? ==> entries.Keys == old(entries.Keys) && StopsAreSeen(old(entries))
    {
      hide Lawful, Replay, TotalsOf, SameExcept, SawDisabled;
      ghost var had := entries;
      var s: nat := 0;
      while s < 4
        invariant 0 <= s <= 4 && Valid() && !stopping && cleanupMode == old(cleanupMode)
        invariant old(journal.trace) <= journal.trace && SameBarrier()
        invariant entries.Keys == had.Keys && StopsAreSeen(had)
      {
        if s in entries && entries[s].worker.Some? && !entries[s].accessDisabled {
          ghost var before := journal.trace;
          var stopped := StopCase(s);
          if stopped.Crashed? { return Crashed; }
          SightingsPersist(before, journal.trace);
          if stopped.Raised? { entries := entries[s := entries[s].(accessDisabled := false)]; }
        }
        s := s + 1;
      }
      return Ok(());
    }

    lemma SightingsPersist(before: Trace, after: Trace)
      requires before <= after
      ensures forall e: Scenario :: SawDisabled(before, ReadDisabled(e)) ==> SawDisabled(after, ReadDisabled(e))
    {
      forall e: Scenario | SawDisabled(before, ReadDisabled(e)) ensures SawDisabled(after, ReadDisabled(e)) {
        StepPersists(before, after, Return(ReadDisabled(e), Endpoint(false, false)));
      }
    }

    /** One invocation of the run.  `Ok(true)` reports that all four scenarios completed. */
    method Run() returns (r: Flow<bool>, ending: Ending)
      requires Valid() && !stopping && !cleanupMode
      modifies this, journal, fence
      ensures Bound() && old(journal.trace) <= journal.trace && SameBarrier()
      ensures !r.Crashed? ==> Valid() && !stopping && !cleanupMode
      ensures old(CleanupEntered in journal.events || Key.Run in journal.events) ==> !r.Ok? && journal.trace == old(journal.trace)
      ensures r == Ok(true) ==> forall s: Scenario :: Finished(journal.trace, s)
      ensures ending != ActivityRefused
    {
      hide Lawful, Replay, Sum, SameExcept, Finished;
      ending := NotStarted;
      if CleanupEntered in journal.events { return Raised, ending; }
      var validated: bool := *;
      if !validated { return Raised, ending; }
      var reserved := journal.Reserve(Key.Run, Plain);
      if !reserved.Ok? { return reserved, ending; }
      if !reserved.value { return Raised, ending; }
      r, ending := RunReserved();
    }

    method RunReserved() returns (r: Flow<bool>, ending: Ending)
      requires Valid() && !stopping && !cleanupMode && CleanupEntered !in journal.events
      modifies this, journal, fence
      ensures Bound() && old(journal.trace) <= journal.trace && SameBarrier()
      ensures !r.Crashed? ==> Valid() && !stopping && !cleanupMode
      ensures r == Ok(true) ==> forall s: Scenario :: Finished(journal.trace, s)
      ensures ending != ActivityRefused
    {
      hide Lawful, Replay, TotalsOf, SameExcept, Finished, Provisioned;
      var body: Flow<()>;
      body, ending := RunBody();
      if body.Crashed? { return Crashed, ending; }
      ghost var done := journal.trace;
      if body.Ok? {
        body := Settle(Key.Run, Complete);
        if body.Crashed? { return Crashed, ending; }
      }
      var completed := body.Ok?;
      var settled: Flow<()> := Ok(());
      if !completed {
        fence.stopped := true;
        settled := Settle(Key.Run, State.Unknown);
        if settled.Crashed? { return Crashed, ending; }
      }
      var stopped := StopRemaining();
      if stopped.Crashed? { return Crashed, ending; }
      if settled.Raised? { return Raised, ending; }
      if completed {
        forall s: Scenario ensures Finished(journal.trace, s) { FinishedPersists(plan, done, journal.trace, s); }
      }
      return Ok(completed), ending;
    }

    /** Settle a row that counts for nothing in the totals. */
    method Settle(key: Key, state: State) returns (r: Flow<()>)
      requires Valid() && !key.Request? && !key.Sql? && !key.Intent? && state != Pending
      modifies journal
      ensures Bound() && old(journal.trace) <= journal.trace
      ensures forall k :: k in journal.events <==> k in old(journal.events)
      ensures r.Ok? ==> key in journal.events && journal.events[key].state == state
      ensures r.Ok? ==> forall k :: k in journal.events && k != key ==> journal.events[k] == old(journal.events)[k]
      ensures !r.Crashed? ==> Valid()
    {
      hide Lawful, Replay, Sum;
      r := journal.Finish(key, state, Reason);
    }

    // ---------- The cleanup ----------

    /** What one cleanup attempt works from: the rows found when it began. */
    ghost predicate Since(start: Trace, snapshot: Ledger)
      reads this, journal
    {
      && Valid() && !stopping && cleanupMode
      && start <= journal.trace && Replay(start) == snapshot && Lawful(plan, start)
    }

    lemma WorkerDeletionAllowed(start: Trace, snapshot: Ledger, attempt: string, s: Scenario, worker: Worker)
      requires Since(start, snapshot) && OwnsWorker(snapshot, s, worker)
      requires journal.trace != [] && journal.trace[|journal.trace| - 1] == Return(CleanupReadDisabled(attempt, s), Endpoint(false, false))
      ensures InvokeAllowed(plan, journal.trace, journal.Rows(), DisposeWorker(s), WorkerTarget(worker))
    {
      hide Lawful, Replay;
      DonePersists(plan, start, journal.trace, Intent(CreateWorker(s)));
      assert SawDisabled(journal.trace, CleanupReadDisabled(attempt, s));
    }

    lemma WorkerGoneNow(before: Trace, attempt: string, s: Scenario)
      requires Bound() && before <= journal.trace && |before| < |journal.trace| && Replay(before).Done(Intent(DisposeWorker(s)))
      requires journal.trace[|journal.trace| - 1] == Return(ReadWorkerAbsence(attempt, s), Absent)
      ensures WorkerGone(journal.trace, s) && journal.Rows().Done(Intent(DisposeWorker(s)))
    {
      hide Lawful, Replay;
      var t, n := journal.trace, |journal.trace| - 1;
      assert before == t[..|before|] == t[..n][..|before|];
      LawfulPrefix(plan, t, n);
      DonePersists(plan, before, t[..n], Intent(DisposeWorker(s)));
      DonePersists(plan, before, t, Intent(DisposeWorker(s)));
      assert t[n] == Return(ReadWorkerAbsence(attempt, s), Absent);
    }

    lemma DatabaseDeletionAllowed(start: Trace, snapshot: Ledger, s: Scenario, database: Database)
      requires Since(start, snapshot) && OwnsDatabase(snapshot, s, database)
      requires BindingVerified(snapshot, s, database.uuid) && WorkerGone(journal.trace, s)
      ensures InvokeAllowed(plan, journal.trace, journal.Rows(), DisposeDatabase(s), DatabaseTarget(database))
    {
      hide Lawful, Replay;
      DonePersists(plan, start, journal.trace, Intent(CreateDatabase(s)));
      BindingPersists(plan, start, journal.trace, s, database.uuid);
    }

    /** A first deletion: check the deployment where there is one, disable, read back, delete. */
    method DisableAndDelete(ghost start: Trace, snapshot: Ledger, attempt: string, s: Scenario, worker: Worker, verified: bool)
      returns (r: Flow<()>)
      requires Since(start, snapshot) && OwnsWorker(snapshot, s, worker)
      requires verified ==> snapshot.Done(Intent(CreateVersion(s))) && snapshot.Done(Intent(DeployVersion(s)))
      modifies this`totals, this`activeRequest, this`requestCase, journal, fence
      ensures Bound() && old(journal.trace) <= journal.trace
      ensures !r.Crashed? ==> Valid()
      ensures r.Ok? ==> journal.Rows().Done(Intent(DisposeWorker(s)))
    {
      hide Lawful, Replay, TotalsOf, SameExcept, InvokeAllowed, Acknowledges;
      if verified {
        CreationReceipts(plan, start, CreateVersion(s));
        CreationReceipts(plan, start, DeployVersion(s));
        var _ :- CheckDeployment(CleanupCheck(attempt, s), worker,
                                 snapshot.events[Intent(CreateVersion(s))].receipt.version,
                                 snapshot.events[Intent(DeployVersion(s))].receipt.deployment);
      }
      var _ :- Ask(CleanupDisable(attempt, s), WorkerTarget(worker));
      var disabled :- Ask(CleanupReadDisabled(attempt, s), WorkerTarget(worker));
      if disabled != Endpoint(false, false) { return Raised; }
      WorkerDeletionAllowed(start, snapshot, attempt, s, worker);
      var _ :- Call(DisposeWorker(s), WorkerTarget(worker));
      return Ok(());
    }

    /** Delete a case's Worker unless an earlier attempt did, then require it to be absent.  An earlier
        deletion without an acknowledgement is reported as `Ok(false)`, never repeated. */
    method DisposeOfWorker(ghost start: Trace, snapshot: Ledger, attempt: string, s: Scenario, worker: Worker, verified: bool)
      returns (r: Flow<bool>)
      requires Since(start, snapshot) && OwnsWorker(snapshot, s, worker)
      requires verified ==> snapshot.Done(Intent(CreateVersion(s))) && snapshot.Done(Intent(DeployVersion(s)))
      modifies this`totals, this`activeRequest, this`requestCase, journal, fence
      ensures Bound() && old(journal.trace) <= journal.trace
      ensures !r.Crashed? ==> Since(start, snapshot)
      ensures r == Ok(true) ==> WorkerGone(journal.trace, s) && journal.Rows().Done(Intent(DisposeWorker(s)))
    {
      hide Lawful, Replay, TotalsOf, SameExcept, InvokeAllowed, WorkerGone, Acknowledges;
      var key := Intent(DisposeWorker(s));
      if key in snapshot.events && snapshot.events[key].state != Complete { return Ok(false); }
      if key !in snapshot.events {
        var _ :- DisableAndDelete(start, snapshot, attempt, s, worker, verified);
      } else {
        DonePersists(plan, start, journal.trace, key);
      }
      ghost var deleted := journal.trace;
      assert Replay(deleted).Done(key);
      var absence :- Ask(ReadWorkerAbsence(attempt, s), WorkerTarget(worker));
      if absence != Absent { return Raised; }
      WorkerGoneNow(deleted, attempt, s);
      return Ok(true);
    }

    /** Delete a case's database unless an earlier attempt did, then require it to be absent. */
    method DisposeOfDatabase(ghost start: Trace, snapshot: Ledger, attempt: string, s: Scenario, database: Database)
      returns (r: Flow<bool>)
      requires Since(start, snapshot) && OwnsDatabase(snapshot, s, database)
      requires BindingVerified(snapshot, s, database.uuid)
      requires WorkerGone(journal.trace, s) && journal.Rows().Done(Intent(DisposeWorker(s)))
      modifies this`totals, this`activeRequest, this`requestCase, journal, fence
      ensures Bound() && old(journal.trace) <= journal.trace
      ensures !r.Crashed? ==> Since(start, snapshot)
      ensures r == Ok(true) ==> PairDisposed(journal.trace, attempt, s)
    {
      hide Lawful, Replay, TotalsOf, SameExcept, InvokeAllowed, WorkerGone, Acknowledges;
      ghost var gone := journal.trace;
      var key := Intent(DisposeDatabase(s));
      if key in snapshot.events && snapshot.events[key].state != Complete { return Ok(false); }
      if key !in snapshot.events {
        DatabaseDeletionAllowed(start, snapshot, s, database);
        var _ :- Call(DisposeDatabase(s), DatabaseTarget(database));
      } else {
        DonePersists(plan, start, journal.trace, key);
      }
      ghost var deleted := journal.trace;
      assert Replay(deleted).Done(key);
      var absence :- Ask(ReadDatabaseAbsence(attempt, s), DatabaseTarget(database));
      if absence != Absent { return Raised; }
      DonePersists(plan, gone, journal.trace, Intent(DisposeWorker(s)));
      DonePersists(plan, deleted, journal.trace, key);
      WorkerGonePersists(gone, journal.trace, s);
      return Ok(true);
    }

    /** The guarded part of one case's cleanup. */
    method DisposePair(ghost start: Trace, snapshot: Ledger, attempt: string, s: Scenario, database: Database, worker: Worker)
      returns (r: Flow<CaseStatus>)
      requires Since(start, snapshot) && OwnsDatabase(snapshot, s, database) && OwnsWorker(snapshot, s, worker)
      modifies this`totals, this`activeRequest, this`requestCase, journal, fence
      ensures Bound() && old(journal.trace) <= journal.trace
      ensures !r.Crashed? ==> Since(start, snapshot)
      ensures r == Ok(PairAbsent) ==> PairDisposed(journal.trace, attempt, s)
    {
      hide Lawful, Replay, TotalsOf, SameExcept, WorkerGone;
      var verified := BindingVerified(snapshot, s, database.uuid);
      var restored: bool := *;
      if !restored { return Raised; }
      var removed :- DisposeOfWorker(start, snapshot, attempt, s, worker, verified);
      if !removed { return Ok(WorkerDeletionUnknown); }
      if !verified { return Ok(WorkerRemovedBindingUnverified); }
      removed :- DisposeOfDatabase(start, snapshot, attempt, s, database);
      return Ok(if removed then PairAbsent else DatabaseDeletionUnknown);
    }

    /** One case of a cleanup attempt: ownership comes only from acknowledged creation rows. */
    method CleanupCase(ghost start: Trace, snapshot: Ledger, attempt: string, s: Scenario) returns (r: Flow<CaseStatus>)
      requires Since(start, snapshot)
      modifies this`totals, this`activeRequest, this`requestCase, journal, fence
      ensures Bound() && old(journal.trace) <= journal.trace
      ensures !r.Crashed? ==> Since(start, snapshot)
      ensures r == Ok(PairAbsent) ==> PairDisposed(journal.trace, attempt, s)
    {
      hide Lawful, Replay, TotalsOf, SameExcept, PairDisposed;
      if !snapshot.Done(Intent(CreateDatabase(s))) { return Ok(IdentityUnknown); }
      if !snapshot.Done(Intent(CreateWorker(s))) { return Ok(WorkerIdentityUnknown); }
      CreationReceipts(plan, start, CreateDatabase(s));
      CreationReceipts(plan, start, CreateWorker(s));
      r := DisposePair(start, snapshot, attempt, s, snapshot.events[Intent(CreateDatabase(s))].receipt.database,
                       snapshot.events[Intent(CreateWorker(s))].receipt.worker);
    }

    /** The four cases of one attempt, stopping at the first that raises. */
    method CleanupCases(snapshot: Ledger, attempt: string) returns (r: Flow<seq<CaseStatus>>)
      requires Valid() && !stopping && cleanupMode && snapshot == journal.Rows()
      modifies this`totals, this`activeRequest, this`requestCase, journal, fence
      ensures Bound() && old(journal.trace) <= journal.trace
      ensures r.Ok? || r.Crashed?
      ensures !r.Crashed? ==> Valid()
      ensures r.Ok? && |r.value| == 4 && (forall i :: 0 <= i < 4 ==> r.value[i] == PairAbsent)
              ==> forall s: Scenario :: PairDisposed(journal.trace, attempt, s)
    {
      hide Lawful, Replay, TotalsOf, SameExcept, PairDisposed;
      ghost var start := journal.trace;
      var results: seq<CaseStatus> := [];
      var s: nat := 0;
      var going := true;
      while s < 4 && going
        invariant s <= 4 && |results| == s && Since(start, snapshot) && old(journal.trace) <= journal.trace
        invariant forall e: Scenario :: e < s && results[e] == PairAbsent ==> PairDisposed(journal.trace, attempt, e)
      {
        ghost var before := journal.trace;
        var status := CleanupCase(start, snapshot, attempt, s);
        if status.Crashed? { return Crashed; }
        forall e: Scenario | e < s && results[e] == PairAbsent ensures PairDisposed(journal.trace, attempt, e) {
          PairDisposedPersists(plan, before, journal.trace, attempt, e);
        }
        results := results + [if status.Ok? then status.value else CleanupUnknown];
        s := s + 1;
        going := status.Ok?;
      }
      if |results| == 4 && forall i :: 0 <= i < 4 ==> results[i] == PairAbsent {
        forall e: Scenario ensures PairDisposed(journal.trace, attempt, e) { assert results[e] == PairAbsent; }
      }
      return Ok(results);
    }

    /** One cleanup attempt.  Resources are reported disposed only when all four pairs are, and without
        qualification only when no journal row is left pending or unknown. */
    method Cleanup(attempt: string, authorityExpiresAt: int) returns (r: Flow<Verdict>)
      requires Valid() && !stopping && !cleanupMode
      modifies this, journal, fence
      ensures Bound() && old(journal.trace) <= journal.trace
      ensures !r.Crashed? ==> Valid() && !stopping && !cleanupMode
      ensures old(Attempt(attempt) in journal.events) ==> !r.Ok?
      ensures r.Ok? ==> CleanupEntered in journal.events
      ensures r.Ok? && !r.value.DisposalPending? ==> forall s: Scenario :: PairDisposed(journal.trace, attempt, s)
      ensures r == Ok(ResourcesDisposed) ==> forall k :: k in journal.events ==> journal.events[k].state == Complete
    {
      hide Lawful, Replay, TotalsOf, SameExcept, PairDisposed;
      var now: int, authorised: bool := *, *;
      if !authorised || !(now < authorityExpiresAt <= plan.cleanupDeadline) { return Raised; }
      var _ :- fence.Window(true);
      authorised := *;
      if !authorised { return Raised; }
      fence.stopped := true;
      var _ :- Enter(attempt);
      cleanupMode := true;
      cleanupExpiresAt := authorityExpiresAt;
      r := CleanupEnteredCases(attempt);
      cleanupMode := false;
    }

    /** The dispatch barrier, then this attempt's own once-only row. */
    method Enter(attempt: string) returns (r: Flow<()>)
      requires Valid()
      modifies journal
      ensures Bound() && old(journal.trace) <= journal.trace
      ensures !r.Crashed? ==> Valid()
      ensures r.Ok? ==> CleanupEntered in journal.events && Attempt(attempt) in journal.events
                        && old(Attempt(attempt) !in journal.events)
    {
      hide Lawful, Replay, Sum;
      var entered :- journal.Reserve(CleanupEntered, Plain);
      if entered {
        var _ :- Settle(CleanupEntered, Complete);
      }
      var reserved :- journal.Reserve(Attempt(attempt), Plain);
      return if reserved then Ok(()) else Raised;
    }

    method CleanupEnteredCases(attempt: string) returns (r: Flow<Verdict>)
      requires Valid() && !stopping && cleanupMode && Attempt(attempt) in journal.events
      modifies this`totals, this`activeRequest, this`requestCase, journal, fence
      ensures Bound() && old(journal.trace) <= journal.trace
      ensures !r.Crashed? ==> Valid()
      ensures r.Ok? ==> CleanupEntered in journal.events
      ensures r.Ok? && !r.value.DisposalPending? ==> forall s: Scenario :: PairDisposed(journal.trace, attempt, s)
      ensures r == Ok(ResourcesDisposed) ==> forall k :: k in journal.events ==> journal.events[k].state == Complete
    {
      hide Lawful, Replay, TotalsOf, SameExcept, PairDisposed;
      var results :- CleanupCases(Ledger(journal.keys, journal.events), attempt);
      ghost var before := journal.trace;
      var _ :- Settle(Attempt(attempt), Complete);
      var disposed := |results| == 4 && forall i :: 0 <= i < 4 ==> results[i] == PairAbsent;
      if disposed {
        forall s: Scenario ensures PairDisposed(journal.trace, attempt, s) {
          PairDisposedPersists(plan, before, journal.trace, attempt, s);
        }
      }
      var unknown := exists k :: k in journal.events && k != Attempt(attempt) && journal.events[k].state != Complete;
      return Ok(if !disposed then DisposalPending else if unknown then DisposedWithUnknownOutcomes else ResourcesDisposed);
    }
  }

  // ---------- All executions ----------

  /** Any number of processes, one after another on one journal: each opens it, attempts a run or a
      cleanup (or several), and ends normally, by exception, or by dying.  The journal's owner latch
      admits one process at a time.  Whatever happens, the history stays lawful. */
  method Ceremony(plan: Plan, processes: nat) returns (journal: DurableJournal)
    requires plan.Valid()
    ensures journal.Valid() && journal.plan == plan
    ensures TotalsOf(journal.Rows()).Within(plan.budgets)
  {
    hide Lawful, Replay, Sum, Finished, PairDisposed;
    journal := new DurableJournal(plan);
    var n := processes;
    while n > 0
      invariant journal.Valid() && journal.plan == plan
      modifies journal
    {
      var fence := new DispatchFence(plan);
      var operator := new HostedPublisherOperator.Open(plan, journal, fence);
      Process(operator);
      n := n - 1;
    }
    TotalsBounded(journal);
  }

  lemma TotalsBounded(journal: DurableJournal)
    requires journal.Valid()
    ensures TotalsOf(journal.Rows()).Within(journal.plan.budgets)
  {
    assert journal.trace[..|journal.trace|] == journal.trace;
    TotalsWithinBudgets(journal.plan, journal.trace, |journal.trace|);
  }

  /** One process's life: any sequence of invocations until it ends. */
  method Process(operator: HostedPublisherOperator)
    requires operator.Valid() && !operator.stopping && !operator.cleanupMode
    modifies operator, operator.journal, operator.fence
    ensures operator.Bound() && old(operator.journal.trace) <= operator.journal.trace
  {
    hide Lawful, Replay, TotalsOf, Finished, PairDisposed;
    var invocations: nat := *;
    while invocations > 0
      invariant operator.Valid() && !operator.stopping && !operator.cleanupMode
      invariant old(operator.journal.trace) <= operator.journal.trace
    {
      var cleanup: bool := *;
      if cleanup {
        var attempt: string, expiry: int := *, *;
        var verdict := operator.Cleanup(attempt, expiry);
        if verdict.Crashed? { return; }
      } else {
        var completed, _ := operator.Run();
        if completed.Crashed? { return; }
      }
      invocations := invocations - 1;
    }
  }
}
