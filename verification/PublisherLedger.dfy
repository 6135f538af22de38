/** The durable intent ledger of the hosted publisher ceremony, as a value.

    A trace records, in order, every committed journal change together with every effect that
    leaves the process.  The journal contents are a function of the trace (`Replay`), and
    `Lawful` says which step may follow which history.  The classes in the other publisher
    modules only ever extend a lawful trace; the lemmas of PublisherSafety turn the local
    law into the ceremony's global promises. */
module PublisherLedger {
  import opened Options

  // ---------- Plan ----------

  /** Position in the closed scenario order: happy, create_lost, attachment_lost, title_lost. */
  type Scenario = s: nat | s < 4

  /** Position in the closed phase order: seed, http, materialize, attach, title, remove, finish. */
  type Phase = p: nat | p < 7

  const PROVIDER_REQUEST_BYTES: nat := 16_777_216
  const PROVIDER_RESPONSE_BYTES: nat := 33_554_432
  const PROVIDER_SINGLE_RESPONSE_BYTES: nat := 2_097_152
  const JOURNAL_INTENT_BOUND: nat := 2048

  datatype Budgets = Budgets(providerCalls: nat, providerMutations: nat, sqlCalls: nat, sqlStatements: nat,
                             clientRequests: nat, lifecycleSeconds: nat)

  datatype Case = Case(workerName: string, d1Name: string, startsAt: int, expiresAt: int)

  datatype Plan = Plan(cases: seq<Case>, budgets: Budgets, startsAt: int, expiresAt: int, cleanupDeadline: int,
                       migrations: seq<nat>)
  {
    /** What validate_plan establishes and the lifecycle relies on; `migrations` lists the statement
        bound of each migration file. */
    ghost predicate Valid() {
      && |cases| == 4
      && (forall i, j :: 0 <= i < j < 4 ==> cases[i].d1Name != cases[j].d1Name)
      && (forall i, j :: 0 <= i < j < 4 ==> cases[i].workerName != cases[j].workerName)
    }
  }

  // ---------- Journal rows ----------

  datatype Database = Database(uuid: string, name: string, createdAt: Option<int>)
  datatype Worker = Worker(id: string, name: string, createdOn: int)
  datatype Version = Version(id: string, workerId: string, moduleDigest: string)
  datatype Deployment = Deployment(id: string, workerId: string, versionId: string)

  /** Where a deployment check is made: after the upload, or under one cleanup attempt. */
  datatype CheckPoint = Deployed(s: Scenario) | CleanupCheck(attempt: string, s: Scenario)

  /** The operation keys of the lifecycle. */
  datatype Operation =
    | CreateDatabase(s: Scenario) | InspectDatabase(s: Scenario) | VerifyEmpty(s: Scenario)
    | CreateWorker(s: Scenario) | Migrate(s: Scenario, index: nat)
    | CreateVersion(s: Scenario) | DeployVersion(s: Scenario)
    | InspectVersion(at: CheckPoint) | InspectDeployment(at: CheckPoint) | AssertOrigin(at: CheckPoint)
    | Enable(s: Scenario) | ReadEnabled(s: Scenario)
    | Disable(s: Scenario) | ReadDisabled(s: Scenario)
    | CleanupDisable(attempt: string, s: Scenario) | CleanupReadDisabled(attempt: string, s: Scenario)
    | DisposeWorker(s: Scenario) | ReadWorkerAbsence(attempt: string, s: Scenario)
    | DisposeDatabase(s: Scenario) | ReadDatabaseAbsence(attempt: string, s: Scenario)

  datatype SqlBatch = EmptyCheck(s: Scenario) | MigrationBatch(s: Scenario, index: nat) | PhaseBatch(s: Scenario)

  datatype Key =
    | Request(op: Operation, suffix: string)      // provider:...
    | Sql(batch: SqlBatch)                        // sql:...
    | Intent(op: Operation)                       // operation:...
    | Client(s: Scenario, p: Phase)               // client:<scenario>:<phase>
    | Binding(s: Scenario)                        // binding:<scenario>
    | Run                                         // operator:run
    | CleanupEntered                              // operator:cleanup-entered
    | Attempt(id: string)                         // cleanup:<digest>

  datatype State = Pending | Complete | Unknown

  datatype Payload =
    | Plain
    | RequestPayload(requestBytes: nat, mutation: bool, reservedResponseBytes: nat)
    | SqlPayload(calls: nat, statements: nat)
    | BindingPayload(uuid: string)

  datatype Receipt =
    | NoReceipt
    | ResponseReceipt(status: int, responseBytes: int)
    | DatabaseReceipt(database: Database)
    | WorkerReceipt(worker: Worker)
    | VersionReceipt(version: Version)
    | DeploymentReceipt(deployment: Deployment)
    | DeletionAcknowledged
    | Presence(present: bool)
    | PhaseReceipt(calls: nat, posts: nat)
    | Verified
    | Reason
    | Diagnostic   // a reason with retained, unaccepted observations

  datatype Event = Event(state: State, payload: Payload, receipt: Receipt)

  /** Keys in row order, and the row of each. */
  datatype Ledger = Ledger(keys: seq<Key>, events: map<Key, Event>)
  {
    predicate Has(k: Key) { k in events }
    predicate Done(k: Key) { k in events && events[k].state == Complete }
  }

  // ---------- Traces ----------

  /** What a provider operation handed back to the operator. */
  datatype Answer =
    | Absent
    | DatabaseAnswer(database: Database)
    | WorkerAnswer(worker: Worker)
    | VersionAnswer(version: Version)
    | DeploymentAnswer(deployment: Deployment)
    | Endpoint(enabled: bool, previewsEnabled: bool)
    | Truth(value: bool)
    | Statements(count: int)
    | Deletion(acknowledged: bool)
    | Unreadable

  /** The resource an operation is addressed to. */
  datatype Target =
    | NoTarget | DatabaseTarget(database: Database) | WorkerTarget(worker: Worker)
    | VersionTarget(worker: Worker, version: Version)

  datatype Step =
    | Reserve(key: Key, payload: Payload)
    | Finish(key: Key, state: State, receipt: Receipt)
    | Invoke(op: Operation, target: Target)     // a provider operation starts
    | Send(key: Key, mutation: bool, at: int)   // a provider request is admitted, at this clock reading
    | Dispatch(s: Scenario, p: Phase, at: int)  // a client phase reaches the transport, at this reading
    | Return(op: Operation, answer: Answer)     // a completed operation hands back its answer

  type Trace = seq<Step>

  function Apply(l: Ledger, step: Step): Ledger {
    match step
    case Reserve(k, payload) => Ledger(l.keys + [k], l.events[k := Event(Pending, payload, NoReceipt)])
    case Finish(k, state, receipt) =>
      if k in l.events then Ledger(l.keys, l.events[k := Event(state, l.events[k].payload, receipt)]) else l
    case _ => l
  }

  function Replay(t: Trace): Ledger {
    if t == [] then Ledger([], map[]) else Apply(Replay(t[..|t| - 1]), t[|t| - 1])
  }

  // ---------- Totals ----------

  datatype Totals = Totals(calls: int, mutations: int, requestBytes: int, responseBytes: int,
                           sqlCalls: int, sqlStatements: int)
  {
    function Plus(o: Totals): Totals {
      Totals(calls + o.calls, mutations + o.mutations, requestBytes + o.requestBytes,
             responseBytes + o.responseBytes, sqlCalls + o.sqlCalls, sqlStatements + o.sqlStatements)
    }
    predicate Within(b: Budgets) {
      && calls <= b.providerCalls && mutations <= b.providerMutations
      && requestBytes <= PROVIDER_REQUEST_BYTES && responseBytes <= PROVIDER_RESPONSE_BYTES
      && sqlCalls <= b.sqlCalls && sqlStatements <= b.sqlStatements
    }
  }

  const ZERO: Totals := Totals(0, 0, 0, 0, 0, 0)

  /** What one row counts for: an unfinished request keeps its whole response reservation. */
  function Charge(k: Key, e: Event): Totals {
    if k.Request? && e.payload.RequestPayload? then
      Totals(1, if e.payload.mutation then 1 else 0, e.payload.requestBytes,
             if e.state == Complete && e.receipt.ResponseReceipt? then e.receipt.responseBytes
             else e.payload.reservedResponseBytes, 0, 0)
    else if k.Sql? && e.payload.SqlPayload? then
      Totals(0, 0, 0, 0, e.payload.calls, e.payload.statements)
    else ZERO
  }

  function Sum(keys: seq<Key>, events: map<Key, Event>): Totals {
    if keys == [] then ZERO
    else
      var last := keys[|keys| - 1];
      Sum(keys[..|keys| - 1], events).Plus(if last in events then Charge(last, events[last]) else ZERO)
  }

  function TotalsOf(l: Ledger): Totals { Sum(l.keys, l.events) }

  // ---------- The law ----------

  /** The last step reserved exactly this key: nothing happened in between. */
  predicate JustReserved(before: Trace, k: Key) {
    before != [] && before[|before| - 1].Reserve? && before[|before| - 1].key == k
  }

  predicate SawDisabled(before: Trace, op: Operation) {
    Return(op, Endpoint(false, false)) in before
  }

  /** The four facts that make a database's binding verified. */
  predicate BindingVerified(l: Ledger, s: Scenario, uuid: string) {
    && l.Done(Binding(s)) && l.events[Binding(s)].payload == BindingPayload(uuid)
    && l.events[Binding(s)].receipt == Verified
    && l.Done(Intent(CreateVersion(s))) && l.Done(Intent(DeployVersion(s)))
  }

  /** At some earlier moment, with the Worker's deletion already acknowledged, the Worker was read
      back absent. */
  ghost predicate WorkerGone(before: Trace, s: Scenario) {
    exists i, a :: 0 <= i < |before| && before[i] == Return(ReadWorkerAbsence(a, s), Absent)
                   && Replay(before[..i]).Done(Intent(DisposeWorker(s)))
  }

  predicate OwnsDatabase(l: Ledger, s: Scenario, d: Database) {
    l.Done(Intent(CreateDatabase(s))) && l.events[Intent(CreateDatabase(s))].receipt == DatabaseReceipt(d)
  }

  predicate OwnsWorker(l: Ledger, s: Scenario, w: Worker) {
    l.Done(Intent(CreateWorker(s))) && l.events[Intent(CreateWorker(s))].receipt == WorkerReceipt(w)
  }

  /** A client phase may be reserved only in order; a scenario only after its endpoint was read back
      enabled, its SQL capacity charged, and the previous scenario finished and read back disabled. */
  predicate PhaseReady(before: Trace, l: Ledger, s: Scenario, p: Phase) {
    && !l.Has(CleanupEntered)
    && (p > 0 ==> l.Done(Client(s, p - 1)))
    && (p == 0 ==> Return(ReadEnabled(s), Endpoint(true, false)) in before && l.Done(Sql(PhaseBatch(s))))
    && (p == 0 && s > 0 ==> l.Done(Client(s - 1, 6)) && SawDisabled(before, ReadDisabled(s - 1)))
  }

  /** The created database was read back unchanged and empty. */
  predicate ReadEmpty(before: Trace, s: Scenario, d: Database) {
    Return(InspectDatabase(s), DatabaseAnswer(d)) in before && Return(VerifyEmpty(s), Truth(true)) in before
  }

  predicate OwnsVersion(l: Ledger, s: Scenario, v: Version) {
    l.Done(Intent(CreateVersion(s))) && l.events[Intent(CreateVersion(s))].receipt == VersionReceipt(v)
  }

  predicate OwnsDeployment(l: Ledger, s: Scenario, d: Deployment) {
    l.Done(Intent(DeployVersion(s))) && l.events[Intent(DeployVersion(s))].receipt == DeploymentReceipt(d)
  }

  /** The acknowledged version and deployment were read back unchanged, at the planned origin. */
  predicate ReadDeployed(before: Trace, s: Scenario, v: Version, d: Deployment) {
    && Return(InspectVersion(Deployed(s)), VersionAnswer(v)) in before
    && Return(InspectDeployment(Deployed(s)), DeploymentAnswer(d)) in before
    && Return(AssertOrigin(Deployed(s)), Truth(true)) in before
  }

  ghost predicate ReserveAllowed(plan: Plan, before: Trace, l: Ledger, k: Key, payload: Payload)
  {
    match k
    case Request(_, _) =>
      && payload.RequestPayload? && payload.reservedResponseBytes == PROVIDER_SINGLE_RESPONSE_BYTES
      && TotalsOf(l).Plus(Charge(k, Event(Pending, payload, NoReceipt))).Within(plan.budgets)
    case Sql(_) =>
      && payload.SqlPayload?
      && TotalsOf(l).Plus(Charge(k, Event(Pending, payload, NoReceipt))).Within(plan.budgets)
    case Client(s, p) => PhaseReady(before, l, s, p)
    case Binding(s) => exists d :: OwnsDatabase(l, s, d) && payload == BindingPayload(d.uuid)
    case _ => true
  }

  ghost predicate FinishAllowed(before: Trace, k: Key, state: State, receipt: Receipt) {
    && state != Pending
    && (k.Intent? && state == Complete ==> exists target :: Invoke(k.op, target) in before)
    && (k.Request? && state == Complete ==>
          receipt.ResponseReceipt? && 0 <= receipt.responseBytes <= PROVIDER_SINGLE_RESPONSE_BYTES)
    && (k.Intent? && (k.op.DisposeWorker? || k.op.DisposeDatabase?) && state == Complete ==>
          receipt == DeletionAcknowledged)
    && (k.Intent? && k.op.CreateDatabase? && state == Complete ==> receipt.DatabaseReceipt?)
    && (k.Intent? && k.op.CreateWorker? && state == Complete ==> receipt.WorkerReceipt?)
    && (k.Intent? && k.op.CreateVersion? && state == Complete ==> receipt.VersionReceipt?)
    && (k.Intent? && k.op.DeployVersion? && state == Complete ==> receipt.DeploymentReceipt?)
  }

  /** What must have happened before an operation may start. */
  ghost predicate InvokeAllowed(plan: Plan, before: Trace, l: Ledger, op: Operation, target: Target) {
    match op
    case CreateWorker(s) => exists d :: OwnsDatabase(l, s, d) && ReadEmpty(before, s, d)
    case Migrate(s, i) =>
      && target.DatabaseTarget? && OwnsDatabase(l, s, target.database)
      && l.Done(Sql(MigrationBatch(s, i))) && (i > 0 ==> l.Done(Intent(Migrate(s, i - 1))))
    case CreateVersion(s) =>
      && target.WorkerTarget? && OwnsWorker(l, s, target.worker)
      && (|plan.migrations| > 0 ==> l.Done(Intent(Migrate(s, |plan.migrations| - 1))))
    case DeployVersion(s) =>
      target.VersionTarget? && OwnsWorker(l, s, target.worker) && OwnsVersion(l, s, target.version)
    case Enable(s) =>
      && target.WorkerTarget? && OwnsWorker(l, s, target.worker)
      && (exists d :: OwnsDatabase(l, s, d) && BindingVerified(l, s, d.uuid))
      && (exists v, d :: OwnsVersion(l, s, v) && OwnsDeployment(l, s, d) && ReadDeployed(before, s, v, d))
    case ReadEnabled(s) => l.Done(Intent(Enable(s)))
    case DisposeWorker(s) =>
      && l.Has(CleanupEntered) && target.WorkerTarget? && OwnsWorker(l, s, target.worker)
      && exists a :: SawDisabled(before, CleanupReadDisabled(a, s))
    case DisposeDatabase(s) =>
      && l.Has(CleanupEntered) && target.DatabaseTarget? && OwnsDatabase(l, s, target.database)
      && BindingVerified(l, s, target.database.uuid)
      && WorkerGone(before, s)
    case _ => true
  }

  /** The case whose window a provider mutation must fall in; cleanup operations have none. */
  function RequestCase(op: Operation): Option<Scenario> {
    match op
    case CreateDatabase(s) => Some(s) case InspectDatabase(s) => Some(s) case VerifyEmpty(s) => Some(s)
    case CreateWorker(s) => Some(s) case Migrate(s, _) => Some(s)
    case CreateVersion(s) => Some(s) case DeployVersion(s) => Some(s)
    case InspectVersion(at) => if at.Deployed? then Some(at.s) else None
    case InspectDeployment(at) => if at.Deployed? then Some(at.s) else None
    case AssertOrigin(at) => if at.Deployed? then Some(at.s) else None
    case Enable(s) => Some(s) case ReadEnabled(s) => Some(s)
    case Disable(s) => Some(s) case ReadDisabled(s) => Some(s)
    case _ => None
  }

  /** A mutating request is admitted inside its own case window, except while access is being
      stopped or a cleanup was entered; those keep only the wider authority window. */
  predicate SendAllowed(plan: Plan, l: Ledger, k: Key, mutation: bool, at: int)
    requires |plan.cases| == 4
  {
    && k.Request?
    && (mutation ==>
          || l.Has(CleanupEntered)
          || k.op.Disable? || k.op.ReadDisabled?
          || (RequestCase(k.op).Some?
              && var c := plan.cases[RequestCase(k.op).value]; c.startsAt <= at < c.expiresAt))
  }

  ghost predicate WellKeyed(l: Ledger) {
    && (forall k :: k in l.keys <==> k in l.events)
    && (forall i, j :: 0 <= i < j < |l.keys| ==> l.keys[i] != l.keys[j])
    && |l.keys| <= JOURNAL_INTENT_BOUND
  }

  ghost predicate Allowed(plan: Plan, before: Trace, step: Step)
    requires |plan.cases| == 4
  {
    var l := Replay(before);
    match step
    case Reserve(k, payload) =>
      k !in l.events && |l.keys| < JOURNAL_INTENT_BOUND && ReserveAllowed(plan, before, l, k, payload)
    case Finish(k, state, receipt) =>
      k in l.events && l.events[k].state == Pending && FinishAllowed(before, k, state, receipt)
    case Invoke(op, target) => JustReserved(before, Intent(op)) && InvokeAllowed(plan, before, l, op, target)
    case Send(k, mutation, at) => JustReserved(before, k) && SendAllowed(plan, l, k, mutation, at)
    case Dispatch(s, p, at) =>
      JustReserved(before, Client(s, p)) && !l.Has(CleanupEntered) && plan.startsAt <= at < plan.expiresAt
    case Return(op, _) => l.Done(Intent(op))
  }

  ghost predicate Lawful(plan: Plan, t: Trace)
    requires |plan.cases| == 4
  {
    t == [] || (Lawful(plan, t[..|t| - 1]) && Allowed(plan, t[..|t| - 1], t[|t| - 1]))
  }
}
