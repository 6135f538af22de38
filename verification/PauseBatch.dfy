/** The guarded, audited pause of two write gates: one atomic batch, and a receipt that confirms it from
    an inspection.  Other writers of the gates are arbitrary, except that each raises the revision. */
module PauseBatch {
  import opened Options

  datatype Gate = Deployment | User(id: string)

  datatype GateRow = GateRow(enabled: bool, revision: int)

  datatype Reason = GatePaused | OtherReason

  datatype GateEvent = GateEvent(gate: Gate, revision: int, reason: Reason)

  datatype Audit = PauseAudit(user: string) | OtherAudit

  /** The gates, the gate-event history and the audit rows by event identifier. */
  datatype Db = Db(gates: map<Gate, GateRow>, events: set<GateEvent>, audits: map<string, Audit>)

  /** An operator plan: what the two gates are expected to hold. */
  datatype Plan = Plan(operation: string, user: string, deploymentRevision: int, deploymentEnabled: bool,
                       userRevision: int, userEnabled: bool)
  {
    function Gates(): set<Gate> { {Deployment, User(user)} }
    predicate Changes(g: Gate) { (g == Deployment && deploymentEnabled) || (g == User(user) && userEnabled) }
    function Expected(g: Gate): GateRow
      requires g in Gates()
    {
      if g == Deployment then GateRow(deploymentEnabled, deploymentRevision) else GateRow(userEnabled, userRevision)
    }
    /** The revision the gate has once the batch committed. */
    function Result(g: Gate): int
      requires g in Gates()
    {
      Expected(g).revision + if Expected(g).enabled then 1 else 0
    }
  }

  // ---------- Committed changes ----------

  /** Everything that may commit: a plan's batch, another writer's update of a gate (with its own evidence
      or the schema's generic event), a new gate, and any other audit row. */
  datatype Change =
    | Apply(plan: Plan)
    | Write(gate: Gate, enabled: bool, revision: int, evidence: Option<Reason>)
    | CreateGate(gate: Gate, row: GateRow)
    | Record(event: string)

  /** The schema's transition trigger: a generic event, unless the revision already has one. */
  function Transition(events: set<GateEvent>, g: Gate, row: GateRow): set<GateEvent> {
    if exists e :: e in events && e.gate == g && e.revision == row.revision then events
    else events + {GateEvent(g, row.revision, if row.enabled then OtherReason else GatePaused)}
  }

  /** The batch's update of one gate: an enabled gate is paused at the next revision. */
  function Paused(db: Db, g: Gate): Db
    requires g in db.gates
  {
    var row := db.gates[g];
    if !row.enabled then db
    else
      var next := GateRow(false, row.revision + 1);
      db.(gates := db.gates[g := next], events := Transition(db.events, g, next))
  }

  /** The guard row is accepted only when both gates hold exactly what the plan expects. */
  predicate Guarded(db: Db, p: Plan) {
    forall g :: g in p.Gates() ==> g in db.gates && db.gates[g] == p.Expected(g)
  }

  /** One committed change, or nothing when the schema aborts it; an abort leaves the database as it was. */
  function Commit(db: Db, change: Change): Option<Db> {
    match change
    case Apply(p) =>
      if !Guarded(db, p) || p.operation in db.audits then None
      else
        var first := Paused(db, Deployment);
        var both := Paused(first, User(p.user));
        Some(both.(audits := both.audits[p.operation := PauseAudit(p.user)]))
    case Write(g, enabled, revision, evidence) =>
      if g !in db.gates || revision <= db.gates[g].revision then None
      else
        var before := if evidence.Some? then db.events + {GateEvent(g, revision, evidence.value)} else db.events;
        var row := GateRow(enabled, revision);
        Some(db.(gates := db.gates[g := row], events := Transition(before, g, row)))
    case CreateGate(g, row) =>
      if g in db.gates then None
      else Some(db.(gates := db.gates[g := row], events := db.events + {GateEvent(g, row.revision, OtherReason)}))
    case Record(event) =>
      if event in db.audits then None else Some(db.(audits := db.audits[event := OtherAudit]))
  }

  /** The database after a history of committed changes. */
  function Run(db: Db, history: seq<Change>): Option<Db> {
    if history == [] then Some(db)
    else
      match Run(db, history[..|history| - 1])
      case None => None
      case Some(mid) => Commit(mid, history[|history| - 1])
  }

  // ---------- Inspection and receipt ----------

  datatype Inspected = Inspected(gate: Gate, enabled: bool, revision: int, operationRecorded: bool, pauseRecorded: bool)

  function InspectGate(p: Plan, db: Db, g: Gate): seq<Inspected> {
    if g !in db.gates then []
    else
      [Inspected(g, db.gates[g].enabled, db.gates[g].revision,
                 p.operation in db.audits && db.audits[p.operation] == PauseAudit(p.user),
                 GateEvent(g, db.gates[g].revision, GatePaused) in db.events)]
  }

  /** The inspection statement: the two gates' rows, the deployment's first. */
  function Inspect(p: Plan, db: Db): seq<Inspected> {
    InspectGate(p, db, Deployment) + InspectGate(p, db, User(p.user))
  }

  predicate Confirms(p: Plan, row: Inspected) {
    && row.gate in p.Gates() && !row.enabled && row.revision == p.Result(row.gate) && row.operationRecorded
    && (p.Changes(row.gate) ==> row.pauseRecorded)
  }

  /** The receipt: confirmed exactly when both gates are there once each and each confirms. */
  method Receipt(p: Plan, rows: seq<Inspected>) returns (confirmed: bool)
    ensures confirmed <==> |rows| == 2 && rows[0].gate != rows[1].gate && Confirms(p, rows[0]) && Confirms(p, rows[1])
  {
    if |rows| != 2 { return false; }
    var seen: set<Gate> := {};
    var i := 0;
    while i < |rows|
      invariant 0 <= i <= 2 && seen == set k | 0 <= k < i :: rows[k].gate
      invariant forall k :: 0 <= k < i ==> Confirms(p, rows[k])
      invariant i == 2 ==> rows[0].gate != rows[1].gate
    {
      var row := rows[i];
      if row.gate !in p.Gates() { return false; }
      if row.gate in seen || row.enabled || row.revision != p.Result(row.gate) || !row.operationRecorded { return false; }
      if p.Changes(row.gate) && !row.pauseRecorded { return false; }
      seen := seen + {row.gate};
      i := i + 1;
    }
    return true;
  }

  // ---------- Histories ----------

  /** No gate event is ahead of its gate. */
  ghost predicate Consistent(db: Db) {
    forall e :: e in db.events ==> e.gate in db.gates && e.revision <= db.gates[e.gate].revision
  }

  ghost predicate Ran(db: Db, history: seq<Change>, n: nat) { n <= |history| && Run(db, history[..n]).Some? }

  lemma RunNext(db: Db, history: seq<Change>, n: nat)
    requires n < |history|
    ensures Run(db, history[..n + 1])
            == (match Run(db, history[..n]) case None => None case Some(mid) => Commit(mid, history[n]))
  {
    assert history[..n + 1][..n] == history[..n];
  }

  lemma {:induction false} RanEarlier(db: Db, history: seq<Change>, n: nat, m: nat)
    requires Ran(db, history, n) && m <= n
    ensures Ran(db, history, m)
    decreases n
  {
    if m < n {
      RunNext(db, history, n - 1);
      RanEarlier(db, history, n - 1, m);
    }
  }

  lemma {:induction false} StaysConsistent(db: Db, history: seq<Change>, n: nat)
    requires Consistent(db) && Ran(db, history, n)
    ensures Consistent(Run(db, history[..n]).value)
    decreases n
  {
    hide Commit, Consistent;
    if n > 0 {
      RunNext(db, history, n - 1);
      StaysConsistent(db, history, n - 1);
      CommitStaysConsistent(Run(db, history[..n - 1]).value, history[n - 1]);
    }
  }

  lemma CommitStaysConsistent(db: Db, change: Change)
    requires Consistent(db) && Commit(db, change).Some?
    ensures Consistent(Commit(db, change).value)
  {
  }

  /** Whether a committed change writes a gate. */
  predicate Touches(change: Change, g: Gate) {
    match change
    case Apply(p) => p.Changes(g)
    case Write(w, _, _, _) => w == g
    case _ => false
  }

  /** A gate never goes away; a change that touches it raises its revision, any other leaves it alone. */
  lemma CommitMovesGate(db: Db, change: Change, g: Gate)
    requires g in db.gates && Commit(db, change).Some?
    ensures var next := Commit(db, change).value;
            && g in next.gates
            && (if Touches(change, g) then next.gates[g].revision > db.gates[g].revision else next.gates[g] == db.gates[g])
  {
  }

  lemma {:induction false} RevisionNeverFalls(db: Db, history: seq<Change>, i: nat, n: nat, g: Gate)
    requires i <= n && Ran(db, history, n) && Ran(db, history, i) && g in Run(db, history[..i]).value.gates
    ensures var before, after := Run(db, history[..i]).value, Run(db, history[..n]).value;
            && g in after.gates && after.gates[g].revision >= before.gates[g].revision
            && ((exists j :: i <= j < n && Touches(history[j], g)) ==> after.gates[g].revision > before.gates[g].revision)
            && ((forall j :: i <= j < n ==> !Touches(history[j], g)) ==> after.gates[g] == before.gates[g])
    decreases n
  {
    hide Commit, Touches;
    if i < n {
      RunNext(db, history, n - 1);
      RanEarlier(db, history, n, n - 1);
      RevisionNeverFalls(db, history, i, n - 1, g);
      CommitMovesGate(Run(db, history[..n - 1]).value, history[n - 1], g);
    }
  }

  /** Audit rows and gate events are never lost. */
  lemma {:induction false} RecordsStay(db: Db, history: seq<Change>, i: nat, n: nat)
    requires i <= n && Ran(db, history, n) && Ran(db, history, i)
    ensures var before, after := Run(db, history[..i]).value, Run(db, history[..n]).value;
            && before.events <= after.events
            && (forall a :: a in before.audits ==> a in after.audits && after.audits[a] == before.audits[a])
    decreases n
  {
    if i < n {
      RunNext(db, history, n - 1);
      RanEarlier(db, history, n, n - 1);
      RecordsStay(db, history, i, n - 1);
    }
  }

  /** A plan's batch commits at most once. */
  lemma AppliedOnce(db: Db, history: seq<Change>, i: nat, j: nat, p: Plan)
    requires i < j < |history| && Ran(db, history, |history|) && history[i] == Apply(p)
    ensures !(history[j].Apply? && history[j].plan.operation == p.operation)
  {
    RanEarlier(db, history, |history|, i);
    RanEarlier(db, history, |history|, i + 1);
    RanEarlier(db, history, |history|, j);
    RanEarlier(db, history, |history|, j + 1);
    RunNext(db, history, i);
    RunNext(db, history, j);
    RecordsStay(db, history, i + 1, j);
  }

  /** A pause audit comes from a batch with that operation identifier. */
  lemma {:induction false} AuditComesFromBatch(db: Db, history: seq<Change>, n: nat, p: Plan) returns (i: nat)
    requires Ran(db, history, n) && p.operation !in db.audits
    requires p.operation in Run(db, history[..n]).value.audits
    requires Run(db, history[..n]).value.audits[p.operation] == PauseAudit(p.user)
    ensures i < n && history[i].Apply? && history[i].plan.operation == p.operation && history[i].plan.user == p.user
    decreases n
  {
    assert n > 0;
    RunNext(db, history, n - 1);
    RanEarlier(db, history, n, n - 1);
    var mid := Run(db, history[..n - 1]).value;
    if p.operation in mid.audits { i := AuditComesFromBatch(db, history, n - 1, p); } else { i := n - 1; }
  }

  /** Right after its batch, a gate is paused at the resulting revision, with a pause event if it changed. */
  lemma BatchPauses(db: Db, p: Plan, g: Gate)
    requires Consistent(db) && Commit(db, Apply(p)).Some? && g in p.Gates()
    ensures var next := Commit(db, Apply(p)).value;
            && g in next.gates && next.gates[g] == GateRow(false, p.Result(g))
            && (p.Changes(g) ==> GateEvent(g, p.Result(g), GatePaused) in next.events)
            && p.operation in next.audits && next.audits[p.operation] == PauseAudit(p.user)
  {
  }

  /** Committed once, and neither gate written since. */
  ghost predicate PausedSince(history: seq<Change>, p: Plan, i: nat) {
    && i < |history| && history[i] == Apply(p)
    && (forall j :: 0 <= j < |history| && j != i ==> history[j] != Apply(p))
    && (forall j, g :: i < j < |history| && g in p.Gates() ==> !Touches(history[j], g))
  }

  /** No other plan committed under this plan's identifier. */
  ghost predicate OnePlan(history: seq<Change>, p: Plan) {
    forall j :: 0 <= j < |history| && history[j].Apply? && history[j].plan.operation == p.operation ==> history[j].plan == p
  }

  ghost predicate Confirmed(p: Plan, rows: seq<Inspected>) {
    |rows| == 2 && rows[0].gate != rows[1].gate && Confirms(p, rows[0]) && Confirms(p, rows[1])
  }

  lemma GateConfirms(p: Plan, db: Db, g: Gate)
    requires Confirmed(p, Inspect(p, db)) && g in p.Gates()
    ensures g in db.gates && !db.gates[g].enabled && db.gates[g].revision == p.Result(g)
    ensures p.operation in db.audits && db.audits[p.operation] == PauseAudit(p.user)
  {
    var rows := Inspect(p, db);
    assert |InspectGate(p, db, Deployment)| == 1 && |InspectGate(p, db, User(p.user))| == 1;
    assert rows[0] == InspectGate(p, db, Deployment)[0] && rows[1] == InspectGate(p, db, User(p.user))[0];
  }

  lemma {:induction false} ConfirmedMeansPaused(db: Db, history: seq<Change>, p: Plan) returns (i: nat)
    requires Consistent(db) && p.operation !in db.audits && Run(db, history).Some?
    requires OnePlan(history, p)
    requires Confirmed(p, Inspect(p, Run(db, history).value))
    ensures PausedSince(history, p, i)
  {
    hide Commit, Confirmed, Inspect;
    var n := |history|;
    assert history[..n] == history;
    var end := Run(db, history).value;
    GateConfirms(p, end, Deployment);
    GateConfirms(p, end, User(p.user));
    i := AuditComesFromBatch(db, history, n, p);
    forall j | 0 <= j < n && j != i ensures history[j] != Apply(p) {
      if j < i && history[j] == Apply(p) { AppliedOnce(db, history, j, i, p); }
      if j > i { AppliedOnce(db, history, i, j, p); }
    }
    RanEarlier(db, history, n, i);
    RanEarlier(db, history, n, i + 1);
    RunNext(db, history, i);
    StaysConsistent(db, history, i);
    forall j, g | i < j < n && g in p.Gates() ensures !Touches(history[j], g) {
      BatchPauses(Run(db, history[..i]).value, p, g);
      RevisionNeverFalls(db, history, i + 1, n, g);
      GateConfirms(p, end, g);
    }
  }

  lemma {:induction false} PausedMeansConfirmed(db: Db, history: seq<Change>, p: Plan, i: nat)
    requires Consistent(db) && Run(db, history).Some? && PausedSince(history, p, i)
    ensures Confirmed(p, Inspect(p, Run(db, history).value))
  {
    hide Commit;
    var n := |history|;
    assert history[..n] == history;
    var end := Run(db, history).value;
    RanEarlier(db, history, n, i);
    RanEarlier(db, history, n, i + 1);
    RunNext(db, history, i);
    StaysConsistent(db, history, i);
    RecordsStay(db, history, i + 1, n);
    BatchPauses(Run(db, history[..i]).value, p, Deployment);
    BatchPauses(Run(db, history[..i]).value, p, User(p.user));
    RevisionNeverFalls(db, history, i + 1, n, Deployment);
    RevisionNeverFalls(db, history, i + 1, n, User(p.user));
    assert |InspectGate(p, end, Deployment)| == 1 && |InspectGate(p, end, User(p.user))| == 1;
  }

  /** A plan's own batch shuts out every other plan under its identifier. */
  lemma CommittedPlanIsTheOne(db: Db, history: seq<Change>, p: Plan, i: nat)
    requires Run(db, history).Some? && i < |history| && history[i] == Apply(p)
    ensures OnePlan(history, p)
  {
    assert history[..|history|] == history;
    forall j | 0 <= j < |history| && history[j].Apply? && history[j].plan.operation == p.operation
      ensures history[j].plan == p
    {
      if i < j { AppliedOnce(db, history, i, j, p); }
      if j < i { AppliedOnce(db, history, j, i, history[j].plan); }
    }
  }

  /** Over any interleaving of committed changes, a plan's batch committed exactly once with neither gate
      written since, if and only if an inspection confirms the plan and no other plan committed under its
      identifier; so a confirmed receipt is right exactly when its identifier named one plan. */
  lemma ConfirmationIsExact(db: Db, history: seq<Change>, p: Plan)
    requires Consistent(db) && p.operation !in db.audits && Run(db, history).Some?
    ensures (exists i: nat :: PausedSince(history, p, i))
            <==> Confirmed(p, Inspect(p, Run(db, history).value)) && OnePlan(history, p)
    ensures Confirmed(p, Inspect(p, Run(db, history).value)) ==>
              ((exists i: nat :: PausedSince(history, p, i)) <==> OnePlan(history, p))
  {
    hide Confirmed, OnePlan, Commit;
    if Confirmed(p, Inspect(p, Run(db, history).value)) && OnePlan(history, p) {
      var i := ConfirmedMeansPaused(db, history, p);
    }
    if i: nat :| PausedSince(history, p, i) {
      PausedMeansConfirmed(db, history, p, i);
      CommittedPlanIsTheOne(db, history, p, i);
    }
  }

  /** Where every identifier names one plan, confirmation and the pause are the same thing. */
  lemma ConfirmationUnderOnePlan(db: Db, history: seq<Change>, p: Plan)
    requires Consistent(db) && p.operation !in db.audits && Run(db, history).Some? && OnePlan(history, p)
    ensures Confirmed(p, Inspect(p, Run(db, history).value)) <==> exists i: nat :: PausedSince(history, p, i)
  {
    hide Confirmed, OnePlan, PausedSince;
    ConfirmationIsExact(db, history, p);
  }

  /** Where it does not: reused by a second plan that expects what the first left behind, an identifier
      confirms the second, which never committed. */
  lemma SharedIdentifierMisleads(user: string, operation: string) returns (db: Db, history: seq<Change>, p: Plan)
    ensures Consistent(db) && p.operation !in db.audits && Run(db, history).Some?
    ensures Confirmed(p, Inspect(p, Run(db, history).value)) && Apply(p) !in history
  {
    db := Db(map[Deployment := GateRow(true, 5), User(user) := GateRow(true, 2)], {}, map[]);
    var first := Plan(operation, user, 5, true, 2, true);
    p := Plan(operation, user, 6, false, 3, false);
    history := [Apply(first)];
    assert history[..0] == [] && Run(db, []) == Some(db);
    assert Guarded(db, first);
    var end := Commit(db, Apply(first)).value;
    assert Run(db, history) == Some(end);
    BatchPauses(db, first, Deployment);
    BatchPauses(db, first, User(user));
    assert |InspectGate(p, end, Deployment)| == 1 && |InspectGate(p, end, User(user))| == 1;
  }
}
