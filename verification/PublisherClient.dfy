/** The finite client: seven phases per scenario under one shared budget, each phase reserved in the
    journal before it may reach the transport. */
module PublisherClient {
  import opened Options
  import opened Crashes
  import opened PublisherLedger
  import opened PublisherJournal

  // ---------- Stop latch and authority window ----------

  class DispatchFence {
    const plan: Plan
    const started: int
    var stopped: bool

    constructor (plan: Plan)
      ensures this.plan == plan && !stopped
    {
      this.plan := plan;
      started := *;
      stopped := false;
    }

    /** Raises outside the authority window or past the lifecycle deadline. */
    method Window(cleanup: bool) returns (r: Flow<int>)
      ensures r.Ok? || r.Raised?
      ensures r.Ok? ==> plan.startsAt <= r.value < if cleanup then plan.cleanupDeadline else plan.expiresAt
    {
      var now: int := *;
      var end := if cleanup then plan.cleanupDeadline else plan.expiresAt;
      if !(plan.startsAt <= now < end) { return Raised; }
      var monotonic: int := *;
      if monotonic - started >= plan.budgets.lifecycleSeconds { return Raised; }
      return Ok(now);
    }

    method Fence() returns (r: Flow<int>)
      modifies this
      ensures r.Ok? || r.Raised?
      ensures old(stopped) ==> stopped && r.Raised?
      ensures r.Ok? ==> !stopped && plan.startsAt <= r.value < plan.expiresAt
    {
      var now :- Window(false);
      var stopRequested: bool := *;
      if stopped || stopRequested {
        stopped := true;
        return Raised;
      }
      return Ok(now);
    }

    /** The stop check handed to the client: any refusal latches the stop for good. */
    method ClientStopped() returns (stop: bool, at: int)
      modifies this
      ensures stop == stopped
      ensures old(stopped) ==> stop
      ensures !stop ==> plan.startsAt <= at < plan.expiresAt
    {
      var now := Fence();
      var granted: bool := *;
      if now.Raised? || !granted {
        stopped := true;
        return true, 0;
      }
      return false, now.Extract();
    }
  }

  // ---------- Shared budget ----------

  const PHASE_CALLS: nat := 16
  const PHASE_POSTS: nat := 1

  /** A phase handed to the transport, with its validated counts once it is accepted. */
  datatype Charged = InFlight(p: Phase) | Validated(p: Phase, calls: nat, posts: nat)
  {
    function Calls(): nat {
      match this
      case InFlight(p) => WorstCalls(p)
      case Validated(_, calls, _) => calls
    }
    function Posts(): nat {
      match this
      case InFlight(p) => WorstPosts(p)
      case Validated(_, _, posts) => posts
    }
    predicate Bounded() { Calls() <= PHASE_CALLS && Posts() <= PHASE_POSTS }
  }

  function WorstCalls(p: Phase): nat { if p == 0 then 0 else PHASE_CALLS }
  function WorstPosts(p: Phase): nat { if p == 0 then 0 else PHASE_POSTS }

  function TotalCalls(charges: seq<Charged>): nat {
    if charges == [] then 0 else TotalCalls(charges[..|charges| - 1]) + charges[|charges| - 1].Calls()
  }

  function TotalPosts(charges: seq<Charged>): nat {
    if charges == [] then 0 else TotalPosts(charges[..|charges| - 1]) + charges[|charges| - 1].Posts()
  }

  lemma ChargesAppend(charges: seq<Charged>, c: Charged)
    ensures TotalCalls(charges + [c]) == TotalCalls(charges) + c.Calls()
    ensures TotalPosts(charges + [c]) == TotalPosts(charges) + c.Posts()
  {
    assert (charges + [c])[..|charges|] == charges;
  }

  /** The counters are the validated counts of the accepted phases plus the worst case of every phase
      handed out but not accepted. */
  ghost predicate Accounted(charges: seq<Charged>, calls: int, posts: int) {
    && calls == TotalCalls(charges) && posts == TotalPosts(charges)
    && forall c :: c in charges ==> c.Bounded()
  }

  lemma AccountedAppend(charges: seq<Charged>, calls: int, posts: int, c: Charged)
    requires Accounted(charges, calls, posts) && c.Bounded()
    ensures Accounted(charges + [c], calls + c.Calls(), posts + c.Posts())
  {
    ChargesAppend(charges, c);
  }

  lemma AccountedFront(charges: seq<Charged>, calls: int, posts: int)
    requires charges != [] && Accounted(charges, calls, posts)
    ensures Accounted(charges[..|charges| - 1], calls - charges[|charges| - 1].Calls(),
                      posts - charges[|charges| - 1].Posts())
  {
  }

  /** With at most 27 phases handed out, one more worst case always fits the closed run's caps. */
  lemma {:induction false} ActivityFitsFourScenarios(charges: seq<Charged>)
    requires forall c :: c in charges ==> c.Bounded()
    ensures TotalCalls(charges) <= PHASE_CALLS * |charges| && TotalPosts(charges) <= PHASE_POSTS * |charges|
    ensures |charges| <= 27 ==> TotalCalls(charges) + PHASE_CALLS <= 448 && TotalPosts(charges) + PHASE_POSTS <= 28
  {
    if charges != [] {
      assert charges[|charges| - 1] in charges;
      ActivityFitsFourScenarios(charges[..|charges| - 1]);
    }
  }

  class SharedBudget {
    const maxRequests: nat
    const maxRequestBytes: nat
    const maxResponseBytes: nat
    const maxProviderCalls: nat
    const maxSyntheticPosts: nat
    const deadline: int
    var requests: nat
    var requestBytes: nat
    var responseBytes: nat
    var providerCalls: int
    var syntheticPosts: int
    ghost var charges: seq<Charged>   // every phase handed to the transport under this budget

    /** The activity counters account for every phase handed out, and no cap is exceeded. */
    ghost predicate Valid()
      reads this
    {
      && Accounted(charges, providerCalls, syntheticPosts)
      && providerCalls <= maxProviderCalls && syntheticPosts <= maxSyntheticPosts
      && requests <= maxRequests && requestBytes <= maxRequestBytes && responseBytes <= maxResponseBytes
    }

    ghost predicate ClosedRunCaps() { maxProviderCalls == 448 && maxSyntheticPosts == 28 }

    constructor (maxRequests: nat, maxRequestBytes: nat, maxResponseBytes: nat, deadline: int,
                 maxProviderCalls: nat := 448, maxSyntheticPosts: nat := 28)
      ensures Valid() && charges == []
      ensures this.maxProviderCalls == maxProviderCalls && this.maxSyntheticPosts == maxSyntheticPosts
    {
      this.maxRequests, this.maxRequestBytes, this.maxResponseBytes := maxRequests, maxRequestBytes, maxResponseBytes;
      this.maxProviderCalls, this.maxSyntheticPosts, this.deadline := maxProviderCalls, maxSyntheticPosts, deadline;
      requests, requestBytes, responseBytes, providerCalls, syntheticPosts := 0, 0, 0, 0, 0;
      charges := [];
    }

    method Remaining() returns (r: Flow<int>)
      ensures r.Raised? || (r.Ok? && r.value > 0)
    {
      var now: int := *;
      return if deadline - now <= 0 then Raised else Ok(deadline - now);
    }

    method ReserveRequest(count: nat) returns (r: Flow<()>)
      requires Valid()
      modifies this`requests, this`requestBytes
      ensures Valid()
      ensures r == if old(requests) < maxRequests && old(requestBytes) + count <= maxRequestBytes then Ok(()) else Raised
      ensures r.Ok? ==> requests == old(requests) + 1 && requestBytes == old(requestBytes) + count
      ensures r.Raised? ==> requests == old(requests) && requestBytes == old(requestBytes)
    {
      if requests >= maxRequests || requestBytes + count > maxRequestBytes { return Raised; }
      requests := requests + 1;
      requestBytes := requestBytes + count;
      return Ok(());
    }

    method ChargeResponse(count: int) returns (r: Flow<()>)
      modifies this`responseBytes
      ensures r.Ok? || r.Raised?
      ensures count >= 0 ==> responseBytes == old(responseBytes) + count
      ensures count < 0 ==> responseBytes == old(responseBytes)
      ensures r.Ok? <==> count >= 0 && responseBytes <= maxResponseBytes
    {
      if count < 0 { return Raised; }
      responseBytes := responseBytes + count;
      if responseBytes > maxResponseBytes { return Raised; }
      return Ok(());
    }

    /** Whether one more worst case fits: with the closed run's caps it does for the first 28 phases. */
    method ActivityFits(p: Phase) returns (fits: bool)
      requires Valid()
      ensures fits <==> providerCalls + WorstCalls(p) <= maxProviderCalls && syntheticPosts + WorstPosts(p) <= maxSyntheticPosts
      ensures ClosedRunCaps() && |charges| <= 27 ==> fits
    {
      ActivityFitsFourScenarios(charges);
      fits := providerCalls + WorstCalls(p) <= maxProviderCalls && syntheticPosts + WorstPosts(p) <= maxSyntheticPosts;
    }

    /** Take the worst case of a phase that is about to be handed to the transport. */
    method ReserveActivity(p: Phase)
      requires Valid()
      requires providerCalls + WorstCalls(p) <= maxProviderCalls && syntheticPosts + WorstPosts(p) <= maxSyntheticPosts
      modifies this`providerCalls, this`syntheticPosts, this`charges
      ensures Valid() && charges == old(charges) + [InFlight(p)]
    {
      AccountedAppend(charges, providerCalls, syntheticPosts, InFlight(p));
      providerCalls := providerCalls + WorstCalls(p);
      syntheticPosts := syntheticPosts + WorstPosts(p);
      charges := charges + [InFlight(p)];
    }

    /** Replace the last phase's worst case by its validated counts. */
    method SettleActivity(p: Phase, calls: nat, posts: nat)
      requires Valid() && charges != [] && charges[|charges| - 1] == InFlight(p)
      requires calls <= WorstCalls(p) && posts <= WorstPosts(p)
      modifies this`providerCalls, this`syntheticPosts, this`charges
      ensures Valid()
      ensures charges == old(charges[..|charges| - 1]) + [Validated(p, calls, posts)]
    {
      ghost var front := charges[..|charges| - 1];
      AccountedFront(charges, providerCalls, syntheticPosts);
      AccountedAppend(front, providerCalls - WorstCalls(p), syntheticPosts - WorstPosts(p), Validated(p, calls, posts));
      providerCalls := providerCalls + calls - WorstCalls(p);
      syntheticPosts := syntheticPosts + posts - WorstPosts(p);
      charges := front + [Validated(p, calls, posts)];
    }
  }

  // ---------- Response validation ----------

  /** A parsed response: whether its envelope matched the closed shape, and its counters. */
  datatype Reply = Reply(wireBytes: int, bodyBytes: nat, status: int, headersAccepted: bool, shapeMatches: bool,
                         providerCalls: Option<int>, syntheticPosts: Option<int>,
                         repairRequests: Option<int>, reconciliationReads: Option<int>)

  predicate InRange(value: Option<int>, maximum: int) {
    value.Some? ==> 0 <= value.value <= maximum
  }

  /** Happy is 0, create_lost 1, attachment_lost 2, title_lost 3; the fields each reply carries are
      fixed by its phase and scenario. */
  predicate FieldsMatch(r: Reply, p: Phase, s: Scenario) {
    && (r.providerCalls.Some? <==> p != 0) && (r.syntheticPosts.Some? <==> p != 0)
    && (r.repairRequests.Some? <==> p == 2 && s == 1)
    && (r.reconciliationReads.Some? <==> (p == 3 && s == 2) || (p == 4 && s == 3))
  }

  /** The validated activity counts, or nothing when the reply is refused. */
  function ValidateResponse(r: Reply, p: Phase, s: Scenario): (counts: Option<(nat, nat)>)
    ensures counts.Some? ==>
              && counts.value.0 <= (if p >= 5 then 0 else WorstCalls(p))
              && counts.value.1 <= (if p >= 5 then 0 else WorstPosts(p))
              && (2 <= p <= 4 ==> counts.value.1 == 1)
  {
    if r.status != 200 || !r.headersAccepted || !r.shapeMatches || !FieldsMatch(r, p, s) then None
    else if !InRange(r.providerCalls, 16) || !InRange(r.syntheticPosts, 1)
            || !InRange(r.repairRequests, 16) || !InRange(r.reconciliationReads, 16) then None
    else if 2 <= p <= 4 && r.syntheticPosts.value != 1 then None
    else if p >= 5 && (r.providerCalls.value != 0 || r.syntheticPosts.value != 0) then None
    else if r.reconciliationReads.Some? && r.reconciliationReads.value < 1 then None
    else if r.repairRequests.Some? && r.repairRequests.value < 1 then None
    else if p == 0 then Some((0, 0))
    else Some((r.providerCalls.value as nat, r.syntheticPosts.value as nat))
  }

  // ---------- The client ----------

  /** Why the last phase attempt ended. */
  datatype Ending = NotStarted | FenceRefused | ActivityRefused | RequestBudgetRefused | ResponseBudgetRefused
                  | TransportFailed | AccountingInvalid | LateFence | LateResponse | SchemaRefused
                  | CommitFailed | Accepted

  datatype Status = StatusComplete | StatusUnknown | StatusRefused

  class FiniteClient {
    const s: Scenario
    const journal: DurableJournal
    const fence: DispatchFence
    const budget: SharedBudget
    const expiresAt: int
    var started: bool
    var ending: Ending

    constructor (s: Scenario, journal: DurableJournal, fence: DispatchFence, budget: SharedBudget, expiresAt: int)
      ensures this.s == s && this.journal == journal && this.fence == fence && this.budget == budget
      ensures this.expiresAt == expiresAt && !started && ending == NotStarted
    {
      this.s, this.journal, this.fence, this.budget, this.expiresAt := s, journal, fence, budget, expiresAt;
      started, ending := false, NotStarted;
    }

    ghost predicate Valid()
      reads this, journal, fence, budget
    {
      && journal.Valid() && budget.Valid()
      && fence.plan == journal.plan
    }

    method Fence() returns (r: Flow<int>)
      modifies fence
      ensures r.Ok? || r.Raised?
      ensures r.Ok? ==> 0 < r.value <= 60 && !fence.stopped
      ensures old(fence.stopped) ==> fence.stopped && r.Raised?
    {
      var stop, _ := fence.ClientStopped();
      if stop { return Raised; }
      var now: int := *;
      var lifetime := expiresAt - now;
      if !(0 < lifetime <= 1800) { return Raised; }
      var remaining :- budget.Remaining();
      var timeout := if lifetime < 60 then lifetime else 60;
      return Ok(if remaining < timeout then remaining else timeout);
    }

    /** The operator's transport wrapper: a stopped run sends nothing; otherwise the phase is handed
        to the wire exactly here. */
    method Transport(p: Phase) returns (r: Flow<Reply>)
      requires Valid() && JustReserved(journal.trace, Client(s, p)) && !journal.Rows().Has(CleanupEntered)
      modifies journal`trace, fence
      ensures Valid() && old(journal.trace) <= journal.trace
      ensures r.Ok? ==> !fence.stopped
      ensures journal.Rows() == old(journal.Rows())
      ensures old(fence.stopped) ==> fence.stopped && r.Raised? && journal.trace == old(journal.trace)
      ensures !fence.stopped ==> exists at :: journal.trace == old(journal.trace) + [Dispatch(s, p, at)]
      ensures fence.stopped ==> r.Raised? && journal.trace == old(journal.trace)
    {
      var stop, at := fence.ClientStopped();
      if stop { return Raised; }
      journal.Record(Dispatch(s, p, at));
      var dies: bool, fails: bool := *, *;
      if dies { return Crashed; }
      if fails { return Raised; }
      var reply: Reply := *;
      return Ok(reply);
    }

    /** The checks and reservations before the transport; the result is the response byte limit. */
    method Prepare(p: Phase) returns (r: Flow<nat>)
      requires budget.Valid()
      modifies this`ending, fence, budget
      ensures budget.Valid() && (r.Ok? || r.Raised?)
      ensures r.Ok? ==> budget.charges == old(budget.charges) + [InFlight(p)]
                        && budget.responseBytes + r.value <= budget.maxResponseBytes
      ensures r.Raised? ==> budget.charges == old(budget.charges)
      ensures ending in {FenceRefused, ActivityRefused, RequestBudgetRefused, ResponseBudgetRefused}
      ensures ending == ActivityRefused && budget.ClosedRunCaps() ==> |old(budget.charges)| > 27
      ensures old(fence.stopped) ==> fence.stopped
    {
      ending := FenceRefused;
      var timeout :- Fence();
      var wireBytes: nat := *;
      var fits := budget.ActivityFits(p);
      if !fits {
        ending := ActivityRefused;
        return Raised;
      }
      ending := RequestBudgetRefused;
      var _ :- budget.ReserveRequest(wireBytes);
      ending := ResponseBudgetRefused;
      var limit := budget.maxResponseBytes - budget.responseBytes;
      if limit > 65536 { limit := 65536; }
      if limit <= 0 { return Raised; }
      budget.ReserveActivity(p);
      return Ok(limit);
    }

    /** The accounting and validation of a reply; the two late over-budget endings never occur. */
    method Account(p: Phase, reply: Reply, limit: nat) returns (r: Flow<(nat, nat)>)
      requires budget.Valid() && budget.charges != [] && budget.charges[|budget.charges| - 1] == InFlight(p)
      requires budget.responseBytes + limit <= budget.maxResponseBytes
      modifies this`ending, fence, budget
      ensures budget.Valid() && (r.Ok? || r.Raised?) && |budget.charges| == |old(budget.charges)|
      ensures budget.charges[..|budget.charges| - 1] == old(budget.charges[..|budget.charges| - 1])
      ensures budget.charges[|budget.charges| - 1]
              == if r.Ok? then Validated(p, r.value.0, r.value.1) else InFlight(p)
      ensures r.Ok? ==> ValidateResponse(reply, p, s) == Some(r.value) && !fence.stopped
      ensures ending in {AccountingInvalid, LateFence, LateResponse, SchemaRefused, CommitFailed}
      ensures old(fence.stopped) ==> fence.stopped
    {
      ending := AccountingInvalid;
      var used := reply.wireBytes;
      if used < reply.bodyBytes || used > limit { return Raised; }
      var charged := budget.ChargeResponse(used);
      if charged.Raised? {
        assert false;  // the limit handed to the transport is what the budget had left
      }
      ending := LateFence;
      var _ :- Fence();
      var late: bool := *;
      if late {
        ending := LateResponse;
        return Raised;
      }
      ending := SchemaRefused;
      var counts := ValidateResponse(reply, p, s);
      if counts.None? { return Raised; }
      budget.SettleActivity(p, counts.value.0, counts.value.1);
      if budget.providerCalls > budget.maxProviderCalls || budget.syntheticPosts > budget.maxSyntheticPosts {
        assert false;  // validated counts never exceed the reserved worst case
      }
      ending := CommitFailed;
      return Ok(counts.value);
    }

    /** Everything between a phase's reservation and its acceptance. */
    method Exchange(p: Phase) returns (r: Flow<()>)
      requires Valid() && JustReserved(journal.trace, Client(s, p)) && !journal.Rows().Has(CleanupEntered)
      requires journal.Rows().Has(Client(s, p)) && journal.events[Client(s, p)].state == Pending
      modifies this`ending, journal, fence, budget
      ensures Valid() && old(journal.trace) <= journal.trace
      ensures journal.keys == old(journal.keys) && journal.events.Keys == old(journal.events.Keys)
      ensures forall k :: k in journal.events && k != Client(s, p) ==> journal.events[k] == old(journal.events[k])
      ensures TotalsOf(journal.Rows()) == old(TotalsOf(journal.Rows()))
      ensures r.Ok? ==> journal.Rows().Done(Client(s, p)) && ending == Accepted && !fence.stopped
      ensures r.Raised? ==> journal.Rows() == old(journal.Rows()) && ending != Accepted
      ensures old(fence.stopped) ==> fence.stopped
      ensures |budget.charges| <= |old(budget.charges)| + 1
      ensures ending == ActivityRefused && budget.ClosedRunCaps() ==> |old(budget.charges)| > 27
    {
      hide Lawful, Replay, TotalsOf, Accounted;
      var limit :- Prepare(p);
      ending := TransportFailed;
      var reply :- Transport(p);
      var counts :- Account(p, reply, limit);
      var _ :- journal.Finish(Client(s, p), Complete, PhaseReceipt(counts.0, counts.1));
      ending := Accepted;
      return Ok(());
    }

    /** The whole sequence.  A phase is never replayed: an uncertain one is settled as unknown and
        ends the run. */
    method Run() returns (r: Flow<Status>)
      requires Valid() && PhaseReady(journal.trace, journal.Rows(), s, 0)
      modifies this, journal, fence, budget
      ensures Valid() && old(journal.trace) <= journal.trace
      ensures forall k :: k in journal.events && k !in old(journal.events) ==> k.Client? && k.s == s
      ensures forall k :: k in old(journal.events) ==> k in journal.events && journal.events[k] == old(journal.events[k])
      ensures TotalsOf(journal.Rows()) == old(TotalsOf(journal.Rows()))
      ensures r.Ok? || r.Crashed?
      ensures r == Ok(StatusComplete) ==> forall p: Phase :: journal.Rows().Done(Client(s, p))
      ensures r == Ok(StatusComplete) ==> !fence.stopped
      ensures old(started) ==> r == Ok(StatusRefused) && journal.trace == old(journal.trace)
      ensures old(fence.stopped) ==> fence.stopped
      ensures |budget.charges| <= |old(budget.charges)| + 7
      ensures budget.ClosedRunCaps() && |old(budget.charges)| <= 21 && old(ending) != ActivityRefused ==> ending != ActivityRefused
    {
      hide Lawful, Replay, TotalsOf, Accounted;
      if started { return Ok(StatusRefused); }
      started := true;
      var timeout := Fence();
      var tokenValid: bool := *;
      if timeout.Raised? || !tokenValid { return Ok(StatusRefused); }
      var p := 0;
      while p < 7
        invariant 0 <= p <= 7 && Valid() && old(journal.trace) <= journal.trace
        invariant forall k :: k in journal.events && k !in old(journal.events) ==> k.Client? && k.s == s
        invariant forall k :: k in old(journal.events) ==> k in journal.events && journal.events[k] == old(journal.events[k])
        invariant TotalsOf(journal.Rows()) == old(TotalsOf(journal.Rows()))
        invariant p < 7 ==> PhaseReady(journal.trace, journal.Rows(), s, p)
        invariant forall q: Phase :: q < p ==> journal.Rows().Done(Client(s, q))
        invariant old(fence.stopped) ==> fence.stopped
        invariant !fence.stopped
        invariant |budget.charges| <= |old(budget.charges)| + p
        invariant budget.ClosedRunCaps() && |old(budget.charges)| <= 21 && old(ending) != ActivityRefused ==> ending != ActivityRefused
      {
        timeout := Fence();
        if timeout.Raised? { return Ok(StatusRefused); }
        var late: bool := *;
        if late { return Ok(StatusRefused); }
        var outcome := Phase(p);
        match outcome
        case Crashed => return Crashed;
        case Raised => return Ok(StatusRefused);
        case Ok(accepted) =>
          if !accepted { return Ok(StatusUnknown); }
          p := p + 1;
      }
      return Ok(StatusComplete);
    }

    /** One phase: reserve, exchange, and settle an uncertain exchange as unknown (`Ok(false)`). */
    method Phase(p: Phase) returns (r: Flow<bool>)
      requires Valid() && PhaseReady(journal.trace, journal.Rows(), s, p)
      modifies this`ending, journal, fence, budget
      ensures Valid() && old(journal.trace) <= journal.trace
      ensures forall k :: k in journal.events && k !in old(journal.events) ==> k == Client(s, p)
      ensures forall k :: k in old(journal.events) ==> k in journal.events && journal.events[k] == old(journal.events[k])
      ensures TotalsOf(journal.Rows()) == old(TotalsOf(journal.Rows()))
      ensures r == Ok(true) ==> journal.Rows().Done(Client(s, p)) && ending == Accepted && !fence.stopped
      ensures old(fence.stopped) ==> fence.stopped
      ensures |budget.charges| <= |old(budget.charges)| + 1
      ensures ending == ActivityRefused && old(ending) != ActivityRefused && budget.ClosedRunCaps() ==> |old(budget.charges)| > 27
    {
      hide Lawful, Replay, TotalsOf, Accounted;
      var reserved :- journal.Reserve(Client(s, p), Plain);
      if !reserved { return Raised; }
      var exchanged := Exchange(p);
      match exchanged
      case Ok(_) => return Ok(true);
      case Crashed => return Crashed;
      case Raised =>
        var _ :- journal.Finish(Client(s, p), State.Unknown, Reason);
        return Ok(false);
    }
  }
}
