/** The group-post lifecycle's time and call budget.  Provider calls last at most 20 seconds, a sleep lasts
    exactly as long as asked, the native invocation at most `NATIVE_SECONDS`, and local steps take no
    time; everything a provider, the native side or an operator answers is arbitrary. */
module Teardown {
  import opened Raises

  const CALL_SECONDS: real := 20.0
  const MAX_CALLS: nat := 120
  const NATIVE_SECONDS: real := 52.0   // 31 sleeps waiting for the acknowledgement, 21 of grace

  datatype Resource = Resource(database: bool, acknowledged: bool, deleted: bool)

  /** Why a run ended up in teardown. */
  datatype Ending = NotPrepared | StoppedEarly | Terminal | Cutoff | Limit | Failed

  predicate HasDatabase(resources: seq<Resource>) { exists i :: 0 <= i < |resources| && resources[i].database }

  predicate AllDeleted(resources: seq<Resource>) { forall i :: 0 <= i < |resources| ==> resources[i].deleted }

  class Lifecycle {
    const started: real              // the clock at construction
    const expiresAt: int             // its whole seconds, plus 1,200
    const preparationDeadline: real  // 240 seconds after the start
    var now: real                    // the clock
    var ready: bool
    var calls: nat
    var resources: seq<Resource>
    ghost var cleanupRefused: bool   // a cleanup or observation call was once refused for time or count

    constructor (now: real)
      ensures this.now == now == started && calls == 0 && resources == [] && !ready && !cleanupRefused
      ensures Valid()
    {
      started, this.now, expiresAt, preparationDeadline := now, now, now.Floor + 1200, now + 240.0;
      ready, calls, resources, cleanupRefused := false, 0, [], false;
    }

    predicate Valid()
      reads this
    {
      && expiresAt == started.Floor + 1200 && preparationDeadline == started + 240.0
      && now >= started && |resources| <= 3
    }

    /** Time and the call count only go up. */
    twostate predicate Later()
      reads this
    {
      now >= old(now) && calls >= old(calls)
    }

    /** The moment a call must be over by: expiry for teardown and observation; for other calls 240 seconds
        earlier, and until the run is ready no later than the preparation deadline. */
    function MustEndBy(cleanup: bool): real
      reads this`ready
    {
      var early := expiresAt as real - 240.0;
      if cleanup then expiresAt as real
      else if !ready && preparationDeadline < early then preparationDeadline else early
    }

    /** One provider call: refused exactly when 20 more seconds would reach its cutoff or the calls are used up,
        and otherwise counted and up to 20 seconds long, whatever it brings back. */
    method Call(cleanup: bool) returns (r: Flow<bool>)
      requires Valid()
      modifies this`now, this`calls, this`cleanupRefused
      ensures Valid() && Later() && now <= old(now) + CALL_SECONDS
      ensures var refused := old(now) + CALL_SECONDS >= MustEndBy(cleanup) || old(calls) >= MAX_CALLS;
              && calls == (if refused then old(calls) else old(calls) + 1)
              && (refused ==> r.Raised? && now == old(now))
              && cleanupRefused == (old(cleanupRefused) || (cleanup && refused))
      ensures calls > old(calls) ==> now < MustEndBy(cleanup)
    {
      if now + CALL_SECONDS >= MustEndBy(cleanup) || calls >= MAX_CALLS {
        if cleanup { cleanupRefused := true; }
        return Raised;
      }
      calls := calls + 1;
      var duration: real, fails: bool, accepted: bool := *, *, *;
      if duration < 0.0 { duration := 0.0; }
      if duration > CALL_SECONDS { duration := CALL_SECONDS; }
      now := now + duration;
      return if fails then Raised else Ok(accepted);
    }

    /** A preparation call whose answer must be the expected one. */
    method Require() returns (r: Flow<()>)
      requires Valid() && !ready
      modifies this`now, this`calls, this`cleanupRefused
      ensures Valid() && Later() && calls <= old(calls) + 1 && cleanupRefused == old(cleanupRefused)
      ensures old(now) < preparationDeadline ==> now < preparationDeadline
    {
      var accepted :- Call(false);
      return if accepted then Ok(()) else Raised;
    }

    /** The guarded body of the preparation: at most eight calls, all before its deadline. */
    method PrepareBody() returns (r: Flow<()>)
      requires Valid() && !ready && calls == 0 && resources == [] && now == started
      modifies this
      ensures Valid() && Later() && calls <= 8 && now < preparationDeadline && cleanupRefused == old(cleanupRefused)
      ensures r.Ok? ==> ready && now + 600.0 <= expiresAt as real && HasDatabase(resources)
    {
      var _ :- Require();
      var _ :- Require();
      resources := [Resource(true, false, false)];
      var _ :- Require();
      resources := [Resource(true, true, false)];
      var _ :- Require();
      var _ :- PrepareWorker();
      var _ :- PrepareWorker();
      ready := true;
      if now + 600.0 > expiresAt as real { return Raised; }
      assert resources[0].database;
      return Ok(());
    }

    /** Upload one Worker and enable its endpoint. */
    method PrepareWorker() returns (r: Flow<()>)
      requires Valid() && !ready && 0 < |resources| < 3 && resources[0].database
      modifies this`now, this`calls, this`cleanupRefused, this`resources
      ensures Valid() && Later() && calls <= old(calls) + 2 && cleanupRefused == old(cleanupRefused)
      ensures |resources| == |old(resources)| + 1 && resources[0].database
      ensures old(now) < preparationDeadline ==> now < preparationDeadline
    {
      var last := |resources|;
      resources := resources + [Resource(false, false, false)];
      var _ :- Require();
      resources := resources[last := Resource(false, true, false)];
      r := Require();
    }

    /** Preparation, which cleans up after itself when anything fails. */
    method Prepare() returns (r: Flow<()>)
      requires Valid() && !ready && calls == 0 && resources == [] && now == started
      modifies this
      ensures Valid() && Later() && cleanupRefused == old(cleanupRefused)
      ensures r.Ok? ==> ready && calls <= 8 && now + 600.0 <= expiresAt as real && HasDatabase(resources)
      ensures r.Raised? ==> calls <= 17 && now < preparationDeadline + 180.0
    {
      r := PrepareBody();
      if r.Raised? {
        var _ := Cleanup();
      }
    }

    /** Read-only export of the observations: nothing without a database, else one call. */
    method Observe() returns (r: Flow<bool>)
      requires Valid()
      modifies this`now, this`calls, this`cleanupRefused
      ensures Valid() && Later() && now <= old(now) + CALL_SECONDS && calls <= old(calls) + 1
      ensures old(now) + CALL_SECONDS < expiresAt as real && old(calls) < MAX_CALLS ==> cleanupRefused == old(cleanupRefused)
    {
      var found := exists i :: 0 <= i < |resources| && resources[i].database;
      if !found { return Raised; }
      r := Call(true);
    }

    /** One resource's teardown: look, delete when it is exactly the recorded one, look again. */
    method Remove(i: nat)
      requires Valid() && i < |resources|
      modifies this`now, this`calls, this`cleanupRefused, this`resources
      ensures Valid() && Later() && |resources| == |old(resources)|
      ensures now <= old(now) + 3.0 * CALL_SECONDS && calls <= old(calls) + 3
      ensures old(now) + 3.0 * CALL_SECONDS < expiresAt as real && old(calls) + 3 <= MAX_CALLS ==> cleanupRefused == old(cleanupRefused)
      ensures forall k :: 0 <= k < |resources| && k != i ==> resources[k] == old(resources)[k]
      ensures resources[i].acknowledged == old(resources)[i].acknowledged
      ensures !old(resources)[i].acknowledged ==> calls == old(calls) && resources == old(resources)
    {
      if resources[i].deleted || !resources[i].acknowledged { return; }
      var missing := Call(true);
      if missing.Raised? { return; }
      if missing.value { resources := resources[i := resources[i].(deleted := true)]; return; }
      var exact: bool := *;
      if !exact { return; }
      var deleted := Call(true);
      if deleted.Raised? { return; }
      missing := Call(true);
      if missing.Raised? { return; }
      resources := resources[i := resources[i].(deleted := missing.value)];
    }

    /** Teardown in reverse order of creation: at most three calls a resource. */
    method Cleanup() returns (confirmed: bool)
      requires Valid()
      modifies this`now, this`calls, this`cleanupRefused, this`resources
      ensures Valid() && Later() && |resources| == |old(resources)|
      ensures now <= old(now) + 180.0 && calls <= old(calls) + 9
      ensures old(now) + 180.0 < expiresAt as real && old(calls) + 9 <= MAX_CALLS ==> cleanupRefused == old(cleanupRefused)
      ensures confirmed <==> AllDeleted(resources)
      ensures confirmed ==> forall i :: 0 <= i < |resources| ==> resources[i].acknowledged || old(resources)[i].deleted
    {
      var i := |resources|;
      while i > 0
        invariant 0 <= i <= |resources| && |resources| == |old(resources)| && Valid() && Later()
        invariant now <= old(now) + (|resources| - i) as real * 60.0 && calls <= old(calls) + 3 * (|resources| - i)
        invariant old(now) + 180.0 < expiresAt as real && old(calls) + 9 <= MAX_CALLS ==> cleanupRefused == old(cleanupRefused)
        invariant forall k :: 0 <= k < i ==> resources[k] == old(resources)[k]
        invariant forall k :: 0 <= k < |resources| ==> resources[k].acknowledged == old(resources)[k].acknowledged
        invariant forall k :: 0 <= k < |resources| && resources[k].deleted && !resources[k].acknowledged ==> old(resources)[k].deleted
      {
        i := i - 1;
        Remove(i);
      }
      confirmed := forall k :: 0 <= k < |resources| ==> resources[k].deleted;
    }

    /** Watching after publication: until the native side ends, or a stop or the cutoff and then its grace of
        20 seconds.  The iteration limit is never what ends it. */
    method Watch() returns (ending: Ending)
      requires Valid() && now < expiresAt as real - 240.0
      modifies this`now
      ensures Valid() && now >= old(now)
      ensures now < expiresAt as real - 219.0
      ensures ending == Terminal || ending == Cutoff || ending == Failed
    {
      var stopAt: real := 0.0;
      var stopping := false;
      ghost var stopTurn := 0;
      var previous := now;
      var n := 0;
      while n < 1221
        invariant 0 <= n <= 1221 && Valid() && now == old(now) + n as real
        invariant !stopping ==> now < expiresAt as real - 239.0
        invariant stopping ==> stopAt == old(now) + stopTurn as real && stopAt < expiresAt as real - 239.0
        invariant stopping ==> stopTurn < n <= stopTurn + 20
      {
        var current := now;
        var terminal: bool, stopRequested: bool, fails: bool := *, *, *;
        if fails { return Failed; }
        if terminal { return Terminal; }
        if !stopping && (current < previous || stopRequested || current >= expiresAt as real - 240.0) {
          stopping, stopAt := true, current;
          stopTurn := n;
        }
        previous := current;
        if stopping && current >= stopAt + 20.0 { return Cutoff; }
        now := now + 1.0;
        n := n + 1;
      }
      return Limit;
    }

    /** The body of a run: preparation, publication, native invocation, watching. */
    method Body() returns (ending: Ending)
      requires Valid() && !ready && calls == 0 && resources == [] && now == started
      modifies this
      ensures Valid() && cleanupRefused == old(cleanupRefused) && calls <= 17
      ensures now < expiresAt as real - 219.0
      ensures ending != Limit
    {
      var stop: bool := *;
      if stop { return StoppedEarly; }
      var prepared := Prepare();
      if prepared.Raised? { return NotPrepared; }
      stop := *;
      if stop { return StoppedEarly; }
      var lasted: real := *;
      if lasted < 0.0 { lasted := 0.0; }
      if lasted > NATIVE_SECONDS { lasted := NATIVE_SECONDS; }
      now := now + lasted;
      var fails: bool := *;
      if fails { return Failed; }
      ending := Watch();
    }

    /** One run: whatever happens, one observation and one teardown follow, and no call of theirs is ever
        refused for time or count; the run makes at most 27 calls. */
    method RunOnce() returns (ending: Ending, confirmed: bool)
      requires Valid() && !ready && calls == 0 && resources == [] && now == started && !cleanupRefused
      modifies this
      ensures !cleanupRefused && calls <= 27
      ensures now < expiresAt as real - 19.0
      ensures confirmed <==> AllDeleted(resources)
      ensures ending != Limit
    {
      ending := Body();
      var _ := Observe();
      confirmed := Cleanup();
    }

    /** The holding variant, entered with at most the preparation's calls: wait for a stop or the cutoff,
        then observe and tear down. */
    method HoldAndCleanup() returns (confirmed: bool)
      requires Valid() && ready && calls <= 8 && now + 600.0 <= expiresAt as real && !cleanupRefused
      modifies this
      ensures !cleanupRefused && calls <= 18
      ensures now < expiresAt as real - 39.0
      ensures confirmed <==> AllDeleted(resources)
    {
      var n := 0;
      while n < 1021
        invariant 0 <= n <= 1021 && Valid() && now == old(now) + n as real && now < expiresAt as real - 239.0
        invariant calls == old(calls) && !cleanupRefused
      {
        if now >= expiresAt as real - 240.0 { break; }
        var stopped: bool := *;
        if stopped { break; }
        now := now + 1.0;
        n := n + 1;
      }
      var _ := Observe();
      confirmed := Cleanup();
    }
  }
}
