/** The native dispatch handshake over files that the environment may create or alter at any step.  The
    log records, in order, what this owner read and what it created. */
module NativeDispatch {
  import opened Options
  import opened Raises

  datatype Phase = Prewarm | Dispatch

  /** The run, plan version, process and generation every handshake value must repeat. */
  datatype Identity = Identity(run: string, owner: string, generation: string)

  datatype Outcome = Dispatched | Stopped | UnknownOutcome | OtherOutcome

  /** A handshake file's contents, as far as its shape and types are the expected ones. */
  datatype Value =
    | Owner(identity: Identity, active: bool, ownerDeadline: int)
    | Ready(identity: Identity, ready: bool)
    | Challenge(identity: Identity, phase: Phase, nonce: string, deadline: int)
    | Request(identity: Identity, action: string, deadlineUnix: int, requestedInputCount: int)
    | Ack(identity: Identity, outcome: Outcome, requested: int, actual: Option<int>)
    | Target(run: string, expiresAt: int)
    | Malformed

  datatype File = OwnerFile | ReadyFile | InvokeFile | AttemptedFile | AckFile | OperatorStop
                | ChallengeFile(phase: Phase) | ResponseFile(phase: Phase) | TargetFile | StatusFile | StopFile

  datatype Step = Read(file: File, value: Value) | Clocked(now: int) | Created(file: File, value: Value)

  const ACTION: string := "invoke_characterize_synthetic_post_v1_once"

  predicate Nonce(s: string) {
    |s| == 32 && forall i :: 0 <= i < |s| ==> '0' <= s[i] <= '9' || 'a' <= s[i] <= 'f'
  }

  /** An acknowledgement the owner accepts: its counts agree with its outcome. */
  predicate AcceptableAck(v: Value, identity: Identity) {
    && v.Ack? && v.identity == identity && v.requested == 1
    && match v.outcome
       case Dispatched => v.actual == Some(1)
       case Stopped => v.actual == Some(0)
       case UnknownOutcome => v.actual == None || v.actual == Some(1)
       case OtherOutcome => false
  }

  // ---------- What the log may hold ----------

  /** The one request this owner can publish. */
  predicate OwnRequest(v: Value, identity: Identity) {
    v.Request? && v.identity == identity && v.action == ACTION && v.requestedInputCount == 1
  }

  /** A response repeats a challenge of its own phase that was fresh when it was judged, due within ten seconds
      of a clock reading, and still not due at a reading taken last of all; a dispatch response moreover
      follows a read in which the attempted marker and the published request were both this owner's request,
      and is due no later than the request. */
  ghost predicate Answered(identity: Identity, before: seq<Step>, phase: Phase, response: Value) {
    && response.Challenge? && response.identity == identity && response.phase == phase && Nonce(response.nonce)
    && Read(ChallengeFile(phase), response) in before
    && (exists now :: Clocked(now) in before && now < response.deadline <= now + 10)
    && before[|before| - 1].Clocked? && before[|before| - 1].now < response.deadline
    && (phase == Dispatch ==>
          exists request :: OwnRequest(request, identity) && Created(InvokeFile, request) in before
            && Read(AttemptedFile, request) in before && Read(InvokeFile, request) in before
            && response.deadline <= request.deadlineUnix)
  }

  ghost predicate NotCreated(log: seq<Step>, file: File) {
    forall j :: 0 <= j < |log| && log[j].Created? ==> log[j].file != file
  }

  ghost predicate Legal(identity: Identity, before: seq<Step>, step: Step) {
    step.Created? ==>
      match step.file
      case InvokeFile => NotCreated(before, InvokeFile) && OwnRequest(step.value, identity)
      case ResponseFile(phase) => NotCreated(before, step.file) && Answered(identity, before, phase, step.value)
      case StopFile => true
      case _ => false
  }

  ghost predicate Lawful(identity: Identity, log: seq<Step>) {
    forall i :: 0 <= i < |log| ==> Legal(identity, log[..i], log[i])
  }

  lemma LawfulAppend(identity: Identity, log: seq<Step>, step: Step)
    requires Lawful(identity, log) && Legal(identity, log, step)
    ensures Lawful(identity, log + [step])
  {
    forall i | 0 <= i < |log| + 1 ensures Legal(identity, (log + [step])[..i], (log + [step])[i]) {
      assert (log + [step])[..i] == log[..i];
      if i == |log| { assert log[..i] == log; }
    }
  }

  /** At most one request is ever published, and each phase is answered at most once. */
  lemma CreatedOnce(identity: Identity, log: seq<Step>, i: nat, j: nat)
    requires Lawful(identity, log) && i < j < |log| && log[i].Created? && log[j].Created?
    requires log[j].file == InvokeFile || log[j].file.ResponseFile?
    ensures log[i].file != log[j].file
  {
    assert Legal(identity, log[..j], log[j]);
    assert log[..j][i] == log[i];
  }

  /** What a confirmed dispatch rests on: exactly one published request; the attempted marker read back
      equal to it; this owner's answer to a dispatch challenge; then an acknowledgement of one input. */
  ghost predicate Confirmed(identity: Identity, log: seq<Step>, request: Value) {
    && OwnRequest(request, identity)
    && Created(InvokeFile, request) in log
    && Read(AttemptedFile, request) in log
    && (exists response :: Created(ResponseFile(Dispatch), response) in log)
    && (exists ack :: AcceptableAck(ack, identity) && ack.outcome == Dispatched && Read(AckFile, ack) in log)
  }

  /** The published request is unique, so a confirmed dispatch names the only one; and the owner's answer to
      the dispatch challenge came after it was published and marked. */
  lemma ConfirmedRequestIsTheOne(identity: Identity, log: seq<Step>, request: Value, other: Value)
    returns (published: nat, answered: nat)
    requires Lawful(identity, log) && Confirmed(identity, log, request)
    ensures Created(InvokeFile, other) in log ==> other == request
    ensures published < answered < |log| && log[published] == Created(InvokeFile, request)
    ensures log[answered].Created? && log[answered].file == ResponseFile(Dispatch)
    ensures Read(AttemptedFile, request) in log[..answered] && Read(ChallengeFile(Dispatch), log[answered].value) in log[..answered]
    ensures log[answered].value.Challenge? && log[answered].value.deadline <= request.deadlineUnix
    ensures answered > 0 && log[answered - 1].Clocked? && log[answered - 1].now < log[answered].value.deadline
  {
    hide Lawful, Legal, NotCreated;
    published :| 0 <= published < |log| && log[published] == Created(InvokeFile, request);
    if Created(InvokeFile, other) in log {
      var k :| 0 <= k < |log| && log[k] == Created(InvokeFile, other);
      OnePublication(identity, log, published, k);
    }
    var response :| Created(ResponseFile(Dispatch), response) in log;
    answered :| 0 <= answered < |log| && log[answered] == Created(ResponseFile(Dispatch), response);
    AnswerLaw(identity, log, answered);
    var earlier :| OwnRequest(earlier, identity) && Created(InvokeFile, earlier) in log[..answered]
                   && Read(AttemptedFile, earlier) in log[..answered] && Read(InvokeFile, earlier) in log[..answered]
                   && response.deadline <= earlier.deadlineUnix;
    var k :| 0 <= k < answered && log[..answered][k] == Created(InvokeFile, earlier);
    OnePublication(identity, log, published, k);
  }

  lemma OnePublication(identity: Identity, log: seq<Step>, i: nat, j: nat)
    requires Lawful(identity, log) && i < |log| && j < |log|
    requires log[i].Created? && log[i].file == InvokeFile && log[j].Created? && log[j].file == InvokeFile
    ensures i == j
  {
    if i < j { CreatedOnce(identity, log, i, j); }
    if j < i { CreatedOnce(identity, log, j, i); }
  }

  lemma AnswerLaw(identity: Identity, log: seq<Step>, i: nat)
    requires Lawful(identity, log) && i < |log| && log[i].Created? && log[i].file == ResponseFile(Dispatch)
    ensures Answered(identity, log[..i], Dispatch, log[i].value)
  {
    assert Legal(identity, log[..i], log[i]);
  }

  // ---------- The owner ----------

  /** What the stop check finds around it: the clocks, the process, and any stop file. */
  datatype Surroundings = Surroundings(now: int, elapsed: int, finite: bool, sameProcess: bool, stopFile: bool)

  predicate Healthy(around: Surroundings, previous: int, deadline: int) {
    && around.finite && around.sameProcess && !around.stopFile
    && previous <= around.now < deadline && 0 <= around.elapsed < 960
  }

  class NativeFiles {
    const identity: Identity
    const deadline: int
    var latched: bool
    var attempted: bool
    var requestPublished: bool
    var acknowledged: bool
    var actualInputCount: Option<int>
    var resourceExpiry: int
    var previous: int
    var checkpoints: set<Phase>
    ghost var log: seq<Step>
    ghost var slept: nat

    constructor (identity: Identity, now: int)
      ensures Valid() && this.identity == identity && deadline == now + 960
      ensures !latched && !attempted && !requestPublished && checkpoints == {} && log == [] && slept == 0
    {
      this.identity, deadline, previous := identity, now + 960, now;
      latched, attempted, requestPublished, acknowledged := false, false, false, false;
      actualInputCount, resourceExpiry, checkpoints, log, slept := Some(0), 0, {}, [], 0;
    }

    /** The flags agree with the log: a request in the log was recorded first; a remembered phase was answered;
        a count of zero means no request, or an acceptable acknowledgement that said stopped. */
    ghost predicate Recorded()
      reads this`log, this`requestPublished, this`attempted, this`checkpoints, this`actualInputCount
    {
      && Lawful(identity, log)
      && (requestPublished ==> attempted)
      && (!requestPublished ==> NotCreated(log, InvokeFile))
      && (forall phase :: phase in checkpoints ==> exists v :: Created(ResponseFile(phase), v) in log)
      && (actualInputCount == Some(0) ==>
            !requestPublished || exists ack :: AcceptableAck(ack, identity) && ack.outcome == Stopped && Read(AckFile, ack) in log)
    }

    /** Moreover an answered phase is remembered, unless the owner has latched its stop. */
    ghost predicate Valid()
      reads this`log, this`requestPublished, this`attempted, this`checkpoints, this`actualInputCount, this`latched
    {
      Recorded() && forall phase :: phase !in checkpoints && !latched ==> NotCreated(log, ResponseFile(phase))
    }

    /** The log only grows and the stop latch never clears. */
    twostate predicate Onward()
      reads this
    {
      old(log) <= log && (old(latched) ==> latched) && old(checkpoints) <= checkpoints
    }

    /** Whatever the environment has put there. */
    method ReadFile(file: File) returns (r: Flow<Value>)
      requires Valid()
      modifies this`log
      ensures Valid() && old(log) <= log && (r.Ok? ==> log == old(log) + [Read(file, r.value)])
      ensures r.Raised? ==> log == old(log)
    {
      var present: bool, value: Value := *, *;
      if !present { return Raised; }
      ghost var before := log;
      LawfulAppend(identity, log, Read(file, value));
      log := log + [Read(file, value)];
      ReadKeeps(before, Read(file, value));
      return Ok(value);
    }

    /** A clock reading that a later step answers for. */
    method ReadClock() returns (now: int)
      requires Valid()
      modifies this`log
      ensures Valid() && log == old(log) + [Clocked(now)]
    {
      now := *;
      ghost var before := log;
      LawfulAppend(identity, log, Clocked(now));
      log := log + [Clocked(now)];
      ReadKeeps(before, Clocked(now));
    }

    lemma ReadKeeps(before: seq<Step>, seen: Step)
      requires !seen.Created?
      ensures forall f :: NotCreated(before, f) ==> NotCreated(before + [seen], f)
      ensures forall step :: step in before ==> step in before + [seen]
    {
    }

    /** Exclusive creation: it may fail before or after the file became visible. */
    method Create(file: File, value: Value) returns (r: Flow<()>)
      requires Valid() && Legal(identity, log, Created(file, value)) && (file == InvokeFile ==> requestPublished)
      modifies this`log
      ensures Lawful(identity, log) && (log == old(log) || log == old(log) + [Created(file, value)])
      ensures r.Ok? ==> log == old(log) + [Created(file, value)]
    {
      var visible: bool, fails: bool := *, *;
      if !visible { return Raised; }
      LawfulAppend(identity, log, Created(file, value));
      log := log + [Created(file, value)];
      return if fails then Raised else Ok(());
    }

    method Latch()
      requires Recorded()
      modifies this`latched
      ensures Valid() && latched
    {
      latched := true;
    }

    /** The owner file as this owner wrote it. */
    function OwnFile(): Value { Owner(identity, true, deadline) }

    /** The stop check.  It passes exactly when the stop was not latched, the owner file reads as this owner wrote
        it, and the surroundings are healthy; any doubt latches the stop. */
    method StopRequested(around: Surroundings) returns (stop: bool)
      requires Valid()
      modifies this`latched, this`previous, this`log
      ensures Valid() && Onward() && stop == latched
      ensures stop <==> old(latched) || !Healthy(around, old(previous), deadline) || log != old(log) + [Read(OwnerFile, OwnFile())]
    {
      if latched { return true; }
      var owner := ReadFile(OwnerFile);
      if owner.Raised? { latched := true; return true; }
      assert log[|old(log)|] == Read(OwnerFile, owner.value);
      if owner.value != OwnFile() || !Healthy(around, previous, deadline) { latched := true; }
      previous := around.now;
      return latched;
    }

    /** Answer one fresh challenge, at most once a phase; anything amiss latches the stop and raises. */
    method ServiceCheckpoint(phase: Phase, request: Option<Value>) returns (r: Flow<()>)
      requires Valid()
      requires request.Some? ==> OwnRequest(request.value, identity) && Created(InvokeFile, request.value) in log
      modifies this`latched, this`previous, this`log, this`checkpoints
      ensures Valid() && Onward() && (r.Raised? ==> latched) && (r.Ok? && !old(latched) ==> !latched)
    {
      hide Recorded, NotCreated;
      var present: bool := *;
      if !present { return Ok(()); }
      r := Answer(phase, request);
      if r.Raised? { Latch(); }
    }

    method Answer(phase: Phase, request: Option<Value>) returns (r: Flow<()>)
      requires Valid()
      requires request.Some? ==> OwnRequest(request.value, identity) && Created(InvokeFile, request.value) in log
      modifies this`latched, this`previous, this`log, this`checkpoints
      ensures Onward()
      ensures r.Ok? ==> Valid() && !latched
      ensures r.Raised? ==> Recorded()
    {
      hide Recorded, Lawful, Answered, NotCreated;
      var challenge :- ReadFile(ChallengeFile(phase));
      ghost var first := log;
      assert Read(ChallengeFile(phase), challenge) in first;
      var now := ReadClock();
      ghost var clocked := log;
      assert clocked[|clocked| - 1] == Clocked(now);
      var around: Surroundings := *;
      var stop := StopRequested(around);
      if stop || !challenge.Challenge? || challenge.identity != identity || challenge.phase != phase || !Nonce(challenge.nonce)
         || !(now < challenge.deadline <= (if now + 10 < deadline then now + 10 else deadline)) {
        return Raised;
      }
      if phase == Dispatch {
        var marker :- ReadFile(AttemptedFile);
        ghost var second := log;
        var published :- ReadFile(InvokeFile);
        if request.None? || challenge.deadline > request.value.deadlineUnix || published != request.value || marker != request.value {
          return Raised;
        }
        assert second[|second| - 1] == Read(AttemptedFile, request.value) && log[|log| - 1] == Read(InvokeFile, request.value);
        Persists(second, log, Read(AttemptedFile, request.value));
      }
      Persists(first, log, Read(ChallengeFile(phase), challenge));
      Persists(clocked, log, Clocked(now));
      if phase in checkpoints {
        var response :- ReadFile(ResponseFile(phase));
        return if response != challenge then Raised else Ok(());
      }
      assert Judged(log, phase, request, challenge);
      r := Respond(phase, request, challenge);
    }

    lemma Persists(before: seq<Step>, after: seq<Step>, step: Step)
      requires before <= after && step in before
      ensures step in after
    {
      var i :| 0 <= i < |before| && before[i] == step;
      assert after[i] == step;
    }

    /** A challenge found correlated and fresh, and for a dispatch matched by this owner's request. */
    ghost predicate Judged(seen: seq<Step>, phase: Phase, request: Option<Value>, challenge: Value) {
      && challenge.Challenge? && challenge.identity == identity && challenge.phase == phase && Nonce(challenge.nonce)
      && Read(ChallengeFile(phase), challenge) in seen
      && (exists now :: Clocked(now) in seen && now < challenge.deadline <= now + 10)
      && (phase == Dispatch ==>
            request.Some? && OwnRequest(request.value, identity) && Created(InvokeFile, request.value) in seen
            && Read(AttemptedFile, request.value) in seen && Read(InvokeFile, request.value) in seen
            && challenge.deadline <= request.value.deadlineUnix)
    }

    lemma JudgedIsAnswered(seen: seq<Step>, now: seq<Step>, phase: Phase, request: Option<Value>, challenge: Value)
      requires seen <= now && Judged(seen, phase, request, challenge)
      requires now != [] && now[|now| - 1].Clocked? && now[|now| - 1].now < challenge.deadline
      ensures Answered(identity, now, phase, challenge)
    {
      Persists(seen, now, Read(ChallengeFile(phase), challenge));
      var judged :| Clocked(judged) in seen && judged < challenge.deadline <= judged + 10;
      Persists(seen, now, Clocked(judged));
      if phase == Dispatch {
        Persists(seen, now, Created(InvokeFile, request.value));
        Persists(seen, now, Read(AttemptedFile, request.value));
        Persists(seen, now, Read(InvokeFile, request.value));
      }
    }

    /** The one response to a phase, on a last look at the stop, the clock and the native side. */
    method Respond(phase: Phase, request: Option<Value>, challenge: Value) returns (r: Flow<()>)
      requires Valid() && phase !in checkpoints && challenge.Challenge? && Judged(log, phase, request, challenge)
      modifies this`latched, this`previous, this`log, this`checkpoints
      ensures Onward()
      ensures r.Ok? ==> Valid() && !latched
      ensures r.Raised? ==> Recorded()
    {
      hide Recorded, Lawful, Answered, Judged;
      ghost var before := log;
      var present: bool, around: Surroundings := *, *;
      var stop := StopRequested(around);
      if present || stop { return Raised; }
      var now := ReadClock();
      var statusExists: bool := *;
      if now >= challenge.deadline || statusExists { return Raised; }
      assert log[|log| - 1] == Clocked(now);
      JudgedIsAnswered(before, log, phase, request, challenge);
      r := CreateResponse(phase, challenge);
    }

    method CreateResponse(phase: Phase, challenge: Value) returns (r: Flow<()>)
      requires Valid() && !latched && phase !in checkpoints && Answered(identity, log, phase, challenge)
      modifies this`log, this`checkpoints
      ensures old(log) <= log && old(checkpoints) <= checkpoints
      ensures r.Ok? ==> Valid() && log == old(log) + [Created(ResponseFile(phase), challenge)]
      ensures r.Raised? ==> Recorded()
    {
      hide Lawful, Answered;
      ghost var ready := log;
      var created := Create(ResponseFile(phase), challenge);
      CreatedKeeps(ready, ResponseFile(phase), challenge);
      if created.Raised? { return Raised; }
      checkpoints := checkpoints + {phase};
      assert log[|log| - 1] == Created(ResponseFile(phase), challenge);
      return Ok(());
    }

    lemma CreatedKeeps(before: seq<Step>, file: File, value: Value)
      ensures forall f :: f != file && NotCreated(before, f) ==> NotCreated(before + [Created(file, value)], f)
      ensures forall step :: step in before ==> step in before + [Created(file, value)]
    {
    }

    /** Before the first provider operation: the native side is ready only after this owner answered its
        prewarm challenge; otherwise the stop is latched. */
    method WaitReady() returns (r: Flow<()>)
      requires Valid()
      modifies this`latched, this`previous, this`log, this`checkpoints, this`slept
      ensures Valid() && Onward()
      ensures r.Ok? ==> Prewarm in checkpoints && Read(ReadyFile, Ready(identity, true)) in log
      ensures r.Raised? ==> latched
    {
      hide Recorded;
      var n := 0;
      while n < 31
        invariant Valid() && Onward()
      {
        var around: Surroundings := *;
        var stop := StopRequested(around);
        var elapsed: int := *;
        if stop || elapsed >= 30 { break; }
        var serviced := ServiceCheckpoint(Prewarm, None);
        if serviced.Raised? { return Raised; }
        var present: bool := *;
        if present {
          var value := ReadFile(ReadyFile);
          if value.Ok? && value.value == Ready(identity, true) && Prewarm in checkpoints {
            assert log[|log| - 1] == Read(ReadyFile, value.value);
            return Ok(());
          }
          break;
        }
        slept := slept + 1;
        n := n + 1;
      }
      Latch();
      return Raised;
    }

    /** Publish the request and wait for its acknowledgement: true only for a confirmed single input. */
    method PublishAndWait(request: Value) returns (r: Flow<bool>)
      requires Valid() && requestPublished && attempted && NotCreated(log, InvokeFile) && OwnRequest(request, identity)
      requires actualInputCount == None
      modifies this`latched, this`previous, this`log, this`checkpoints, this`slept, this`acknowledged, this`actualInputCount
      ensures Valid() && Onward() && slept <= old(slept) + 31
      ensures r == Ok(true) ==> !latched && acknowledged && actualInputCount == Some(1) && Confirmed(identity, log, request)
    {
      hide Recorded, Confirmed;
      var _ :- Publish(request);
      r := Wait(request);
    }

    method Publish(request: Value) returns (r: Flow<()>)
      requires Valid() && requestPublished && NotCreated(log, InvokeFile) && OwnRequest(request, identity)
      modifies this`log
      ensures Valid() && old(log) <= log && (r.Ok? ==> Created(InvokeFile, request) in log)
    {
      hide Lawful, NotCreated, Answered, AcceptableAck;
      ghost var before := log;
      r := Create(InvokeFile, request);
      CreatedKeeps(before, InvokeFile, request);
      if r.Ok? { assert log[|log| - 1] == Created(InvokeFile, request); }
    }

    method Wait(request: Value) returns (r: Flow<bool>)
      requires Valid() && requestPublished && OwnRequest(request, identity) && Created(InvokeFile, request) in log
      requires actualInputCount == None
      modifies this`latched, this`previous, this`log, this`checkpoints, this`slept, this`acknowledged, this`actualInputCount
      ensures Valid() && Onward() && slept <= old(slept) + 31
      ensures r == Ok(true) ==> !latched && acknowledged && actualInputCount == Some(1) && Confirmed(identity, log, request)
    {
      hide Recorded, NotCreated, Confirmed;
      ghost var published := log;
      var n := 0;
      while n < 31
        invariant 0 <= n <= 31 && Valid() && Onward() && published <= log && slept <= old(slept) + n && actualInputCount == None
      {
        var around: Surroundings := *;
        var stop := StopRequested(around);
        var now: int, elapsed: int := *, *;
        if stop || now >= request.deadlineUnix || elapsed >= 30 { break; }
        Persists(published, log, Created(InvokeFile, request));
        var _ :- ServiceCheckpoint(Dispatch, Some(request));
        var present: bool := *;
        if present {
          var confirmed := ReadAcknowledgement(request, published);
          return Ok(confirmed);
        }
        slept := slept + 1;
        n := n + 1;
      }
      return Ok(false);
    }

    /** One look at the acknowledgement and the attempted marker. */
    method ReadAcknowledgement(request: Value, ghost published: seq<Step>) returns (confirmed: bool)
      requires Valid() && !latched && requestPublished && OwnRequest(request, identity)
      requires published <= log && Created(InvokeFile, request) in published && actualInputCount == None
      modifies this`log, this`acknowledged, this`actualInputCount
      ensures Valid() && Onward()
      ensures confirmed ==> acknowledged && actualInputCount == Some(1) && Confirmed(identity, log, request)
    {
      hide Lawful, NotCreated, Answered;
      var ack := ReadFile(AckFile);
      if ack.Raised? { return false; }
      ghost var first := log;
      assert first[|first| - 1] == Read(AckFile, ack.value);
      var marker := ReadFile(AttemptedFile);
      if marker.Raised? { return false; }
      if !AcceptableAck(ack.value, identity) || Dispatch !in checkpoints || marker.value != request { return false; }
      Persists(first, log, Read(AckFile, ack.value));
      Persists(published, log, Created(InvokeFile, request));
      assert log[|log| - 1] == Read(AttemptedFile, request);
      acknowledged := true;
      actualInputCount := ack.value.actual;
      return ack.value.outcome == Dispatched;
    }

    /** The stop file, best effort, and a bounded wait for the native side to end. */
    method StopAndGrace()
      requires Valid()
      modifies this`log, this`slept
      ensures Valid() && old(log) <= log && slept <= old(slept) + 21
    {
      var present: bool := *;
      if !present {
        ghost var before := log;
        var _ := Create(StopFile, Malformed);
        CreatedKeeps(before, StopFile, Malformed);
      }
      var n := 0;
      while n < 21
        invariant 0 <= n <= 21 && Valid() && old(log) <= log && slept <= old(slept) + n
      {
        var now: int, until: int, elapsed: int, ended: bool := *, *, *, *;
        if now >= until || elapsed >= 20 || ended { break; }
        slept := slept + 1;
        n := n + 1;
      }
    }

    /** The one attempt, before anything else of the invocation. */
    method RecordAttempt()
      requires Valid() && !attempted
      modifies this`attempted
      ensures Valid() && attempted && !requestPublished
    {
      attempted := true;
    }

    /** The possible input, recorded before the request can become visible. */
    method RecordPublication()
      requires Valid() && attempted && !requestPublished
      modifies this`requestPublished, this`actualInputCount
      ensures Valid() && requestPublished && actualInputCount == None && NotCreated(log, InvokeFile)
    {
      hide Lawful;
      requestPublished, actualInputCount := true, None;
    }

    /** The invocation: one attempt for the owner's life, at most one request, and a normal return only on a
        confirmed dispatch of exactly one input. */
    method InvokeNative(pathsValid: bool) returns (r: Flow<()>)
      requires Valid()
      modifies this
      ensures Valid() && Onward() && (attempted || latched)
      ensures old(attempted || latched) ==> r.Raised? && latched && requestPublished == old(requestPublished)
      ensures r.Ok? ==> !latched && acknowledged && actualInputCount == Some(1) && exists request :: Confirmed(identity, log, request)
      ensures r.Raised? && requestPublished ==> latched
      ensures slept <= old(slept) + 52
    {
      hide Recorded, NotCreated, Confirmed, AcceptableAck;
      if attempted { Latch(); return Raised; }
      var around: Surroundings := *;
      var stop := StopRequested(around);
      if stop { return Raised; }
      RecordAttempt();
      if !pathsValid { Latch(); return Raised; }
      var target :- ReadFile(TargetFile);
      if !target.Target? { return Raised; }
      if target.run != identity.run { Latch(); return Raised; }
      resourceExpiry := target.expiresAt;
      var stale: bool := *;
      around := *;
      stop := StopRequested(around);
      if stale || stop { Latch(); return Raised; }
      var now: int := *;
      var request := Request(identity, ACTION, if now + 30 < deadline then now + 30 else deadline, 1);
      RecordPublication();
      var confirmed := PublishAndWait(request);
      if confirmed == Ok(true) { return Ok(()); }
      Latch();
      StopAndGrace();
      return Raised;
    }
  }

  /** Any use of one owner, in any order, against any environment: the log stays lawful, so at most one
      request is ever published, and a reported count of zero means what it says. */
  method AnyUse(identity: Identity, now: int) returns (owner: NativeFiles)
    ensures owner.Valid() && owner.identity == identity
    ensures forall i, j :: 0 <= i < j < |owner.log| && owner.log[i].Created? && owner.log[j].Created? ==>
              !(owner.log[i].file == InvokeFile && owner.log[j].file == InvokeFile)
    ensures owner.actualInputCount == Some(0) ==>
              NotCreated(owner.log, InvokeFile)
              || exists ack :: AcceptableAck(ack, identity) && ack.outcome == Stopped && Read(AckFile, ack) in owner.log
  {
    owner := new NativeFiles(identity, now);
    var steps: int := *;
    while steps > 0
      invariant owner.Valid()
    {
      var choice: int := *;
      if choice == 0 {
        var around: Surroundings := *;
        var _ := owner.StopRequested(around);
      } else if choice == 1 {
        var _ := owner.WaitReady();
      } else {
        var pathsValid: bool := *;
        var _ := owner.InvokeNative(pathsValid);
      }
      steps := steps - 1;
    }
    forall i, j | 0 <= i < j < |owner.log| && owner.log[i].Created? && owner.log[j].Created?
      ensures !(owner.log[i].file == InvokeFile && owner.log[j].file == InvokeFile)
    {
      if owner.log[j].file == InvokeFile { CreatedOnce(identity, owner.log, i, j); }
    }
  }
}
