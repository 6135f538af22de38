/** The Workers adapter that acts only on identities it saw created, or was handed by an
    authenticated receipt.  Replies are arbitrary.  The wire trace records every request, every
    answer accepted from the transport and every identity registered. */
module WorkerIdentity {
  import opened Options

  /** A call's end: a value, a refusal before anything was sent, or an unknown outcome. */
  datatype Outcome<+T> = Ok(value: T) | Refused | Unknown
  {
    predicate IsFailure() { !Ok? }
    function PropagateFailure<U>(): Outcome<U>
      requires IsFailure()
    { if Refused? then Refused else Unknown }
    function Extract(): T
      requires !IsFailure()
    { value }
  }

  datatype Identity = Identity(id: string, name: string, createdOn: string)

  /** A Worker as a reply describes it.  `plain` stands for logpush, tags, tail consumers and
      observability being off and every reference list empty; a flag that is no boolean is `None`. */
  datatype View = View(identity: Identity, plain: bool, enabled: Option<bool>, previews: Option<bool>)

  datatype Verb = Post(name: string) | Get(id: string) | Patch(id: string) | Delete(id: string)

  datatype Wire =
    | Sent(verb: Verb, key: string)
    | Answered(verb: Verb, status: int, view: Option<View>)
    | Registered(identity: Identity, restored: bool)

  datatype Receipt = Absent | DisableAcknowledged | DeletionAcknowledged

  predicate Hex(s: string) {
    |s| == 32 && (forall i :: 0 <= i < 32 ==> '0' <= s[i] <= '9' || 'a' <= s[i] <= 'f')
    && exists i :: 0 <= i < 32 && s[i] != '0'
  }

  // ---------- The law of the wire ----------

  predicate Owned(t: seq<Wire>, identity: Identity) {
    Registered(identity, true) in t || Registered(identity, false) in t
  }

  predicate Consumed(t: seq<Wire>, name: string) {
    exists i :: 0 <= i < |t| && ((t[i].Sent? && t[i].verb == Post(name)) || (t[i].Registered? && t[i].identity.name == name))
  }

  predicate KeyUsed(t: seq<Wire>, key: string) {
    exists i :: 0 <= i < |t| && t[i].Sent? && t[i].key == key
  }

  /** The last thing on the wire is a read of this very identity. */
  predicate JustRead(t: seq<Wire>, identity: Identity) {
    t != [] && t[|t| - 1].Answered? && t[|t| - 1].verb == Get(identity.id)
    && t[|t| - 1].view.Some? && t[|t| - 1].view.value.identity == identity
  }

  predicate ReadDisabled(t: seq<Wire>) {
    t != [] && t[|t| - 1].Answered? && t[|t| - 1].view.Some?
    && t[|t| - 1].view.value.enabled == Some(false) && t[|t| - 1].view.value.previews == Some(false)
  }

  ghost predicate Legal(names: set<string>, before: seq<Wire>, w: Wire) {
    match w
    case Sent(verb, key) =>
      && !KeyUsed(before, key)
      && (verb.Post? ==> verb.name in names && !Consumed(before, verb.name))
      && (verb.Get? ==> exists x :: Owned(before, x) && x.id == verb.id)
      && (verb.Patch? ==> exists x :: Owned(before, x) && x.id == verb.id && JustRead(before, x))
      && (verb.Delete? ==> exists x :: Owned(before, x) && x.id == verb.id && JustRead(before, x) && ReadDisabled(before))
    case Answered(verb, _, _) =>
      before != [] && before[|before| - 1].Sent? && before[|before| - 1].verb == verb
    case Registered(x, restored) =>
      && x.name in names && Hex(x.id)
      && (forall y :: Owned(before, y) && y.id == x.id ==> y == x)
      && (!restored ==> !Owned(before, x) && before != [] && before[|before| - 1].Answered?
                        && before[|before| - 1].verb == Post(x.name)
                        && before[|before| - 1].view.Some? && before[|before| - 1].view.value.identity == x)
  }

  ghost predicate Lawful(names: set<string>, t: seq<Wire>) {
    forall i :: 0 <= i < |t| ==> Legal(names, t[..i], t[i])
  }

  lemma LawfulAppend(names: set<string>, t: seq<Wire>, w: Wire)
    requires Lawful(names, t) && Legal(names, t, w)
    ensures Lawful(names, t + [w])
  {
    forall i | 0 <= i < |t| + 1 ensures Legal(names, (t + [w])[..i], (t + [w])[i]) {
      assert (t + [w])[..i] == t[..i];
      if i == |t| { assert t[..i] == t; }
    }
  }

  // ---------- What lawful wires guarantee ----------

  /** A name is posted at most once, and never after an identity of that name was restored. */
  lemma NamePostedOnce(names: set<string>, t: seq<Wire>, i: nat, j: nat)
    requires Lawful(names, t) && i < j < |t| && t[j].Sent? && t[j].verb.Post?
    ensures t[i].Sent? ==> t[i].verb != t[j].verb
    ensures t[i].Registered? ==> t[i].identity.name != t[j].verb.name
  {
    assert Legal(names, t[..j], t[j]);
    assert t[..j][i] == t[i];
  }

  /** Two registrations of one id are the same identity: an id never changes its owner. */
  lemma OneIdentityPerId(names: set<string>, t: seq<Wire>, x: Identity, y: Identity)
    requires Lawful(names, t) && Owned(t, x) && Owned(t, y) && x.id == y.id
    ensures x == y
  {
    var i :| 0 <= i < |t| && t[i].Registered? && t[i].identity == x;
    var j :| 0 <= j < |t| && t[j].Registered? && t[j].identity == y;
    assert Legal(names, t[..i], t[i]) && Legal(names, t[..j], t[j]);
    if i < j { assert t[..j][i] == t[i] && Owned(t[..j], x); }
    if j < i { assert t[..i][j] == t[j] && Owned(t[..i], y); }
  }

  /** Where an identity came from: handed over as a restored receipt, or created here, by the one POST
      of its name, whose answer carried exactly that identity. */
  predicate Provenance(t: seq<Wire>, i: nat, identity: Identity)
    requires i < |t|
  {
    && t[i].Registered? && t[i].identity == identity
    && (t[i].restored
        || (2 <= i && t[i - 2].Sent? && t[i - 2].verb == Post(identity.name)
            && t[i - 1].Answered? && t[i - 1].verb == Post(identity.name)
            && t[i - 1].view.Some? && t[i - 1].view.value.identity == identity))
  }

  lemma RegistrationLaw(names: set<string>, t: seq<Wire>, i: nat)
    requires Lawful(names, t) && i < |t| && t[i].Registered?
    ensures Provenance(t, i, t[i].identity)
  {
    assert Legal(names, t[..i], t[i]);
    if !t[i].restored {
      assert t[..i][i - 1] == t[i - 1] && Legal(names, t[..i - 1], t[i - 1]);
      assert t[..i - 1][i - 2] == t[i - 2];
    }
  }

  /** Every mutation of an existing Worker is addressed to an acknowledged identity, and directly follows
      a read that still showed that identity; a deletion moreover follows a read that showed access off. */
  lemma MutationsStayInScope(names: set<string>, t: seq<Wire>, i: nat) returns (identity: Identity, origin: nat)
    requires Lawful(names, t) && i < |t| && t[i].Sent? && (t[i].verb.Patch? || t[i].verb.Delete?)
    ensures t[i].verb.id == identity.id
    ensures origin < i && Provenance(t, origin, identity)
    ensures i >= 2 && t[i - 2].Sent? && t[i - 2].verb == Get(identity.id)
    ensures t[i - 1].Answered? && t[i - 1].view.Some? && t[i - 1].view.value.identity == identity
    ensures t[i].verb.Delete? ==> t[i - 1].view.value.enabled == Some(false) && t[i - 1].view.value.previews == Some(false)
  {
    hide Lawful, Legal;
    var before := t[..i];
    identity, origin := MutationLaw(names, t, i);
    RegistrationLaw(names, t, origin);
    AnswerLaw(names, t, i - 1);
  }

  lemma MutationLaw(names: set<string>, t: seq<Wire>, i: nat) returns (identity: Identity, origin: nat)
    requires Lawful(names, t) && i < |t| && t[i].Sent? && (t[i].verb.Patch? || t[i].verb.Delete?)
    ensures identity.id == t[i].verb.id && JustRead(t[..i], identity)
    ensures t[i].verb.Delete? ==> ReadDisabled(t[..i])
    ensures origin < i && t[origin].Registered? && t[origin].identity == identity
  {
    hide Lawful;
    LegalAt(names, t, i);
    var before := t[..i];
    identity :| Owned(before, identity) && identity.id == t[i].verb.id && JustRead(before, identity);
    origin :| 0 <= origin < i && before[origin].Registered? && before[origin].identity == identity;
  }

  lemma LegalAt(names: set<string>, t: seq<Wire>, i: nat)
    requires Lawful(names, t) && i < |t|
    ensures Legal(names, t[..i], t[i])
  {
  }

  lemma AnswerLaw(names: set<string>, t: seq<Wire>, i: nat)
    requires Lawful(names, t) && i < |t| && t[i].Answered?
    ensures i > 0 && t[i - 1].Sent? && t[i - 1].verb == t[i].verb
  {
    hide Lawful;
    LegalAt(names, t, i);
  }

  // ---------- The shared HTTP provider ----------

  /** The request gate: a closed latch, once-only keys, and whatever the transport brings back. */
  class CloudflareProvider {
    const names: set<string>
    var closed: bool
    var keys: set<string>
    var lastStatus: Option<int>
    ghost var trace: seq<Wire>

    constructor (names: set<string>)
      ensures this.names == names && !closed && keys == {} && trace == []
    {
      this.names, closed, keys, lastStatus, trace := names, false, {}, None, [];
    }

    ghost predicate Valid()
      reads this
    {
      Lawful(names, trace) && forall key :: KeyUsed(trace, key) ==> key in keys
    }

    /** One request.  A refusal sends nothing; anything the caller may not rely on closes the gate. */
    method Request(verb: Verb, key: string) returns (r: Outcome<Option<View>>)
      requires Valid() && (KeyUsed(trace, key) || Legal(names, trace, Sent(verb, key)))
      modifies this
      ensures Valid()
      ensures r.Refused? ==> trace == old(trace)
      ensures r.Unknown? ==> closed && trace == old(trace) + [Sent(verb, key)]
      ensures r.Ok? ==> lastStatus.Some?
                        && trace == old(trace) + [Sent(verb, key), Answered(verb, lastStatus.value, r.value)]
      ensures r.Ok? ==> (lastStatus == Some(404) || 200 <= lastStatus.value < 300) && (lastStatus == Some(404) ==> r.value == None)
      ensures old(closed) || key in old(keys) ==> r.Refused?
      ensures old(closed) ==> closed
      ensures old(keys) <= keys
    {
      lastStatus := None;
      var budget, admitted, inTime: bool := *, *, *;
      if closed || key == "" || key in keys || !budget { return Refused; }
      if !admitted { return Refused; }
      if !inTime { closed := true; return Refused; }
      keys := keys + {key};
      LawfulAppend(names, trace, Sent(verb, key));
      ghost var sent := trace + [Sent(verb, key)];
      trace := sent;
      var answered, settled: bool, status: int, success: bool, result: Option<View> := *, *, *, *, *;
      if !answered { closed := true; return Unknown; }
      lastStatus := Some(status);
      if status != 404 && (!(200 <= status < 300) || !success) { closed := true; return Unknown; }
      if !settled { closed := true; return Unknown; }
      var value := if status == 404 then None else result;
      LawfulAppend(names, sent, Answered(verb, status, value));
      trace := trace + [Answered(verb, status, value)];
      assert trace == old(trace) + [Sent(verb, key), Answered(verb, status, value)];
      return Ok(value);
    }
  }

  // ---------- The adapter ----------

  class BetaWorkerProvider {
    const provider: CloudflareProvider
    const validDate: string -> bool
    var identities: map<string, Identity>
    var createdNames: set<string>

    constructor (provider: CloudflareProvider, validDate: string -> bool)
      requires provider.Valid() && provider.trace == []
      ensures Valid() && this.provider == provider && identities == map[] && createdNames == {}
    {
      this.provider, this.validDate, identities, createdNames := provider, validDate, map[], {};
    }

    /** The identity map is exactly the identities registered on the wire, and every posted or
        registered name is consumed. */
    ghost predicate Valid()
      reads this, provider
    {
      && provider.Valid()
      && (forall id :: id in identities ==> identities[id].id == id && Hex(id) && Owned(provider.trace, identities[id]))
      && (forall x: Identity :: Owned(provider.trace, x) ==> x.id in identities && identities[x.id] == x)
      && (forall name :: Consumed(provider.trace, name) ==> name in createdNames)
    }

    ghost predicate Grown(before: seq<Wire>)
      reads provider
    {
      before <= provider.trace
    }

    /** The path of an identity: only one this adapter registered, field for field. */
    predicate InScope(identity: Identity)
      reads this
    {
      Hex(identity.id) && identity.id in identities && identities[identity.id] == identity
    }

    method Fail<T>() returns (r: Outcome<T>)
      modifies provider`closed
      ensures r.Unknown? && provider.closed
    {
      provider.closed := true;
      r := Unknown;
    }

    predicate Acceptable(view: View, name: string, expected: Option<Identity>, allowEnabled: bool, allowPreviews: bool) {
      && Hex(view.identity.id) && view.identity.name == name && validDate(view.identity.createdOn)
      && (expected.Some? ==> view.identity == expected.value)
      && view.plain
      && (!allowPreviews ==> view.previews == Some(false))
      && view.enabled.Some? && view.previews.Some?
      && (!allowEnabled ==> view.enabled == Some(false) && view.previews == Some(false))
    }

    /** Requests keep the adapter's fields in step with the wire. */
    lemma StillValid(before: seq<Wire>, more: seq<Wire>)
      requires provider.Valid() && provider.trace == before + more
      requires forall w :: w in more ==> !w.Registered? && (w.Sent? && w.verb.Post? ==> w.verb.name in createdNames)
      requires forall id :: id in identities ==> identities[id].id == id && Hex(id) && Owned(before, identities[id])
      requires forall x: Identity :: Owned(before, x) ==> x.id in identities && identities[x.id] == x
      requires forall name :: Consumed(before, name) ==> name in createdNames
      ensures Valid()
    {
      forall name | Consumed(provider.trace, name) ensures name in createdNames {
        var t := provider.trace;
        var i :| 0 <= i < |t| && ((t[i].Sent? && t[i].verb == Post(name)) || (t[i].Registered? && t[i].identity.name == name));
        if i < |before| { assert before[i] == t[i] && Consumed(before, name); } else { assert t[i] in more; }
      }
    }

    /** Creation.  The name is consumed before anything is sent, so no outcome lets it repeat. */
    method CreateWorker(name: string, key: string) returns (r: Outcome<Identity>)
      requires Valid()
      modifies this, provider
      ensures Valid() && Grown(old(provider.trace))
      ensures name in old(createdNames) || name !in provider.names ==> r.Refused? && provider.trace == old(provider.trace)
      ensures old(provider.closed) ==> !r.Ok? && provider.trace == old(provider.trace)
      ensures r.Unknown? ==> provider.closed
      ensures provider.trace != old(provider.trace) ==> name in createdNames
      ensures r.Ok? ==> identities == old(identities)[r.value.id := r.value] && r.value.id !in old(identities) && r.value.name == name
      ensures !r.Ok? ==> identities == old(identities)
    {
      hide Lawful, Legal, KeyUsed, Consumed, Acceptable;
      if name !in provider.names || name in createdNames { return Refused; }
      assert !Consumed(provider.trace, name);
      createdNames := createdNames + {name};
      var identity :- PostNamed(name, key);
      if identity.id in identities { r := Fail(); return; }
      CreationLegal(identity);
      RegisterNow(identity, false);
      identities := identities[identity.id := identity];
      return Ok(identity);
    }

    lemma CreationLegal(identity: Identity)
      requires Valid() && identity.id !in identities && identity.name in provider.names && Hex(identity.id)
      requires JustPosted(provider.trace, identity)
      ensures Legal(provider.names, provider.trace, Registered(identity, false))
    {
      hide Lawful;
      assert !Owned(provider.trace, identity);
    }

    lemma RestorationLegal(identity: Identity)
      requires Valid() && identity.name in provider.names && Hex(identity.id)
      requires identity.id in identities ==> identities[identity.id] == identity
      ensures Legal(provider.names, provider.trace, Registered(identity, true))
    {
      hide Lawful;
    }

    static predicate JustPosted(t: seq<Wire>, identity: Identity) {
      && t != [] && t[|t| - 1].Answered? && t[|t| - 1].verb == Post(identity.name)
      && t[|t| - 1].view.Some? && t[|t| - 1].view.value.identity == identity
    }

    /** The POST of a consumed name, and the identity its answer carries. */
    method PostNamed(name: string, key: string) returns (r: Outcome<Identity>)
      requires Valid() && name in provider.names && name in createdNames && !Consumed(provider.trace, name)
      modifies provider
      ensures Valid() && Grown(old(provider.trace))
      ensures old(provider.closed) ==> !r.Ok? && provider.trace == old(provider.trace)
      ensures r.Unknown? ==> provider.closed
      ensures r.Ok? ==> JustPosted(provider.trace, r.value) && r.value.name == name && Hex(r.value.id)
    {
      hide Lawful;
      ghost var before := provider.trace;
      var reply := provider.Request(Post(name), key);
      ghost var after := provider.trace;
      StillValid(before, after[|before|..]);
      if !reply.Ok? { return reply.PropagateFailure<Identity>(); }
      if reply.value.None? || !Acceptable(reply.value.value, name, None, false, false) { r := Fail(); return; }
      assert after[|after| - 1] == Answered(Post(name), provider.lastStatus.value, reply.value);
      return Ok(reply.value.value.identity);
    }

    ghost method RegisterNow(identity: Identity, restored: bool)
      requires Valid() && Legal(provider.names, provider.trace, Registered(identity, restored))
      modifies provider`trace
      ensures provider.trace == old(provider.trace) + [Registered(identity, restored)]
      ensures provider.Valid()
      ensures forall x :: Owned(provider.trace, x) <==> Owned(old(provider.trace), x) || x == identity
      ensures forall name :: Consumed(provider.trace, name) ==> Consumed(old(provider.trace), name) || name == identity.name
    {
      var before, w := provider.trace, Registered(identity, restored);
      LawfulAppend(provider.names, before, w);
      provider.trace := before + [w];
      var t := provider.trace;
      forall key | KeyUsed(t, key) ensures KeyUsed(before, key) {
        var i :| 0 <= i < |t| && t[i].Sent? && t[i].key == key;
        assert before[i] == t[i];
      }
      forall name | Consumed(t, name) ensures Consumed(before, name) || name == identity.name {
        var i :| 0 <= i < |t| && ((t[i].Sent? && t[i].verb == Post(name)) || (t[i].Registered? && t[i].identity.name == name));
        if i < |before| { assert before[i] == t[i]; }
      }
    }

    /** Register an authenticated creation receipt from an earlier process. */
    method RestoreOwnedIdentity(identity: Identity) returns (ok: bool)
      requires Valid()
      modifies this, provider`trace
      ensures Valid() && Grown(old(provider.trace))
      ensures ok ==> identities == old(identities)[identity.id := identity] && createdNames == old(createdNames) + {identity.name}
      ensures ok <==> identity.name in provider.names && Hex(identity.id) && validDate(identity.createdOn)
                      && (identity.id in old(identities) ==> old(identities)[identity.id] == identity)
      ensures !ok ==> identities == old(identities) && createdNames == old(createdNames) && provider.trace == old(provider.trace)
    {
      hide Lawful, Legal, KeyUsed, Consumed;
      if identity.name !in provider.names || !Hex(identity.id) || !validDate(identity.createdOn) { return false; }
      if identity.id in identities && identities[identity.id] != identity { return false; }
      RestorationLegal(identity);
      RegisterNow(identity, true);
      identities := identities[identity.id := identity];
      createdNames := createdNames + {identity.name};
      return true;
    }

    /** A read of a registered identity: the validated view, or `None` when it answered 404. */
    method Read(identity: Identity, key: string, allowEnabled: bool, allowPreviews: bool) returns (r: Outcome<Option<Identity>>)
      requires Valid()
      modifies provider
      ensures Valid() && Grown(old(provider.trace))
      ensures !InScope(identity) ==> r.Refused? && provider.trace == old(provider.trace)
      ensures r.Unknown? ==> provider.closed
      ensures r.Ok? && r.value.Some? ==> JustRead(provider.trace, identity) && r.value.value == identity
      ensures r.Ok? && r.value.Some? && !allowEnabled ==> ReadDisabled(provider.trace)
      ensures r.Ok? && r.value.None? ==> provider.trace == old(provider.trace) + [Sent(Get(identity.id), key), Answered(Get(identity.id), 404, None)]
      ensures old(provider.closed) ==> !r.Ok? && provider.trace == old(provider.trace)
    {
      hide Lawful;
      if !InScope(identity) { return Refused; }
      ghost var before := provider.trace;
      var reply := provider.Request(Get(identity.id), key);
      ghost var after := provider.trace;
      StillValid(before, after[|before|..]);
      if !reply.Ok? { return reply.PropagateFailure<Option<Identity>>(); }
      if reply.value.None? {
        if provider.lastStatus != Some(404) { r := Fail(); return; }
        return Ok(None);
      }
      if !Acceptable(reply.value.value, identity.name, Some(identity), allowEnabled, allowPreviews) { r := Fail(); return; }
      assert after[|after| - 1] == Answered(Get(identity.id), provider.lastStatus.value, reply.value);
      return Ok(Some(identity));
    }

    /** Switch a Worker's access off.  Acknowledged only when the PATCH answer shows it off. */
    method DisableWorker(identity: Identity, key: string) returns (r: Outcome<Receipt>)
      requires Valid()
      modifies provider
      ensures Valid() && Grown(old(provider.trace))
      ensures !InScope(identity) ==> r.Refused? && provider.trace == old(provider.trace)
      ensures r.Ok? ==> r.value == Absent || r.value == DisableAcknowledged
      ensures r == Ok(DisableAcknowledged) ==>
                (ReadDisabled(provider.trace)
                 && provider.trace[|provider.trace| - 1].verb == Patch(identity.id)
                 && provider.trace[|provider.trace| - 1].view.value.identity == identity)
      ensures r == Ok(Absent) ==>
                provider.trace == old(provider.trace) + [Sent(Get(identity.id), key + ":identity"), Answered(Get(identity.id), 404, None)]
    {
      hide Lawful;
      if !InScope(identity) { return Refused; }
      var seen :- Read(identity, key + ":identity", true, true);
      if seen.None? { return Ok(Absent); }
      ghost var before := provider.trace;
      var reply := provider.Request(Patch(identity.id), key);
      ghost var after := provider.trace;
      StillValid(before, after[|before|..]);
      if !reply.Ok? { return reply.PropagateFailure<Receipt>(); }
      if reply.value.None? || !Acceptable(reply.value.value, identity.name, Some(identity), false, false) { r := Fail(); return; }
      assert after[|after| - 1] == Answered(Patch(identity.id), provider.lastStatus.value, reply.value);
      return Ok(DisableAcknowledged);
    }

    /** Delete a Worker.  Acknowledged only when a DELETE was sent and answered with a success other than 404. */
    method DeleteWorker(identity: Identity, key: string) returns (r: Outcome<Receipt>)
      requires Valid()
      modifies provider
      ensures Valid() && Grown(old(provider.trace))
      ensures !InScope(identity) ==> r.Refused? && provider.trace == old(provider.trace)
      ensures r.Ok? ==> |provider.trace| >= 2 && provider.trace[|provider.trace| - 1].Answered?
      ensures r.Ok? ==>
        var last, sent := provider.trace[|provider.trace| - 1], provider.trace[|provider.trace| - 2];
        match r.value
        case DeletionAcknowledged => sent == Sent(Delete(identity.id), key) && last.verb == sent.verb && 200 <= last.status < 300
        case Absent => sent.Sent? && last.verb == sent.verb && last.status == 404 && sent.verb in {Get(identity.id), Delete(identity.id)}
        case DisableAcknowledged => false
    {
      hide Lawful;
      if !InScope(identity) { return Refused; }
      var seen :- Read(identity, key + ":identity", false, false);
      if seen.None? { return Ok(Absent); }
      ghost var before := provider.trace;
      var reply := provider.Request(Delete(identity.id), key);
      ghost var after := provider.trace;
      StillValid(before, after[|before|..]);
      if !reply.Ok? { return reply.PropagateFailure<Receipt>(); }
      if provider.lastStatus == Some(404) { return Ok(Absent); }
      return Ok(DeletionAcknowledged);
    }
  }
}
