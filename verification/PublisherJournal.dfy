/** The durable journal itself: the mutable store whose history is the ledger's trace. */
module PublisherJournal {
  import opened Options
  import opened Crashes
  import opened PublisherLedger
  import opened PublisherSafety

  class DurableJournal {
    const plan: Plan             // the plan whose digest this journal is bound to
    var keys: seq<Key>
    var events: map<Key, Event>
    ghost var trace: Trace       // everything committed or sent so far, across crashes

    ghost predicate Valid()
      reads this
    {
      && plan.Valid()
      && Ledger(keys, events) == Replay(trace)
      && Lawful(plan, trace)
    }

    ghost function Rows(): Ledger
      reads this
    {
      Ledger(keys, events)
    }

    constructor (plan: Plan)
      requires plan.Valid()
      ensures Valid() && this.plan == plan && trace == []
    {
      this.plan := plan;
      keys, events, trace := [], map[], [];
    }

    ghost method Record(step: Step)
      requires Valid() && Allowed(plan, trace, step)
      requires step.Invoke? || step.Send? || step.Dispatch? || step.Return?
      modifies this`trace
      ensures Valid() && trace == old(trace) + [step] && Rows() == old(Rows())
    {
      LawfulAppend(plan, trace, step);
      ReplayAppend(trace, step);
      trace := trace + [step];
    }

    /** Commit a fresh intent.  A present key is refused with `Ok(false)`; an unencodable key or
        payload, or a full journal, raises.  The process may die before or after the commit. */
    method Reserve(key: Key, payload: Payload) returns (r: Flow<bool>)
      requires Valid()
      requires key !in events ==> ReserveAllowed(plan, trace, Rows(), key, payload)
      modifies this
      ensures Valid()
      ensures r == Ok(false) ==> key in old(events)
      ensures r == Ok(true) || (r == Crashed && trace != old(trace)) ==>
                && key !in old(events)
                && trace == old(trace) + [Step.Reserve(key, payload)]
                && keys == old(keys) + [key]
                && events == old(events)[key := Event(Pending, payload, NoReceipt)]
                && TotalsOf(Rows()) == old(TotalsOf(Rows())).Plus(Charge(key, Event(Pending, payload, NoReceipt)))
      ensures r != Ok(true) && (r == Crashed ==> trace == old(trace)) ==> trace == old(trace) && Rows() == old(Rows())
    {
      var encodable: bool := *;
      if !encodable { return Raised; }
      if key in events { return Ok(false); }
      if |keys| >= JOURNAL_INTENT_BOUND { return Raised; }
      var dies: bool := *;
      if dies { return Crashed; }
      CommitReserve(plan, trace, key, payload);
      keys := keys + [key];
      events := events[key := Event(Pending, payload, NoReceipt)];
      trace := trace + [Step.Reserve(key, payload)];
      dies := *;
      if dies { return Crashed; }
      return Ok(true);
    }

    /** Settle a pending intent, once.  A missing or already settled row raises, and so does a receipt that
        cannot be encoded; the fixed reason of an unknown outcome always can. */
    method Finish(key: Key, state: State, receipt: Receipt) returns (r: Flow<()>)
      requires Valid()
      requires key in events && events[key].state == Pending ==> FinishAllowed(trace, key, state, receipt)
      modifies this
      ensures Valid()
      ensures r.Ok? || (r.Crashed? && trace != old(trace)) ==>
                && key in old(events) && old(events[key].state) == Pending
                && trace == old(trace) + [Step.Finish(key, state, receipt)]
                && keys == old(keys)
                && events == old(events)[key := Event(state, old(events[key].payload), receipt)]
                && TotalsOf(Rows()).Plus(Charge(key, old(events[key])))
                   == old(TotalsOf(Rows())).Plus(Charge(key, events[key]))
      ensures !r.Ok? && (r.Crashed? ==> trace == old(trace)) ==> trace == old(trace) && Rows() == old(Rows())
      ensures r.Raised? && receipt == Reason ==> key !in old(events) || old(events[key].state) != Pending
    {
      var encodable: bool := *;
      if (!encodable && receipt != Reason) || key !in events || events[key].state != Pending { return Raised; }
      var dies: bool := *;
      if dies { return Crashed; }
      CommitFinish(plan, trace, key, state, receipt);
      events := events[key := Event(state, events[key].payload, receipt)];
      trace := trace + [Step.Finish(key, state, receipt)];
      dies := *;
      if dies { return Crashed; }
      return Ok(());
    }
  }
}
