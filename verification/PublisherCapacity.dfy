/** The capacity check made before an execution, which recomputes the four provider totals with its
    own sums over the journal snapshot. */
module PublisherCapacity {
  import opened Options
  import opened PublisherLedger

  function ProviderKeys(keys: seq<Key>): seq<Key> {
    if keys == [] then []
    else ProviderKeys(keys[..|keys| - 1]) + (if keys[|keys| - 1].Request? then [keys[|keys| - 1]] else [])
  }

  function SumBy(keys: seq<Key>, weight: Key -> int): int {
    if keys == [] then 0 else SumBy(keys[..|keys| - 1], weight) + weight(keys[|keys| - 1])
  }

  function MutationWeight(l: Ledger): Key -> int {
    k => if k in l.events && l.events[k].payload.RequestPayload? && l.events[k].payload.mutation then 1 else 0
  }

  function RequestWeight(l: Ledger): Key -> int {
    k => if k in l.events && l.events[k].payload.RequestPayload? then l.events[k].payload.requestBytes else 0
  }

  function ResponseWeight(l: Ledger): Key -> int {
    k => if k !in l.events then 0
         else if l.events[k].state == Complete && l.events[k].receipt.ResponseReceipt? then l.events[k].receipt.responseBytes
         else if l.events[k].payload.RequestPayload? then l.events[k].payload.reservedResponseBytes else 0
  }

  /** True when the remaining-capacity check refuses to start. */
  predicate CapacityExhausted(l: Ledger, plan: Plan) {
    var rows := ProviderKeys(l.keys);
    || |rows| >= plan.budgets.providerCalls
    || SumBy(rows, MutationWeight(l)) >= plan.budgets.providerMutations
    || SumBy(rows, RequestWeight(l)) >= PROVIDER_REQUEST_BYTES
    || SumBy(rows, ResponseWeight(l)) + PROVIDER_SINGLE_RESPONSE_BYTES > PROVIDER_RESPONSE_BYTES
  }

  /** The rows a lawful journal holds: every request row has a request payload. */
  predicate RequestRows(l: Ledger, keys: seq<Key>) {
    forall k :: k in keys ==> k in l.events && (k.Request? ==> l.events[k].payload.RequestPayload?)
  }

  lemma SumByAppend(keys: seq<Key>, k: Key, weight: Key -> int)
    ensures SumBy(keys + [k], weight) == SumBy(keys, weight) + weight(k)
  {
    assert (keys + [k])[..|keys|] == keys;
  }

  /** The capacity check and the operator's running totals are the same fold over the journal. */
  lemma {:induction false} CapacitySumsAreTheTotals(l: Ledger, keys: seq<Key>)
    requires RequestRows(l, keys)
    ensures |ProviderKeys(keys)| == Sum(keys, l.events).calls
    ensures SumBy(ProviderKeys(keys), MutationWeight(l)) == Sum(keys, l.events).mutations
    ensures SumBy(ProviderKeys(keys), RequestWeight(l)) == Sum(keys, l.events).requestBytes
    ensures SumBy(ProviderKeys(keys), ResponseWeight(l)) == Sum(keys, l.events).responseBytes
  {
    if keys != [] {
      var front, last := keys[..|keys| - 1], keys[|keys| - 1];
      CapacitySumsAreTheTotals(l, front);
      if last.Request? {
        SumByAppend(ProviderKeys(front), last, MutationWeight(l));
        SumByAppend(ProviderKeys(front), last, RequestWeight(l));
        SumByAppend(ProviderKeys(front), last, ResponseWeight(l));
      } else {
        assert ProviderKeys(keys) == ProviderKeys(front);
      }
    }
  }

  /** The operator's own admission test for one more request. */
  predicate BudgetAdmits(t: Totals, b: Budgets, mutation: bool, requestBytes: int) {
    && t.calls < b.providerCalls
    && (mutation ==> t.mutations < b.providerMutations)
    && t.requestBytes + requestBytes <= PROVIDER_REQUEST_BYTES
    && t.responseBytes + PROVIDER_SINGLE_RESPONSE_BYTES <= PROVIDER_RESPONSE_BYTES
  }

  /** The check refuses exactly the journals on which the operator would refuse, for budget reasons,
      even a one-byte mutation. */
  lemma CapacityCheckIsExact(l: Ledger, plan: Plan)
    requires RequestRows(l, l.keys)
    ensures CapacityExhausted(l, plan) <==> !BudgetAdmits(TotalsOf(l), plan.budgets, true, 1)
  {
    CapacitySumsAreTheTotals(l, l.keys);
  }
}
