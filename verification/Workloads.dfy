/** A trace to replay and the slots to replay it in (`run` in
    bench/moe_cache_sim/moe_cache_sim.cpp). */
module Workloads {
  import opened Slots
  import opened Belady
  import opened Traces

  /** A model, a number of slots and the plans of a trace. */
  datatype Workload = Workload(nLayer: nat, nExpert: nat, n: nat, plans: seq<PlanRec>)
  {
    /** A run that ends without an error: every plan fits in the slots. */
    predicate Ok() {
      n >= 1 && PlansOk(nLayer, nExpert, plans) && AllFit(plans, n) && |plans| < UINT32_WRAP
    }

    function Reqs(): (r: Requests)
      ensures |r| == |plans|
    {
      Asked(nExpert, plans)
    }

    function Want(i: nat): seq<int>
      requires i < |plans|
    {
      Wants(nExpert, plans[i])
    }

    lemma Fit(i: nat)
      requires Ok() && i < |plans|
      ensures Fits(Want(i), n) && Reqs()[i] == Elems(Want(i)) && |Reqs()[i]| == |Want(i)|
    {
      assert PlanOk(nLayer, nExpert, plans[i]);
      WantsFit(nLayer, nExpert, plans[i]);
      NoDupCard(Want(i));
    }
  }

  /** A trace as read: the layers and experts it names exist, but a plan may
      want more than fits. */
  predicate Readable(w: Workload) {
    w.n >= 1 && PlansOk(w.nLayer, w.nExpert, w.plans) && |w.plans| < UINT32_WRAP
  }

  /** The experts the first `i` plans ask for. */
  function Demand(w: Workload, i: nat): nat
    requires i <= |w.plans|
  {
    if i == 0 then 0 else Demand(w, i - 1) + |w.Want(i - 1)|
  }

  lemma DemandNext(w: Workload, i: nat)
    requires w.Ok() && i < |w.plans|
    ensures |w.Want(i)| == |w.Reqs()[i]| && Demand(w, i + 1) == Demand(w, i) + |w.Reqs()[i]|
  {
    w.Fit(i);
  }

  /** The first `i` plans fit. */
  ghost predicate FitFirst(w: Workload, i: nat)
    requires i <= |w.plans|
  {
    i == 0 || (FitFirst(w, i - 1) && |Distinct(w.plans[i - 1].ids)| <= w.n)
  }

  lemma {:induction false} EachFits(w: Workload, i: nat, k: nat)
    requires k < i <= |w.plans| && FitFirst(w, i)
    ensures |Distinct(w.plans[k].ids)| <= w.n
  {
    if k < i - 1 {
      EachFits(w, i - 1, k);
    }
  }

  lemma AllOfThemFit(w: Workload)
    requires FitFirst(w, |w.plans|)
    ensures AllFit(w.plans, w.n)
  {
    forall k | 0 <= k < |w.plans| ensures |Distinct(w.plans[k].ids)| <= w.n {
      EachFits(w, |w.plans|, k);
    }
  }
}
