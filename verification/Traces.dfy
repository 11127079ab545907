/** A recorded run of the router: which experts each plan chose
    (`trace` in bench/moe_cache_sim/moe_cache_sim.cpp). */
module Traces {
  import opened Slots
  import opened Belady

  /** One layer of one step, and the experts its tokens chose, in turn. */
  datatype PlanRec = PlanRec(il: int, ids: seq<int>)

  datatype Trace = Trace(nLayer: int, nExpert: int, nUsed: int, nSlots: int, layers: seq<int>, plans: seq<PlanRec>)

  predicate PlanOk(nLayer: nat, nExpert: nat, p: PlanRec) {
    0 <= p.il < nLayer && forall i :: 0 <= i < |p.ids| ==> 0 <= p.ids[i] < nExpert
  }

  /** Every layer and expert named is one of the model's. */
  predicate PlansOk(nLayer: nat, nExpert: nat, plans: seq<PlanRec>) {
    forall i :: 0 <= i < |plans| ==> PlanOk(nLayer, nExpert, plans[i])
  }

  /** The distinct experts of a plan as keys, in order of first choice. */
  function Wants(nExpert: nat, p: PlanRec): seq<int> {
    Keys(nExpert, p.il, Distinct(p.ids))
  }

  lemma DistinctIn(ids: seq<int>, e: int)
    ensures e in Distinct(ids) <==> e in ids
  {
    assert e in Elems(Distinct(ids)) <==> e in Elems(ids);
  }

  /** The `i`th key a plan wants, taken apart again. */
  lemma WantAt(nLayer: nat, nExpert: nat, p: PlanRec, i: nat)
    requires PlanOk(nLayer, nExpert, p) && i < |Distinct(p.ids)|
    ensures var e, k := Distinct(p.ids)[i], Wants(nExpert, p)[i];
      && 0 <= e < nExpert
      && k == Key(nExpert, p.il, e)
      && 0 <= k < nLayer * nExpert && k / nExpert == p.il && k % nExpert == e
  {
    var e := Distinct(p.ids)[i];
    DistinctIn(p.ids, e);
    KeyParts(nExpert, p.il, e);
    KeyBounds(nLayer, nExpert, p.il, e);
  }

  /** A plan wants an expert of its layer exactly when it chose it, and none
      of another layer. */
  lemma Wanted(nLayer: nat, nExpert: nat, p: PlanRec, e: int)
    requires PlanOk(nLayer, nExpert, p)
    ensures Key(nExpert, p.il, e) in Wants(nExpert, p) <==> e in p.ids
  {
    DistinctIn(p.ids, e);
    var u, w := Distinct(p.ids), Wants(nExpert, p);
    if e in u {
      var i :| 0 <= i < |u| && u[i] == e;
      assert w[i] == Key(nExpert, p.il, e);
    }
  }

  /** Taking any key apart tells whether the plan wants it. */
  lemma WantedKey(nLayer: nat, nExpert: nat, p: PlanRec, k: int)
    requires PlanOk(nLayer, nExpert, p) && nExpert > 0
    ensures k in Elems(Wants(nExpert, p)) <==> k / nExpert == p.il && k % nExpert in Distinct(p.ids)
  {
    var w, u := Wants(nExpert, p), Distinct(p.ids);
    if k in w {
      var i :| 0 <= i < |w| && w[i] == k;
      WantAt(nLayer, nExpert, p, i);
    }
    if k / nExpert == p.il && k % nExpert in u {
      assert k == Key(nExpert, p.il, k % nExpert);
      DistinctIn(p.ids, k % nExpert);
      Wanted(nLayer, nExpert, p, k % nExpert);
    }
  }

  lemma WantsFit(nLayer: nat, nExpert: nat, p: PlanRec)
    requires PlanOk(nLayer, nExpert, p)
    ensures NoDup(Wants(nExpert, p)) && |Wants(nExpert, p)| == |Distinct(p.ids)|
    ensures forall i :: 0 <= i < |Wants(nExpert, p)| ==> 0 <= Wants(nExpert, p)[i] < nLayer * nExpert
  {
    forall i | 0 <= i < |Wants(nExpert, p)| ensures 0 <= Wants(nExpert, p)[i] < nLayer * nExpert {
      WantAt(nLayer, nExpert, p, i);
    }
  }

  /** What the plans ask for, as sets. */
  function Asked(nExpert: nat, plans: seq<PlanRec>): (r: Requests)
    ensures |r| == |plans|
    ensures forall i :: 0 <= i < |plans| ==> r[i] == Elems(Wants(nExpert, plans[i]))
  {
    seq(|plans|, i requires 0 <= i < |plans| => Elems(Wants(nExpert, plans[i])))
  }

  /** No plan wants more distinct experts than there are slots. */
  predicate AllFit(plans: seq<PlanRec>, n: nat) {
    forall i :: 0 <= i < |plans| ==> |Distinct(plans[i].ids)| <= n
  }
}
