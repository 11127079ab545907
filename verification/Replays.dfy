/** Each policy over a whole trace, plan by plan (the inner loop of `run` in
    bench/moe_cache_sim/moe_cache_sim.cpp). */

module ReplayLru {
  import opened Slots
  import opened Traces
  import opened Workloads
  import opened Recency
  import opened ListReplay
  import opened PolicyLru

  /** The cache belongs to the workload. */
  ghost predicate Serves(p: Policy, w: Workload)
    reads p, p.Repr, p.tab, p.tab.Repr, p.lru, p.lru.Repr
  {
    p.Valid() && p.tab.nLayer == w.nLayer && p.tab.nExpert == w.nExpert && p.tab.nSlots == w.n
  }

  method ReplayPlan(p: Policy, w: Workload, i: nat, hits: nat, misses: nat) returns (ok: bool, hits': nat, misses': nat)
    requires Readable(w) && i < |w.plans| && Serves(p, w)
    requires ListStands(w, Lru, NoScores(w), i, p.State(), hits, misses)
    modifies p.Repr
    ensures Serves(p, w)
    ensures !ok ==> !AllFit(w.plans, w.n)
    ensures ok ==> ListStands(w, Lru, NoScores(w), i + 1, p.State(), hits', misses')
  {
    ghost var st := p.State();
    assert PlanOk(w.nLayer, w.nExpert, w.plans[i]);
    var h, m;
    ok, h, m := p.Plan(w.plans[i].il, w.plans[i].ids, NoScores(w)[i]);
    hits', misses' := hits + h, misses + m;
    if ok {
      ListStandsNext(w, Lru, NoScores(w), i, st, hits, misses, Serving(p.State(), h, m));
    }
  }

  method ReplayPlans(p: Policy, w: Workload) returns (ok: bool, hits: nat, misses: nat)
    requires Readable(w) && Serves(p, w)
    requires ListStands(w, Lru, NoScores(w), 0, p.State(), 0, 0)
    modifies p.Repr
    ensures ListReplayed(w, Lru, NoScores(w), ok, hits, misses)
  {
    hits, misses := 0, 0;
    for i := 0 to |w.plans|
      invariant Serves(p, w) && ListStands(w, Lru, NoScores(w), i, p.State(), hits, misses)
    {
      ok, hits, misses := ReplayPlan(p, w, i, hits, misses);
      if !ok {
        return;
      }
    }
    ListStandsLast(w, Lru, NoScores(w), p.State(), hits, misses);
    ok := true;
  }

  /** The trace through LRU; false when a plan does not fit. */
  method Replay(w: Workload) returns (ok: bool, hits: nat, misses: nat)
    requires Readable(w)
    ensures ok <==> AllFit(w.plans, w.n)
    ensures ok ==> hits + misses == Demand(w, |w.plans|)
    ensures ok ==> misses == ListMisses(w, Lru, NoScores(w), |w.plans|)
  {
    var p := new Policy(w.nLayer, w.nExpert, w.n);
    ListStandsFirst(w, Lru, NoScores(w));
    ok, hits, misses := ReplayPlans(p, w);
  }
}

module ReplayStale {
  import opened Slots
  import opened Traces
  import opened Workloads
  import opened Recency
  import opened ListReplay
  import opened PolicyStale

  /** The cache belongs to the workload. */
  ghost predicate Serves(p: Policy, w: Workload, rule: Rule)
    reads p, p.Repr, p.tab, p.tab.Repr, p.lru, p.lru.Repr
  {
    && p.Valid() && p.rule == rule
    && p.tab.nLayer == w.nLayer && p.tab.nExpert == w.nExpert && p.tab.nSlots == w.n
  }

  method ReplayPlan(p: Policy, w: Workload, rule: Rule, scores: Scores, i: nat, hits: nat, misses: nat)
    returns (ok: bool, hits': nat, misses': nat)
    requires Readable(w) && RuleOk(rule) && |scores| == |w.plans| && i < |w.plans| && Serves(p, w, rule)
    requires ListStands(w, rule, scores, i, p.State(), hits, misses)
    modifies p.Repr
    ensures Serves(p, w, rule)
    ensures !ok ==> !AllFit(w.plans, w.n)
    ensures ok ==> ListStands(w, rule, scores, i + 1, p.State(), hits', misses')
  {
    ghost var st := p.State();
    assert PlanOk(w.nLayer, w.nExpert, w.plans[i]);
    var h, m;
    ok, h, m := p.Plan(w.plans[i].il, w.plans[i].ids, scores[i]);
    hits', misses' := hits + h, misses + m;
    if ok {
      ListStandsNext(w, rule, scores, i, st, hits, misses, Serving(p.State(), h, m));
    }
  }

  method ReplayPlans(p: Policy, w: Workload, rule: Rule, scores: Scores) returns (ok: bool, hits: nat, misses: nat)
    requires Readable(w) && RuleOk(rule) && |scores| == |w.plans| && Serves(p, w, rule)
    requires ListStands(w, rule, scores, 0, p.State(), 0, 0)
    modifies p.Repr
    ensures ListReplayed(w, rule, scores, ok, hits, misses)
  {
    hits, misses := 0, 0;
    for i := 0 to |w.plans|
      invariant Serves(p, w, rule) && ListStands(w, rule, scores, i, p.State(), hits, misses)
    {
      ok, hits, misses := ReplayPlan(p, w, rule, scores, i, hits, misses);
      if !ok {
        return;
      }
    }
    ListStandsLast(w, rule, scores, p.State(), hits, misses);
    ok := true;
  }

  /** The trace through stale-MRU, stale-LFU or lfu-pass; false when a plan does
      not fit. */
  method Replay(w: Workload, rule: Rule, scores: Scores) returns (ok: bool, hits: nat, misses: nat)
    requires Readable(w) && !rule.Lru? && RuleOk(rule) && |scores| == |w.plans|
    ensures ok <==> AllFit(w.plans, w.n)
    ensures ok ==> hits + misses == Demand(w, |w.plans|)
    ensures ok ==> misses == ListMisses(w, rule, scores, |w.plans|)
  {
    var p := new Policy(w.nLayer, w.nExpert, w.n, rule);
    ListStandsFirst(w, rule, scores);
    ok, hits, misses := ReplayPlans(p, w, rule, scores);
  }
}

module ReplaySlru {
  import opened Slots
  import opened Traces
  import opened Workloads
  import opened Slru
  import opened SegReplay
  import opened PolicySlru

  /** The cache belongs to the workload. */
  ghost predicate Serves(p: Policy, w: Workload)
    reads p, p.Repr, p.tab, p.tab.Repr, p.prev, p.next, p.isProtected
  {
    p.Valid() && p.tab.nLayer == w.nLayer && p.tab.nExpert == w.nExpert && p.tab.nSlots == w.n
  }

  method ReplayPlan(p: Policy, w: Workload, i: nat, hits: nat, misses: nat) returns (ok: bool, hits': nat, misses': nat)
    requires Readable(w) && i < |w.plans| && Serves(p, w)
    requires SegStands(w, i, p.State(), hits, misses)
    modifies p.Repr
    ensures Serves(p, w)
    ensures !ok ==> !AllFit(w.plans, w.n)
    ensures ok ==> SegStands(w, i + 1, p.State(), hits', misses')
  {
    ghost var g := p.State();
    assert PlanOk(w.nLayer, w.nExpert, w.plans[i]);
    var h, m;
    ok, h, m := p.Plan(w.plans[i].il, w.plans[i].ids);
    hits', misses' := hits + h, misses + m;
    if ok {
      SegStandsNext(w, i, g, hits, misses, SegServing(p.State(), h, m));
    }
  }

  method ReplayPlans(p: Policy, w: Workload) returns (ok: bool, hits: nat, misses: nat)
    requires Readable(w) && Serves(p, w)
    requires SegStands(w, 0, p.State(), 0, 0)
    modifies p.Repr
    ensures SegReplayed(w, ok, hits, misses)
  {
    hits, misses := 0, 0;
    for i := 0 to |w.plans|
      invariant Serves(p, w) && SegStands(w, i, p.State(), hits, misses)
    {
      ok, hits, misses := ReplayPlan(p, w, i, hits, misses);
      if !ok {
        return;
      }
    }
    SegStandsLast(w, p.State(), hits, misses);
    ok := true;
  }

  /** The trace through SLRU; false when a plan does not fit. */
  method Replay(w: Workload) returns (ok: bool, hits: nat, misses: nat)
    requires Readable(w)
    ensures ok <==> AllFit(w.plans, w.n)
    ensures ok ==> hits + misses == Demand(w, |w.plans|)
    ensures ok ==> misses == SegMissCount(w, |w.plans|)
  {
    var p := new Policy(w.nLayer, w.nExpert, w.n);
    SegStandsFirst(w);
    ok, hits, misses := ReplayPlans(p, w);
  }
}

module ReplayOpt {
  import opened Slots
  import opened Belady
  import opened Traces
  import opened NextUses
  import opened Workloads
  import opened OptReplay
  import opened Opt

  /** The cache belongs to the workload and looks ahead in its trace. */
  ghost predicate Serves(p: PolicyOpt, w: Workload, i: nat)
    reads p, p.Repr, p.tab, p.tab.Repr
  {
    && p.Valid() && p.gen == i
    && p.tab.nLayer == w.nLayer && p.tab.nExpert == w.nExpert && p.tab.nSlots == w.n
    && |w.plans| <= SIZE_MAX && Exact(w.nExpert, w.plans, p.nextUse)
  }

  method ReplayPlan(p: PolicyOpt, w: Workload, i: nat, hits: nat, misses: nat)
    returns (ok: bool, hits': nat, misses': nat)
    requires Readable(w) && i < |w.plans| && Serves(p, w, i)
    requires OptStands(w, i, p.State(), hits, misses)
    modifies p.Repr
    ensures Serves(p, w, i + 1)
    ensures !ok ==> !AllFit(w.plans, w.n)
    ensures ok ==> OptStands(w, i + 1, p.State(), hits', misses')
  {
    ghost var st := p.State();
    assert PlanOk(w.nLayer, w.nExpert, w.plans[i]);
    var h, m;
    ok, h, m := p.Plan(i, w.plans[i].il, w.plans[i].ids, w.plans);
    hits', misses' := hits + h, misses + m;
    if ok {
      OptStandsNext(w, i, st, hits, misses, p.Serving(h, m));
    }
  }

  method ReplayPlans(p: PolicyOpt, w: Workload) returns (ok: bool, hits: nat, misses: nat)
    requires Readable(w) && Serves(p, w, 0)
    requires OptStands(w, 0, p.State(), 0, 0)
    modifies p.Repr
    ensures OptReplayed(w, ok, hits, misses)
  {
    hits, misses := 0, 0;
    for i := 0 to |w.plans|
      invariant Serves(p, w, i) && OptStands(w, i, p.State(), hits, misses)
    {
      ok, hits, misses := ReplayPlan(p, w, i, hits, misses);
      if !ok {
        return;
      }
    }
    OptStandsLast(w, p.State(), hits, misses);
    ok := true;
  }

  /** The trace through Belady's policy; false when a plan does not fit. */
  method Replay(w: Workload) returns (ok: bool, hits: nat, misses: nat)
    requires Readable(w)
    ensures ok <==> AllFit(w.plans, w.n)
    ensures ok ==> hits + misses == Demand(w, |w.plans|)
    ensures ok ==> misses == OptMisses(w, |w.plans|)
  {
    var nu := ComputeNextUses(w.nLayer, w.nExpert, w.plans);
    var p := new PolicyOpt(w.nLayer, w.nExpert, w.n, nu);
    OptStandsFirst(w);
    ok, hits, misses := ReplayPlans(p, w);
  }
}
