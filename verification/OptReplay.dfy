/** Whole traces replayed through Belady's policy
    (bench/moe_cache_sim/moe_cache_sim.cpp). */
module OptReplay {
  import opened Slots
  import opened Belady
  import opened Traces
  import opened Workloads
  import Opt

  lemma OptEmptyKnows(w: Workload)
    requires w.Ok()
    ensures Opt.Knows(w.Reqs(), 0, Opt.EmptyOpt(w.n))
    ensures Resident(Opt.EmptyOpt(w.n).keyOf) == {}
  {
  }

  lemma IsPlan(w: Workload, i: nat)
    requires w.Ok() && i < |w.plans|
    ensures Opt.IsPlan(w.Reqs(), i, w.n, w.Want(i))
  {
    assert PlanOk(w.nLayer, w.nExpert, w.plans[i]);
    Opt.WantsArePlan(w.nLayer, w.nExpert, w.plans, i, w.n);
  }

  ghost function OptAt(w: Workload, i: nat): (st: Opt.OptState)
    requires w.Ok() && i <= |w.plans|
    ensures Opt.Knows(w.Reqs(), i, st) && |st.keyOf| == w.n
    decreases i, 0
  {
    OptEmptyKnows(w);
    if i == 0 then Opt.EmptyOpt(w.n)
    else var v := OptStep(w, i - 1); Opt.OptState(v.keyOf, v.nextOf)
  }

  ghost function OptStep(w: Workload, i: nat): (v: Opt.OptServing)
    requires w.Ok() && i < |w.plans|
    ensures Opt.Knows(w.Reqs(), i + 1, Opt.OptState(v.keyOf, v.nextOf)) && |v.keyOf| == w.n
    decreases i, 1
  {
    IsPlan(w, i);
    Opt.PlanTakesFurthest(w.Reqs(), i, OptAt(w, i), w.Want(i));
    Opt.PlanStep(w.Reqs(), i, OptAt(w, i), w.Want(i))
  }

  ghost function OptMisses(w: Workload, i: nat): nat
    requires w.Ok() && i <= |w.plans|
  {
    if i == 0 then 0 else OptMisses(w, i - 1) + OptStep(w, i - 1).misses
  }

  lemma OptServes(w: Workload, i: nat)
    requires w.Ok() && i < |w.plans|
    ensures Serves(w.n, w.Reqs()[i], Resident(OptAt(w, i).keyOf), Resident(OptAt(w, i + 1).keyOf))
    ensures TakesFurthest(w.Reqs(), w.n, i, Resident(OptAt(w, i).keyOf), Resident(OptAt(w, i + 1).keyOf))
    ensures OptMisses(w, i + 1) - OptMisses(w, i) == |w.Reqs()[i] - Resident(OptAt(w, i).keyOf)|
  {
    IsPlan(w, i);
    Opt.PlanTakesFurthest(w.Reqs(), i, OptAt(w, i), w.Want(i));
  }

  ghost predicate OptRun(w: Workload, i: nat, a: seq<set<int>>)
    requires w.Ok() && i <= |w.plans|
  {
    && |a| == i + 1 && OnDemand(w.Reqs(), w.n, a) && Furthest(w.Reqs(), w.n, a)
    && a[i] == Resident(OptAt(w, i).keyOf)
    && Cost(w.Reqs(), a, i) == OptMisses(w, i)
  }

  lemma OptRunNext(w: Workload, i: nat, b: seq<set<int>>) returns (a: seq<set<int>>)
    requires w.Ok() && i < |w.plans| && OptRun(w, i, b)
    ensures OptRun(w, i + 1, a)
  {
    OptServes(w, i);
    var after := Resident(OptAt(w, i + 1).keyOf);
    a := Extended(w.Reqs(), w.n, i + 1, b, OptMisses(w, i), after, OptMisses(w, i + 1));
    FurthestNext(w.Reqs(), w.n, b, after);
  }

  /** Belady's policy runs the cache on demand and always takes the expert
      next used furthest away. */
  lemma {:induction false} OptRuns(w: Workload, i: nat) returns (a: seq<set<int>>)
    requires w.Ok() && i <= |w.plans|
    ensures OptRun(w, i, a)
  {
    if i == 0 {
      OptEmptyKnows(w);
      a := [{}];
    } else {
      a := OptRuns(w, i - 1);
      a := OptRunNext(w, i - 1, a);
    }
  }

  // ------------------------------------------------------------ replaying

  /** Where Belady's policy stands after `i` plans. */
  ghost predicate OptStands(w: Workload, i: nat, st: Opt.OptState, hits: nat, misses: nat)
    requires i <= |w.plans| <= SIZE_MAX
  {
    && FitFirst(w, i) && Opt.Knows(w.Reqs(), i, st) && |st.keyOf| == w.n
    && (w.Ok() ==> st == OptAt(w, i) && misses == OptMisses(w, i) && hits + misses == Demand(w, i))
  }

  lemma OptStandsFirst(w: Workload)
    requires |w.plans| <= SIZE_MAX
    ensures OptStands(w, 0, Opt.EmptyOpt(w.n), 0, 0)
  {
  }

  lemma OptStandsNext(w: Workload, i: nat, st: Opt.OptState, hits: nat, misses: nat, v: Opt.OptServing)
    requires i < |w.plans| <= SIZE_MAX && OptStands(w, i, st, hits, misses)
    requires Opt.IsPlan(w.Reqs(), i, w.n, w.Want(i)) && |Distinct(w.plans[i].ids)| <= w.n
    requires v == Opt.PlanStep(w.Reqs(), i, st, w.Want(i))
    ensures OptStands(w, i + 1, Opt.OptState(v.keyOf, v.nextOf), hits + v.hits, misses + v.misses)
  {
    OptCountsNext(w, i, st, hits, misses, v);
  }

  lemma OptCountsNext(w: Workload, i: nat, st: Opt.OptState, hits: nat, misses: nat, v: Opt.OptServing)
    requires i < |w.plans| <= SIZE_MAX && Opt.Knows(w.Reqs(), i, st) && |st.keyOf| == w.n
    requires w.Ok() ==> st == OptAt(w, i) && misses == OptMisses(w, i) && hits + misses == Demand(w, i)
    requires Opt.IsPlan(w.Reqs(), i, w.n, w.Want(i)) && v == Opt.PlanStep(w.Reqs(), i, st, w.Want(i))
    ensures Opt.Knows(w.Reqs(), i + 1, Opt.OptState(v.keyOf, v.nextOf)) && |v.keyOf| == w.n
    ensures w.Ok() ==>
      && Opt.OptState(v.keyOf, v.nextOf) == OptAt(w, i + 1) && misses + v.misses == OptMisses(w, i + 1)
      && hits + v.hits + misses + v.misses == Demand(w, i + 1)
  {
    Opt.PlanTakesFurthest(w.Reqs(), i, st, w.Want(i));
    if w.Ok() {
      DemandNext(w, i);
    }
  }

  /** What replaying the trace is to come to. */
  ghost predicate OptReplayed(w: Workload, ok: bool, hits: nat, misses: nat)
    requires Readable(w)
  {
    && (ok <==> AllFit(w.plans, w.n))
    && (ok ==> hits + misses == Demand(w, |w.plans|) && misses == OptMisses(w, |w.plans|))
  }

  lemma OptStandsLast(w: Workload, st: Opt.OptState, hits: nat, misses: nat)
    requires Readable(w) && |w.plans| <= SIZE_MAX && OptStands(w, |w.plans|, st, hits, misses)
    ensures OptReplayed(w, true, hits, misses)
  {
    AllOfThemFit(w);
  }
}
