/** Whole traces replayed through LRU, stale-MRU, stale-LFU and lfu-pass
    (bench/moe_cache_sim/moe_cache_sim.cpp). */
module ListReplay {
  import opened Slots
  import opened Recency
  import opened Belady
  import opened Traces
  import opened Workloads

  /** What the LFU rules see at each plan: any scores at all. */
  type Scores = seq<int -> real>

  ghost predicate ListOk(w: Workload, rule: Rule, scores: Scores) {
    w.Ok() && RuleOk(rule) && |scores| == |w.plans|
  }

  /** The cache of a list policy after `i` plans. */
  ghost function ListAt(w: Workload, rule: Rule, scores: Scores, i: nat): (st: State)
    requires ListOk(w, rule, scores) && i <= |w.plans|
    ensures st.Valid() && |st.keyOf| == w.n && st.t == i
    decreases i, 0
  {
    EmptyValid(w.n);
    if i == 0 then Empty(w.n) else ListStep(w, rule, scores, i - 1).st
  }

  /** Serving plan `i`. */
  ghost function ListStep(w: Workload, rule: Rule, scores: Scores, i: nat): (v: Serving)
    requires ListOk(w, rule, scores) && i < |w.plans|
    ensures v.st.Valid() && |v.st.keyOf| == w.n && v.st.t == i + 1
    decreases i, 1
  {
    w.Fit(i);
    var st := ListAt(w, rule, scores, i);
    PlanServed(rule, st, w.plans[i].il, w.Want(i), scores[i]);
    PlanStep(rule, st, w.plans[i].il, w.Want(i), scores[i])
  }

  ghost function ListMisses(w: Workload, rule: Rule, scores: Scores, i: nat): nat
    requires ListOk(w, rule, scores) && i <= |w.plans|
  {
    if i == 0 then 0 else ListMisses(w, rule, scores, i - 1) + ListStep(w, rule, scores, i - 1).misses
  }

  lemma ListServes(w: Workload, rule: Rule, scores: Scores, i: nat)
    requires ListOk(w, rule, scores) && i < |w.plans|
    ensures Serves(w.n, w.Reqs()[i], Resident(ListAt(w, rule, scores, i).keyOf),
                   Resident(ListAt(w, rule, scores, i + 1).keyOf))
    ensures ListMisses(w, rule, scores, i + 1) - ListMisses(w, rule, scores, i)
         == |w.Reqs()[i] - Resident(ListAt(w, rule, scores, i).keyOf)|
  {
    w.Fit(i);
    PlanServed(rule, ListAt(w, rule, scores, i), w.plans[i].il, w.Want(i), scores[i]);
    ResidentCard(ListAt(w, rule, scores, i + 1).keyOf);
  }

  /** `a` are the contents of the cache over the first `i` plans, a run on
      demand whose misses are counted. */
  ghost predicate ListRun(w: Workload, rule: Rule, scores: Scores, i: nat, a: seq<set<int>>)
    requires ListOk(w, rule, scores) && i <= |w.plans|
  {
    && |a| == i + 1 && OnDemand(w.Reqs(), w.n, a)
    && a[i] == Resident(ListAt(w, rule, scores, i).keyOf)
    && Cost(w.Reqs(), a, i) == ListMisses(w, rule, scores, i)
  }

  lemma ListRunNext(w: Workload, rule: Rule, scores: Scores, i: nat, b: seq<set<int>>) returns (a: seq<set<int>>)
    requires ListOk(w, rule, scores) && i < |w.plans| && ListRun(w, rule, scores, i, b)
    ensures ListRun(w, rule, scores, i + 1, a)
  {
    ListServes(w, rule, scores, i);
    a := Extended(w.Reqs(), w.n, i + 1, b, ListMisses(w, rule, scores, i),
                  Resident(ListAt(w, rule, scores, i + 1).keyOf), ListMisses(w, rule, scores, i + 1));
  }

  /** LRU, stale-MRU, stale-LFU and lfu-pass run the cache on demand over
      every trace, whatever the scores. */
  lemma {:induction false} ListRuns(w: Workload, rule: Rule, scores: Scores, i: nat) returns (a: seq<set<int>>)
    requires ListOk(w, rule, scores) && i <= |w.plans|
    ensures ListRun(w, rule, scores, i, a)
  {
    if i == 0 {
      EmptyValid(w.n);
      a := [{}];
    } else {
      a := ListRuns(w, rule, scores, i - 1);
      a := ListRunNext(w, rule, scores, i - 1, a);
    }
  }

  // ------------------------------------------------------------ replaying

  /** LRU and stale-MRU read no scores. */
  function NoScores(w: Workload): Scores {
    seq(|w.plans|, _ => (_: int) => 0.0)
  }

  /** Where a list policy stands after `i` plans. */
  ghost predicate ListStands(w: Workload, rule: Rule, scores: Scores, i: nat, st: State, hits: nat, misses: nat)
    requires RuleOk(rule) && |scores| == |w.plans| && i <= |w.plans|
  {
    FitFirst(w, i) &&
    (w.Ok() ==>
      && st == ListAt(w, rule, scores, i)
      && misses == ListMisses(w, rule, scores, i)
      && hits + misses == Demand(w, i))
  }

  lemma ListStandsFirst(w: Workload, rule: Rule, scores: Scores)
    requires RuleOk(rule) && |scores| == |w.plans|
    ensures ListStands(w, rule, scores, 0, Empty(w.n), 0, 0)
  {
  }

  lemma ListStandsNext(w: Workload, rule: Rule, scores: Scores, i: nat, st: State, hits: nat, misses: nat, v: Serving)
    requires RuleOk(rule) && |scores| == |w.plans| && i < |w.plans|
    requires ListStands(w, rule, scores, i, st, hits, misses)
    requires st.Valid() && |st.keyOf| == w.n && Fits(w.Want(i), w.n) && |Distinct(w.plans[i].ids)| <= w.n
    requires v == PlanStep(rule, st, w.plans[i].il, w.Want(i), scores[i])
    ensures ListStands(w, rule, scores, i + 1, v.st, hits + v.hits, misses + v.misses)
  {
    if w.Ok() {
      DemandNext(w, i);
      PlanServed(rule, st, w.plans[i].il, w.Want(i), scores[i]);
    }
  }

  /** What replaying the trace is to come to. */
  ghost predicate ListReplayed(w: Workload, rule: Rule, scores: Scores, ok: bool, hits: nat, misses: nat)
    requires Readable(w) && RuleOk(rule) && |scores| == |w.plans|
  {
    && (ok <==> AllFit(w.plans, w.n))
    && (ok ==> hits + misses == Demand(w, |w.plans|) && misses == ListMisses(w, rule, scores, |w.plans|))
  }

  lemma ListStandsLast(w: Workload, rule: Rule, scores: Scores, st: State, hits: nat, misses: nat)
    requires RuleOk(rule) && |scores| == |w.plans| && Readable(w)
    requires ListStands(w, rule, scores, |w.plans|, st, hits, misses)
    ensures ListReplayed(w, rule, scores, true, hits, misses)
  {
    AllOfThemFit(w);
  }
}
