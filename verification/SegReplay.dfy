/** Whole traces replayed through SLRU
    (bench/moe_cache_sim/moe_cache_sim.cpp). */
module SegReplay {
  import opened Slots
  import opened Slru
  import opened Belady
  import opened Traces
  import opened Workloads

  lemma EmptySegmentsValid(n: nat)
    requires n >= 1
    ensures EmptySegments(n).Valid() && Resident(EmptySegments(n).keyOf) == {}
  {
    var p := EmptySegments(n).probation;
    forall s ensures s in Elems(p) <==> 0 <= s < n {
      if 0 <= s < n { assert p[s] == s; }
    }
  }

  ghost function SegAt(w: Workload, i: nat): (g: Segments)
    requires w.Ok() && i <= |w.plans|
    ensures g.Valid() && |g.keyOf| == w.n
    decreases i, 0
  {
    EmptySegmentsValid(w.n);
    if i == 0 then EmptySegments(w.n) else SegStep(w, i - 1).g
  }

  ghost function SegStep(w: Workload, i: nat): (v: SegServing)
    requires w.Ok() && i < |w.plans|
    ensures v.g.Valid() && |v.g.keyOf| == w.n
    decreases i, 1
  {
    w.Fit(i);
    SegPlanStep(SegAt(w, i), w.Want(i))
  }

  ghost function SegMissCount(w: Workload, i: nat): nat
    requires w.Ok() && i <= |w.plans|
  {
    if i == 0 then 0 else SegMissCount(w, i - 1) + SegStep(w, i - 1).misses
  }

  lemma SegServes(w: Workload, i: nat)
    requires w.Ok() && i < |w.plans|
    ensures Serves(w.n, w.Reqs()[i], Resident(SegAt(w, i).keyOf), Resident(SegAt(w, i + 1).keyOf))
    ensures SegMissCount(w, i + 1) - SegMissCount(w, i) == |w.Reqs()[i] - Resident(SegAt(w, i).keyOf)|
  {
    w.Fit(i);
    var v := SegStep(w, i);
    assert SegAt(w, i + 1) == v.g && SegMissCount(w, i + 1) == SegMissCount(w, i) + v.misses;
    SegStepServes(w.n, SegAt(w, i), w.Want(i), w.Reqs()[i], v);
  }

  lemma SegStepServes(n: nat, g: Segments, ks: seq<int>, r: set<int>, v: SegServing)
    requires g.Valid() && |g.keyOf| == n && Fits(ks, n) && r == Elems(ks) && v == SegPlanStep(g, ks)
    ensures Serves(n, r, Resident(g.keyOf), Resident(v.g.keyOf)) && v.misses == |r - Resident(g.keyOf)|
  {
    SegPlanServed(g, ks);
    ResidentCard(v.g.keyOf);
  }

  ghost predicate SegRun(w: Workload, i: nat, a: seq<set<int>>)
    requires w.Ok() && i <= |w.plans|
  {
    && |a| == i + 1 && OnDemand(w.Reqs(), w.n, a)
    && a[i] == Resident(SegAt(w, i).keyOf)
    && Cost(w.Reqs(), a, i) == SegMissCount(w, i)
  }

  lemma SegRunNext(w: Workload, i: nat, b: seq<set<int>>) returns (a: seq<set<int>>)
    requires w.Ok() && i < |w.plans| && SegRun(w, i, b)
    ensures SegRun(w, i + 1, a)
  {
    SegServes(w, i);
    a := Extended(w.Reqs(), w.n, i + 1, b, SegMissCount(w, i), Resident(SegAt(w, i + 1).keyOf), SegMissCount(w, i + 1));
  }

  /** SLRU runs the cache on demand over every trace, its two lists whole and
      balanced after every plan (`SegAt` is valid). */
  lemma {:induction false} SegRuns(w: Workload, i: nat) returns (a: seq<set<int>>)
    requires w.Ok() && i <= |w.plans|
    ensures SegRun(w, i, a)
  {
    if i == 0 {
      EmptySegmentsValid(w.n);
      a := [{}];
    } else {
      a := SegRuns(w, i - 1);
      a := SegRunNext(w, i - 1, a);
    }
  }

  // ------------------------------------------------------------ replaying

  /** Where SLRU stands after `i` plans. */
  ghost predicate SegStands(w: Workload, i: nat, g: Segments, hits: nat, misses: nat)
    requires i <= |w.plans|
  {
    && FitFirst(w, i)
    && (w.Ok() ==> g == SegAt(w, i) && misses == SegMissCount(w, i) && hits + misses == Demand(w, i))
  }

  lemma SegStandsFirst(w: Workload)
    ensures SegStands(w, 0, EmptySegments(w.n), 0, 0)
  {
  }

  lemma SegStandsNext(w: Workload, i: nat, g: Segments, hits: nat, misses: nat, v: SegServing)
    requires i < |w.plans| && SegStands(w, i, g, hits, misses)
    requires g.Valid() && |g.keyOf| == w.n && Fits(w.Want(i), w.n) && |Distinct(w.plans[i].ids)| <= w.n
    requires v == SegPlanStep(g, w.Want(i))
    ensures SegStands(w, i + 1, v.g, hits + v.hits, misses + v.misses)
  {
    if w.Ok() {
      DemandNext(w, i);
      SegPlanServed(g, w.Want(i));
    }
  }

  /** What replaying the trace is to come to. */
  ghost predicate SegReplayed(w: Workload, ok: bool, hits: nat, misses: nat)
    requires Readable(w)
  {
    && (ok <==> AllFit(w.plans, w.n))
    && (ok ==> hits + misses == Demand(w, |w.plans|) && misses == SegMissCount(w, |w.plans|))
  }

  lemma SegStandsLast(w: Workload, g: Segments, hits: nat, misses: nat)
    requires Readable(w) && SegStands(w, |w.plans|, g, hits, misses)
    ensures SegReplayed(w, true, hits, misses)
  {
    AllOfThemFit(w);
  }
}
