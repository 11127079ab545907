/** Belady's policy bounds the others (`run` in
    bench/moe_cache_sim/moe_cache_sim.cpp). */
module Bound {
  import opened Recency
  import opened Belady
  import opened Workloads
  import opened ListReplay
  import opened SegReplay
  import opened OptReplay

  /** Over every trace `policy_opt` misses no more than any way at all of
      running the cache on demand in the same slots. */
  lemma BeladyIsBound(w: Workload, a: seq<set<int>>)
    requires w.Ok() && OnDemand(w.Reqs(), w.n, a) && |a| == |w.plans| + 1
    ensures OptMisses(w, |w.plans|) <= Cost(w.Reqs(), a, |w.plans|)
  {
    var b := OptRuns(w, |w.plans|);
    FurthestIsOptimal(w.Reqs(), w.n, a, b);
  }

  /** In particular than the policies it is compared with, whatever the scores. */
  lemma BeladyBeatsLists(w: Workload, rule: Rule, scores: Scores)
    requires ListOk(w, rule, scores)
    ensures OptMisses(w, |w.plans|) <= ListMisses(w, rule, scores, |w.plans|)
  {
    var a := ListRuns(w, rule, scores, |w.plans|);
    BeladyIsBound(w, a);
  }

  lemma BeladyBeatsSlru(w: Workload)
    requires w.Ok()
    ensures OptMisses(w, |w.plans|) <= SegMissCount(w, |w.plans|)
  {
    var a := SegRuns(w, |w.plans|);
    BeladyIsBound(w, a);
  }
}

/** The simulator's comparison of the policies. */
module Simulator {
  import opened Recency
  import opened Traces
  import opened Workloads
  import opened ListReplay
  import opened SegReplay
  import opened OptReplay
  import opened Bound
  import opened Options
  import ReplayLru
  import ReplaySlru
  import ReplayStale
  import ReplayOpt

  /** The hits and misses of a policy over the trace. */
  datatype Row = Row(hits: nat, misses: nat)

  /** A policy that served all that was asked for and missed no less than
      Belady's. */
  ghost predicate Bounded(w: Workload, row: Row)
    requires w.Ok()
  {
    row.hits + row.misses == Demand(w, |w.plans|) && OptMisses(w, |w.plans|) <= row.misses
  }

  /** The row of a list policy, SLRU's, and Belady's. */
  ghost predicate IsListRow(w: Workload, rule: Rule, scores: Scores, row: Row)
    requires ListOk(w, rule, scores)
  {
    row.misses == ListMisses(w, rule, scores, |w.plans|) && Bounded(w, row)
  }

  method Lru(w: Workload) returns (row: Row)
    requires w.Ok()
    ensures IsListRow(w, Rule.Lru, NoScores(w), row)
  {
    var ok, h, m := ReplayLru.Replay(w);
    BeladyBeatsLists(w, Rule.Lru, NoScores(w));
    row := Row(h, m);
  }

  method Slru(w: Workload) returns (row: Row)
    requires w.Ok()
    ensures Bounded(w, row) && row.misses == SegMissCount(w, |w.plans|)
  {
    var ok, h, m := ReplaySlru.Replay(w);
    BeladyBeatsSlru(w);
    row := Row(h, m);
  }

  method Stale(w: Workload, rule: Rule, scores: Scores) returns (row: Row)
    requires w.Ok() && !rule.Lru? && RuleOk(rule) && |scores| == |w.plans|
    ensures IsListRow(w, rule, scores, row)
  {
    var ok, h, m := ReplayStale.Replay(w, rule, scores);
    BeladyBeatsLists(w, rule, scores);
    row := Row(h, m);
  }

  /** The rows printed, Belady's last. */
  datatype Comparison =
    Comparison(lru: Row, slru: Row, staleMru: Row, staleLfu: Row, lfuPass: Row, lfuPass32: Row, opt: Row)

  /** Each row is that of its policy. */
  ghost predicate AreRows(w: Workload, passLen: nat, scores: Scores, c: Comparison)
    requires w.Ok() && passLen >= 1 && |scores| == |w.plans|
  {
    && IsListRow(w, Rule.Lru, NoScores(w), c.lru)
    && c.slru.misses == SegMissCount(w, |w.plans|) && Bounded(w, c.slru)
    && IsListRow(w, StaleMru(passLen), NoScores(w), c.staleMru)
    && IsListRow(w, StaleLfu(passLen, 0, false), scores, c.staleLfu)
    && IsListRow(w, StaleLfu(passLen, 0, true), scores, c.lfuPass)
    && IsListRow(w, StaleLfu(passLen, 32, true), scores, c.lfuPass32)
    && c.opt.misses == OptMisses(w, |w.plans|) && Bounded(w, c.opt)
  }

  /** The trace through every policy: LRU, SLRU, stale-MRU, stale-LFU, lfu-pass
      and lfu-pass with a window of 32, then Belady's. None when a plan does not
      fit in the slots. `passLen` is the number of cached layers. */
  method Run(w: Workload, passLen: nat, scores: Scores) returns (c: Option<Comparison>)
    requires Readable(w) && passLen >= 1 && |scores| == |w.plans|
    ensures c.Some? <==> AllFit(w.plans, w.n)
    ensures c.Some? ==> w.Ok() && AreRows(w, passLen, scores, c.value)
  {
    var ok, h, m := ReplayOpt.Replay(w);
    if !ok {
      return None;
    }
    var lru := Lru(w);
    var slru := Slru(w);
    var staleMru := Stale(w, StaleMru(passLen), NoScores(w));
    var staleLfu := Stale(w, StaleLfu(passLen, 0, false), scores);
    var lfuPass := Stale(w, StaleLfu(passLen, 0, true), scores);
    var lfuPass32 := Stale(w, StaleLfu(passLen, 32, true), scores);
    c := Some(Comparison(lru, slru, staleMru, staleLfu, lfuPass, lfuPass32, Row(h, m)));
  }
}
