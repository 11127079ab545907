/** What the rules that go by passes go by, on every run: when each expert held was
    last asked for, and where the pass over the layers began
    (bench/moe_cache_sim/moe_cache_sim.cpp). */
module Passes {
  import opened Options
  import opened Slots
  import opened RecencyList
  import opened Recency
  import opened Belady
  import opened Traces
  import opened Workloads
  import opened ListReplay
  import opened Victims
  import opened BelowCapacity

  // ------------------------------------------------------------ last asked for

  lemma MissDated(reqs: Requests, rule: Rule, v: Serving, wanted: set<int>, k: int, score: int -> real)
    requires v.st.t >= 1 && Dated(reqs, v.st, v.st.t - 1) && wanted == reqs[v.st.t - 1]
    requires Mid(v, wanted) && RuleOk(rule) && k in wanted && k >= 0 && |wanted| <= |v.st.order|
    ensures k !in v.st.keyOf ==> v.Served() < |v.st.order|
    ensures Dated(reqs, Miss(rule, v, k, score).st, v.st.t - 1)
  {
    MissMid(rule, v, wanted, k, score);
    if k !in v.st.keyOf {
      var p := VictimPos(rule, v.st, v.Served(), score);
      VictimOutside(rule, v, wanted, score);
      TakeAt(v.st, p, k);
      UsedDated(reqs, v.st, p, Miss(rule, v, k, score).st);
    }
  }

  lemma {:induction false} MissesDated(reqs: Requests, rule: Rule, v: Serving, wanted: set<int>, ks: seq<int>, j: nat,
                                       score: int -> real)
    requires v.st.t >= 1 && Dated(reqs, v.st, v.st.t - 1) && wanted == reqs[v.st.t - 1]
    requires Mid(v, wanted) && RuleOk(rule) && |wanted| <= |v.st.order| && j <= |ks|
    requires forall i :: 0 <= i < |ks| ==> ks[i] in wanted && ks[i] >= 0
    ensures Dated(reqs, Misses(rule, v, wanted, ks, j, score).st, v.st.t - 1)
    decreases |ks| - j
  {
    if j == |ks| {
    } else {
      MissMid(rule, v, wanted, ks[j], score);
      MissDated(reqs, rule, v, wanted, ks[j], score);
      MissesDated(reqs, rule, Miss(rule, v, ks[j], score), wanted, ks, j + 1, score);
    }
  }

  /** At its end the plan counts among those asked for. */
  lemma PlanEndDated(reqs: Requests, v: Serving, wanted: set<int>)
    requires v.st.t >= 1 && Dated(reqs, v.st, v.st.t - 1) && wanted == reqs[v.st.t - 1] && Mid(v, wanted)
    ensures Dated(reqs, v.st, v.st.t)
  {
  }

  lemma ServedDated(reqs: Requests, rule: Rule, st: State, il: int, ks: seq<int>, score: int -> real, r: Serving)
    requires st.Valid() && RuleOk(rule) && Fits(ks, |st.keyOf|) && Dated(reqs, st, st.t)
    requires st.t < |reqs| && reqs[st.t] == Elems(ks) && r == PlanStep(rule, st, il, ks, score)
    ensures Dated(reqs, AfterHits(st, il, ks).st, st.t) && Dated(reqs, r.st, st.t)
  {
    BegunDated(reqs, st, il, ks);
    SortedFits(ks, |st.keyOf|);
    MissesDated(reqs, rule, AfterHits(st, il, ks), Elems(ks), Sorted(ks), 0, score);
  }

  lemma PlanDated(reqs: Requests, rule: Rule, st: State, il: int, ks: seq<int>, score: int -> real, r: Serving)
    requires st.Valid() && RuleOk(rule) && Fits(ks, |st.keyOf|) && Dated(reqs, st, st.t)
    requires st.t < |reqs| && reqs[st.t] == Elems(ks) && r == PlanStep(rule, st, il, ks, score)
    ensures Dated(reqs, AfterHits(st, il, ks).st, st.t)
    ensures r.st.t == st.t + 1 && Dated(reqs, r.st, st.t + 1)
  {
    ServedDated(reqs, rule, st, il, ks, score, r);
    PlanServed(rule, st, il, ks, score);
    PlanEndDated(reqs, r, Elems(ks));
  }

  /** On every run of every rule the time noted for an expert held is that of the
      last plan that asked for it. */
  lemma {:induction false} RunDated(w: Workload, rule: Rule, scores: Scores, i: nat)
    requires ListOk(w, rule, scores) && i <= |w.plans|
    ensures Dated(w.Reqs(), ListAt(w, rule, scores, i), i)
  {
    if i == 0 {
      EmptyValid(w.n);
    } else {
      RunDated(w, rule, scores, i - 1);
      w.Fit(i - 1);
      PlanDated(w.Reqs(), rule, ListAt(w, rule, scores, i - 1), w.plans[i - 1].il, w.Want(i - 1), scores[i - 1],
                ListStep(w, rule, scores, i - 1));
    }
  }

  /** One of the last `passLen` of the first `m` plans asked for `k`. */
  ghost predicate AskedLately(reqs: Requests, m: nat, passLen: nat, k: int) {
    exists j :: 0 <= j < m && j < |reqs| && m <= j + passLen && k in reqs[j]
  }

  /** While a plan is served, a slot is stale exactly when it is empty or none of the
      last `passLen` plans, this one included, asked for its expert. */
  lemma StaleExactly(reqs: Requests, v: Serving, passLen: nat, a: nat)
    requires v.st.t >= 1 && Dated(reqs, v.st, v.st.t - 1) && Mid(v, reqs[v.st.t - 1])
    requires passLen >= 1 && a < |v.st.order|
    ensures StaleAt(v.st, passLen, a) <==> v.st.At(a) < 0 || !AskedLately(reqs, v.st.t, passLen, v.st.At(a))
  {
    var t, k := v.st.t, v.st.At(a);
    if k >= 0 && t - v.st.Used(a) < passLen {
      assert k in reqs[v.st.Used(a) - 1] && t <= v.st.Used(a) - 1 + passLen;
    }
    if k >= 0 && AskedLately(reqs, t, passLen, k) {
      var j :| 0 <= j < t && j < |reqs| && t <= j + passLen && k in reqs[j];
      assert j < v.st.Used(a);
    }
  }

  // ------------------------------------------------------------ where a pass began

  ghost predicate SamePass(s: State, t: State) {
    s.lastIl == t.lastIl && s.passStart == t.passStart
  }

  lemma {:induction false} HitsKeepPass(v: Serving, ks: seq<int>, j: nat)
    requires v.st.Valid() && j <= |ks|
    ensures SamePass(Hits(v, ks, j).st, v.st)
    decreases |ks| - j
  {
    if j == |ks| {
    } else {
      HitValid(v, ks[j]);
      HitsKeepPass(Hit(v, ks[j]), ks, j + 1);
    }
  }

  lemma {:induction false} MissesKeepPass(rule: Rule, v: Serving, wanted: set<int>, ks: seq<int>, j: nat,
                                          score: int -> real)
    requires Mid(v, wanted) && RuleOk(rule) && |wanted| <= |v.st.order| && j <= |ks|
    requires forall i :: 0 <= i < |ks| ==> ks[i] in wanted && ks[i] >= 0
    ensures SamePass(Misses(rule, v, wanted, ks, j, score).st, v.st)
    decreases |ks| - j
  {
    if j == |ks| {
    } else {
      MissMid(rule, v, wanted, ks[j], score);
      MissesKeepPass(rule, Miss(rule, v, ks[j], score), wanted, ks, j + 1, score);
    }
  }

  lemma PlanKeepsPass(rule: Rule, st: State, il: int, ks: seq<int>, score: int -> real)
    requires st.Valid() && RuleOk(rule) && Fits(ks, |st.keyOf|)
    ensures SamePass(PlanStep(rule, st, il, ks, score).st, st.Begin(il))
  {
    BeginMid(st, il);
    HitsKeepPass(Serving(st.Begin(il), 0, 0), ks, 0);
    SortedFits(ks, |st.keyOf|);
    MissesKeepPass(rule, AfterHits(st, il, ks), Elems(ks), Sorted(ks), 0, score);
  }

  /** Plan `b` begins the pass that plan `i` belongs to: from it on the layers
      ascend, and it is the first, or of no later layer than the one before it. */
  ghost predicate PassBegins(plans: seq<PlanRec>, b: nat, i: nat)
    requires i < |plans|
  {
    && b <= i
    && (forall j :: b < j <= i ==> plans[j - 1].il < plans[j].il)
    && (b > 0 ==> plans[b].il <= plans[b - 1].il)
  }

  /** The layer of the last of the first `i` plans, and when its pass began. */
  ghost function PassAt(w: Workload, rule: Rule, scores: Scores, i: nat): (int, nat)
    requires ListOk(w, rule, scores) && i <= |w.plans|
  {
    (ListAt(w, rule, scores, i).lastIl, ListAt(w, rule, scores, i).passStart)
  }

  function Begun(at: (int, nat), i: nat, il: int): (int, nat) {
    (il, if il <= at.0 then i + 1 else at.1)
  }

  /** The state after a plan, if it can be served. */
  ghost function StepOf(rule: Rule, st: State, il: int, ks: seq<int>, score: int -> real): Option<State> {
    if st.Valid() && RuleOk(rule) && Fits(ks, |st.keyOf|) then Some(PlanStep(rule, st, il, ks, score).st) else None
  }

  lemma StepPass(rule: Rule, st: State, il: int, ks: seq<int>, score: int -> real, r: State)
    requires StepOf(rule, st, il, ks, score) == Some(r)
    ensures r.lastIl == il && r.passStart == if il <= st.lastIl then st.t + 1 else st.passStart
  {
    PlanKeepsPass(rule, st, il, ks, score);
  }

  /** What the plans of a workload make of the state, one after the other. */
  ghost function Later(w: Workload, rule: Rule, scores: Scores, i: nat, st: State): Option<State>
    requires i < |w.plans| == |scores|
  {
    StepOf(rule, st, w.plans[i].il, w.Want(i), scores[i])
  }

  lemma ListIsStep(w: Workload, rule: Rule, scores: Scores, i: nat)
    requires ListOk(w, rule, scores) && i < |w.plans|
    ensures Later(w, rule, scores, i, ListAt(w, rule, scores, i)) == Some(ListAt(w, rule, scores, i + 1))
  {
    w.Fit(i);
  }

  lemma LaterPass(w: Workload, rule: Rule, scores: Scores, i: nat, st: State, r: State)
    requires i < |w.plans| == |scores| && Later(w, rule, scores, i, st) == Some(r) && st.t == i
    ensures (r.lastIl, r.passStart) == Begun((st.lastIl, st.passStart), i, w.plans[i].il)
  {
    StepPass(rule, st, w.plans[i].il, w.Want(i), scores[i], r);
  }

  lemma PassStep(w: Workload, rule: Rule, scores: Scores, i: nat)
    requires ListOk(w, rule, scores) && i < |w.plans|
    ensures PassAt(w, rule, scores, i + 1) == Begun(PassAt(w, rule, scores, i), i, w.plans[i].il)
  {
    ListIsStep(w, rule, scores, i);
    LaterPass(w, rule, scores, i, ListAt(w, rule, scores, i), ListAt(w, rule, scores, i + 1));
  }

  /** Beginning plan `i` sets what stands after it. */
  lemma PassNext(w: Workload, rule: Rule, scores: Scores, i: nat, j: nat)
    requires ListOk(w, rule, scores) && i < |w.plans| && j == i + 1
    ensures PassAt(w, rule, scores, j) == Begun(PassAt(w, rule, scores, i), i, w.plans[i].il)
  {
    PassStep(w, rule, scores, i);
  }

  lemma PassFirst(w: Workload, rule: Rule, scores: Scores)
    requires ListOk(w, rule, scores)
    ensures PassAt(w, rule, scores, 0) == (INT32_MAX, 0)
  {
  }

  /** Layers are numbered by 32-bit integers. */
  ghost predicate Numbered(w: Workload) {
    forall i :: 0 <= i < |w.plans| ==> w.plans[i].il <= INT32_MAX
  }

  /** What holds of `(lastIl, passStart)` once plan `i` has begun. */
  ghost predicate BeginsRight(plans: seq<PlanRec>, i: nat, at: (int, nat))
    requires i < |plans|
  {
    at.0 == plans[i].il && at.1 >= 1 && PassBegins(plans, at.1 - 1, i)
  }

  lemma PassGoesOn(plans: seq<PlanRec>, i: nat, at: (int, nat), next: (int, nat))
    requires 0 < i < |plans| && BeginsRight(plans, i - 1, at)
    requires next == Begun(at, i, plans[i].il)
    ensures BeginsRight(plans, i, next)
  {
  }

  /** On every run of every rule a pass begins where the layers do not ascend: while
      plan `i` is served, and after it, `passStart` is the time of the first plan of
      the pass that it belongs to. */
  lemma {:induction false} RunPass(w: Workload, rule: Rule, scores: Scores, i: nat, j: nat)
    requires ListOk(w, rule, scores) && i < |w.plans| && j == i + 1 && Numbered(w)
    ensures BeginsRight(w.plans, i, PassAt(w, rule, scores, j))
  {
    PassNext(w, rule, scores, i, j);
    if i == 0 {
      PassFirst(w, rule, scores);
    } else {
      RunPass(w, rule, scores, i - 1, i);
      PassGoesOn(w.plans, i, PassAt(w, rule, scores, i), PassAt(w, rule, scores, j));
    }
  }
}
