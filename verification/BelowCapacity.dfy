/** Below its capacity stale-MRU is LRU (the comment over `policy_stale_mru`
    in bench/moe_cache_sim/moe_cache_sim.cpp). */
module BelowCapacity {
  import opened Slots
  import opened RecencyList
  import opened Recency
  import opened Belady
  import opened Workloads
  import opened ListReplay
  import opened Victims

  /** All that the plans `lo` to `hi`-1 ask for. */
  ghost function Window(reqs: Requests, lo: nat, hi: nat): set<int>
    requires hi <= |reqs|
  {
    if lo >= hi then {} else Window(reqs, lo, hi - 1) + reqs[hi - 1]
  }

  lemma {:induction false} InWindow(reqs: Requests, lo: nat, hi: nat, j: nat)
    requires lo <= j < hi <= |reqs|
    ensures reqs[j] <= Window(reqs, lo, hi)
  {
    if j < hi - 1 {
      InWindow(reqs, lo, hi - 1, j);
    }
  }

  /** All that the last `passLen` of the first `hi` plans ask for. */
  ghost function LastPass(reqs: Requests, passLen: nat, hi: nat): set<int>
    requires hi <= |reqs|
  {
    Window(reqs, if hi < passLen then 0 else hi - passLen, hi)
  }

  /** Every `passLen` plans in a row want no more than fits in the slots. */
  ghost predicate Below(reqs: Requests, n: nat, passLen: nat) {
    forall hi :: 0 < hi <= |reqs| ==> |LastPass(reqs, passLen, hi)| <= n
  }

  /** The recency list tells when each expert was last asked for, of the first
      `m` plans, and is in the order of those uses. */
  ghost predicate Dated(reqs: Requests, st: State, m: nat) {
    && ByUse(st) && m <= st.t <= |reqs|
    && (forall a :: 0 <= a < |st.order| && st.At(a) >= 0 ==>
          1 <= st.Used(a) <= st.t && st.At(a) in reqs[st.Used(a) - 1])
    && (forall a, j :: 0 <= a < |st.order| && st.At(a) >= 0 && st.Used(a) <= j < m ==> st.At(a) !in reqs[j])
  }

  /** What the last pass asked for is still held. */
  ghost predicate Holds(reqs: Requests, st: State, m: nat, passLen: nat)
    requires m <= |reqs|
  {
    forall j :: 0 <= j < m && st.t <= j + passLen ==> reqs[j] <= Resident(st.keyOf)
  }

  lemma HitDated(reqs: Requests, v: Serving, k: int)
    requires v.st.t >= 1 && Dated(reqs, v.st, v.st.t - 1) && k in reqs[v.st.t - 1]
    ensures Dated(reqs, Hit(v, k).st, v.st.t - 1)
  {
    HitValid(v, k);
    if k >= 0 && k in v.st.keyOf {
      var n, s, r := |v.st.order|, SlotOf(v.st.keyOf, k), Hit(v, k).st;
      AfterUse(v.st, s);
      UsedDated(reqs, v.st, Position(v.st.order, s), r);
    }
  }

  /** Using a slot, old or just filled, for an expert the current plan asks for
      keeps the dates. */
  lemma UsedDated(reqs: Requests, st: State, p: nat, r: State)
    requires st.t >= 1 && Dated(reqs, st, st.t - 1) && p < |st.order|
    requires r.Valid() && |r.order| == |st.order| && r.t == st.t
    requires r.At(|st.order| - 1) in reqs[st.t - 1] && r.Used(|st.order| - 1) == st.t
    requires forall j :: 0 <= j < p ==> r.At(j) == st.At(j) && r.Used(j) == st.Used(j)
    requires forall j :: p <= j < |st.order| - 1 ==> r.At(j) == st.At(j + 1) && r.Used(j) == st.Used(j + 1)
    ensures Dated(reqs, r, st.t - 1)
  {
    var n := |st.order|;
    forall a | 0 <= a < n && r.At(a) >= 0
      ensures 1 <= r.Used(a) <= r.t && r.At(a) in reqs[r.Used(a) - 1]
      ensures forall j :: r.Used(a) <= j < st.t - 1 ==> r.At(a) !in reqs[j]
    {
      if a < n - 1 {
        var o := if a < p then a else a + 1;
        assert r.At(a) == st.At(o) && r.Used(a) == st.Used(o);
      }
    }
    UsedByUse(st, p, r);
  }

  lemma {:induction false} HitsDated(reqs: Requests, v: Serving, ks: seq<int>, j: nat)
    requires v.st.t >= 1 && Dated(reqs, v.st, v.st.t - 1) && j <= |ks|
    requires forall i :: 0 <= i < |ks| ==> ks[i] in reqs[v.st.t - 1]
    ensures Dated(reqs, Hits(v, ks, j).st, v.st.t - 1)
    decreases |ks| - j
  {
    if j == |ks| {
    } else {
      HitValid(v, ks[j]);
      HitDated(reqs, v, ks[j]);
      HitsDated(reqs, Hit(v, ks[j]), ks, j + 1);
    }
  }

  /** Below capacity a miss finds the head of the list empty or stale: were it
      not, the last pass would have asked for every expert held and for the
      missing one besides. */
  lemma HeadIsStale(reqs: Requests, v: Serving, k: int, passLen: nat)
    requires v.st.t >= 1 && Dated(reqs, v.st, v.st.t - 1) && passLen >= 1
    requires Below(reqs, |v.st.order|, passLen)
    requires k in reqs[v.st.t - 1] && k !in v.st.keyOf && k >= 0
    ensures StaleAt(v.st, passLen, 0)
  {
    assert k !in Resident(v.st.keyOf);
    assert |Resident(v.st.keyOf) + {k}| == |Resident(v.st.keyOf)| + 1;
    if !StaleAt(v.st, passLen, 0) {
      HeldInPass(reqs, v.st, passLen);
      InWindow(reqs, if v.st.t < passLen then 0 else v.st.t - passLen, v.st.t, v.st.t - 1);
      assert Resident(v.st.keyOf) + {k} <= LastPass(reqs, passLen, v.st.t);
      SubsetCard(Resident(v.st.keyOf) + {k}, LastPass(reqs, passLen, v.st.t));
    }
  }

  /** When the head of the list is neither empty nor stale, every slot is
      taken by an expert the last pass asked for. */
  lemma HeldInPass(reqs: Requests, st: State, passLen: nat)
    requires st.t >= 1 && Dated(reqs, st, st.t - 1) && passLen >= 1
    requires !StaleAt(st, passLen, 0)
    ensures Resident(st.keyOf) <= LastPass(reqs, passLen, st.t)
    ensures |Resident(st.keyOf)| == |st.order|
  {
    var lo := if st.t < passLen then 0 else st.t - passLen;
    forall x | x in Resident(st.keyOf) ensures x in Window(reqs, lo, st.t) {
      var a := Position(st.order, SlotOf(st.keyOf, x));
      assert st.At(a) == x && (a > 0 ==> st.Used(0) <= st.Used(a));
      InWindow(reqs, lo, st.t, st.Used(a) - 1);
    }
    assert st.At(0) >= 0;
    forall s | 0 <= s < |st.keyOf| ensures st.keyOf[s] >= 0 {
      assert st.At(Position(st.order, s)) == st.keyOf[s];
    }
    ResidentCard(st.keyOf);
  }

  // ------------------------------------------------------------ one plan

  /** Where a plan below capacity stands between its misses. */
  ghost predicate InPass(reqs: Requests, v: Serving, wanted: set<int>, passLen: nat) {
    && v.st.t >= 1 && passLen >= 1 && Dated(reqs, v.st, v.st.t - 1)
    && Below(reqs, |v.st.order|, passLen) && Holds(reqs, v.st, v.st.t - 1, passLen)
    && wanted == reqs[v.st.t - 1] && Mid(v, wanted) && |wanted| <= |v.st.order|
  }

  /** A miss below capacity: both rules take the same slot, the dates stay
      right, and nothing the last pass asked for goes. */
  lemma MissAgrees(reqs: Requests, v: Serving, wanted: set<int>, k: int, passLen: nat, score: int -> real)
    requires InPass(reqs, v, wanted, passLen) && k in wanted && k >= 0
    ensures k !in v.st.keyOf ==> v.Served() < |v.st.order|
    ensures var r := Miss(Lru, v, k, score);
      && r == Miss(StaleMru(passLen), v, k, score)
      && r.st.t == v.st.t && InPass(reqs, r, wanted, passLen)
  {
    MissMid(Lru, v, wanted, k, score);
    if k !in v.st.keyOf {
      HeadIsStale(reqs, v, k, passLen);
      var st, r := v.st, Take(v.st, v.st.order[0], k);
      TakeAt(st, 0, k);
      UsedDated(reqs, st, 0, r);
      AssignResident(st.keyOf, st.order[0], k);
      forall j | 0 <= j < st.t - 1 && r.t <= j + passLen ensures reqs[j] <= Resident(r.keyOf) {
        assert reqs[j] <= Resident(st.keyOf);
        assert st.At(0) >= 0 ==> st.Used(0) <= j;
      }
    }
  }

  lemma {:induction false} MissesAgree(reqs: Requests, v: Serving, wanted: set<int>, ks: seq<int>, j: nat,
                                       passLen: nat, score: int -> real)
    requires InPass(reqs, v, wanted, passLen) && j <= |ks|
    requires forall i :: 0 <= i < |ks| ==> ks[i] in wanted && ks[i] >= 0
    ensures var r := Misses(Lru, v, wanted, ks, j, score);
      && r == Misses(StaleMru(passLen), v, wanted, ks, j, score)
      && r.st.t == v.st.t && InPass(reqs, r, wanted, passLen)
    decreases |ks| - j
  {
    if j == |ks| {
    } else {
      MissAgrees(reqs, v, wanted, ks[j], passLen, score);
      MissMid(StaleMru(passLen), v, wanted, ks[j], score);
      MissesAgree(reqs, Miss(Lru, v, ks[j], score), wanted, ks, j + 1, passLen, score);
    }
  }

  /** Where a trace below capacity stands between two plans. */
  ghost predicate BetweenPlans(reqs: Requests, st: State, passLen: nat) {
    && passLen >= 1 && st.t <= |reqs| && Below(reqs, |st.order|, passLen)
    && Dated(reqs, st, st.t) && Holds(reqs, st, st.t, passLen)
  }

  /** One plan below capacity: both rules serve it alike. */
  lemma PlanAgrees(reqs: Requests, st: State, il: int, ks: seq<int>, passLen: nat, score: int -> real)
    requires BetweenPlans(reqs, st, passLen) && Fits(ks, |st.keyOf|)
    requires st.t < |reqs| && reqs[st.t] == Elems(ks)
    ensures var r := PlanStep(Lru, st, il, ks, score);
      && r == PlanStep(StaleMru(passLen), st, il, ks, score)
      && r.st.t == st.t + 1 && BetweenPlans(reqs, r.st, passLen)
  {
    SortedFits(ks, |st.keyOf|);
    BeginInPass(reqs, st, il, ks, passLen);
    MissesAgree(reqs, AfterHits(st, il, ks), Elems(ks), Sorted(ks), 0, passLen, score);
    PlanServed(Lru, st, il, ks, score);
    EndDated(reqs, PlanStep(Lru, st, il, ks, score), ks, passLen);
  }

  lemma BeginDated(reqs: Requests, st: State, il: int)
    requires Dated(reqs, st, st.t) && st.t < |reqs|
    ensures Dated(reqs, st.Begin(il), st.t)
  {
    BeginMid(st, il);
    var b := st.Begin(il);
    assert forall a :: 0 <= a < |st.order| ==> b.At(a) == st.At(a) && b.Used(a) == st.Used(a);
  }

  /** The hits of a plan change neither what is held nor the dates of others. */
  lemma BegunDated(reqs: Requests, st: State, il: int, ks: seq<int>)
    requires st.Valid() && Fits(ks, |st.keyOf|) && Dated(reqs, st, st.t)
    requires st.t < |reqs| && reqs[st.t] == Elems(ks)
    ensures Dated(reqs, AfterHits(st, il, ks).st, st.t)
  {
    BeginMid(st, il);
    BeginDated(reqs, st, il);
    assert forall i :: 0 <= i < |ks| ==> ks[i] in Elems(ks);
    HitsDated(reqs, Serving(st.Begin(il), 0, 0), ks, 0);
  }

  lemma BeginInPass(reqs: Requests, st: State, il: int, ks: seq<int>, passLen: nat)
    requires BetweenPlans(reqs, st, passLen) && Fits(ks, |st.keyOf|)
    requires st.t < |reqs| && reqs[st.t] == Elems(ks)
    ensures InPass(reqs, AfterHits(st, il, ks), Elems(ks), passLen)
  {
    BegunDated(reqs, st, il, ks);
    SortedFits(ks, |st.keyOf|);
  }

  /** At its end the plan counts among those asked for. */
  lemma EndDated(reqs: Requests, v: Serving, ks: seq<int>, passLen: nat)
    requires InPass(reqs, v, Elems(ks), passLen) && Elems(ks) <= Resident(v.st.keyOf)
    ensures BetweenPlans(reqs, v.st, passLen)
  {
  }

  // ------------------------------------------------------------ whole traces

  /** Over every trace that stays below capacity stale-MRU and LRU pass
      through the same caches, and what the last pass asked for is held. */
  lemma {:induction false} StaleMruIsLru(w: Workload, passLen: nat, scores: Scores, i: nat)
    requires w.Ok() && passLen >= 1 && |scores| == |w.plans| && i <= |w.plans|
    requires Below(w.Reqs(), w.n, passLen)
    ensures var st := ListAt(w, Lru, scores, i);
      && st == ListAt(w, StaleMru(passLen), scores, i)
      && BetweenPlans(w.Reqs(), st, passLen)
    ensures ListMisses(w, Lru, scores, i) == ListMisses(w, StaleMru(passLen), scores, i)
  {
    if i == 0 {
      EmptyValid(w.n);
    } else {
      StaleMruIsLru(w, passLen, scores, i - 1);
      w.Fit(i - 1);
      PlanAgrees(w.Reqs(), ListAt(w, Lru, scores, i - 1), w.plans[i - 1].il, w.Want(i - 1), passLen, scores[i - 1]);
    }
  }

  /** They serve every plan alike: the same hits, misses, slots and list. */
  lemma SameServing(w: Workload, passLen: nat, scores: Scores, i: nat)
    requires w.Ok() && passLen >= 1 && |scores| == |w.plans| && i < |w.plans|
    requires Below(w.Reqs(), w.n, passLen)
    ensures ListStep(w, Lru, scores, i) == ListStep(w, StaleMru(passLen), scores, i)
  {
    StaleMruIsLru(w, passLen, scores, i);
    w.Fit(i);
    PlanAgrees(w.Reqs(), ListAt(w, Lru, scores, i), w.plans[i].il, w.Want(i), passLen, scores[i]);
  }

  /** Neither misses an expert that one of the last `passLen` plans asked for. */
  lemma RecentlyServedHits(w: Workload, passLen: nat, scores: Scores, j: nat, i: nat)
    requires w.Ok() && passLen >= 1 && |scores| == |w.plans|
    requires Below(w.Reqs(), w.n, passLen)
    requires j < i < |w.plans| && i <= j + passLen
    ensures w.Reqs()[j] <= Resident(ListAt(w, Lru, scores, i).keyOf)
    ensures w.Reqs()[j] <= Resident(ListAt(w, StaleMru(passLen), scores, i).keyOf)
  {
    StaleMruIsLru(w, passLen, scores, i);
  }
}
