/** Which slot a miss takes: the recency list is in order of last use on every
    run, so what the scans of stale-MRU, stale-LFU and lfu-pass look at is what
    they are meant to (bench/moe_cache_sim/moe_cache_sim.cpp). */
module Victims {
  import opened Slots
  import opened RecencyList
  import opened Recency
  import opened Traces
  import opened Workloads
  import opened ListReplay

  /** The experts held are listed by their last use, and the empty slots, which
      come first, were never used. */
  ghost predicate ByUse(st: State) {
    && st.Valid()
    && forall a, b :: 0 <= a < b < |st.order| && st.At(a) >= 0 ==> st.Used(a) <= st.Used(b)
  }

  lemma UsedByUse(st: State, p: nat, r: State)
    requires ByUse(st) && p < |st.order|
    requires r.Valid() && |r.order| == |st.order| && r.t == st.t && r.Used(|st.order| - 1) == st.t
    requires forall j :: 0 <= j < p ==> r.At(j) == st.At(j) && r.Used(j) == st.Used(j)
    requires forall j :: p <= j < |st.order| - 1 ==> r.At(j) == st.At(j + 1) && r.Used(j) == st.Used(j + 1)
    ensures ByUse(r)
  {
    var n := |st.order|;
    forall a, b | 0 <= a < b < n && r.At(a) >= 0 ensures r.Used(a) <= r.Used(b) {
      UsedFrom(st, p, r, a);
      UsedFrom(st, p, r, b);
    }
  }

  /** Every slot but the last was in the list before, one place later if it was
      behind the one used. */
  lemma UsedFrom(st: State, p: nat, r: State, a: nat)
    requires ByUse(st) && p < |st.order| && r.Valid() && |r.order| == |st.order| && a < |st.order|
    requires r.t == st.t && r.Used(|st.order| - 1) == st.t
    requires a < p ==> r.At(a) == st.At(a) && r.Used(a) == st.Used(a)
    requires p <= a < |st.order| - 1 ==> r.At(a) == st.At(a + 1) && r.Used(a) == st.Used(a + 1)
    ensures a == |st.order| - 1 ==> r.Used(a) == st.t
    ensures a < |st.order| - 1 ==>
      var o := if a < p then a else a + 1;
      r.At(a) == st.At(o) && r.Used(a) == st.Used(o) && st.Used(o) <= st.t
  {
    assert st.Valid();
  }

  lemma {:induction false} HitsByUse(v: Serving, ks: seq<int>, j: nat)
    requires ByUse(v.st) && j <= |ks|
    ensures ByUse(Hits(v, ks, j).st)
    decreases |ks| - j
  {
    if j == |ks| {
    } else {
      HitValid(v, ks[j]);
      if ks[j] >= 0 && ks[j] in v.st.keyOf {
        var s := SlotOf(v.st.keyOf, ks[j]);
        AfterUse(v.st, s);
        UsedByUse(v.st, Position(v.st.order, s), Hit(v, ks[j]).st);
      }
      HitsByUse(Hit(v, ks[j]), ks, j + 1);
    }
  }

  lemma MissByUse(rule: Rule, v: Serving, wanted: set<int>, k: int, score: int -> real)
    requires Mid(v, wanted) && RuleOk(rule) && k in wanted && k >= 0 && |wanted| <= |v.st.order| && ByUse(v.st)
    ensures k !in v.st.keyOf ==> v.Served() < |v.st.order|
    ensures ByUse(Miss(rule, v, k, score).st)
  {
    MissMid(rule, v, wanted, k, score);
    if k !in v.st.keyOf {
      var p := VictimPos(rule, v.st, v.Served(), score);
      VictimOutside(rule, v, wanted, score);
      TakeAt(v.st, p, k);
      UsedByUse(v.st, p, Miss(rule, v, k, score).st);
    }
  }

  lemma {:induction false} MissesByUse(rule: Rule, v: Serving, wanted: set<int>, ks: seq<int>, j: nat,
                                       score: int -> real)
    requires Mid(v, wanted) && RuleOk(rule) && |wanted| <= |v.st.order| && j <= |ks|
    requires forall i :: 0 <= i < |ks| ==> ks[i] in wanted && ks[i] >= 0
    requires ByUse(v.st)
    ensures ByUse(Misses(rule, v, wanted, ks, j, score).st)
    decreases |ks| - j
  {
    if j == |ks| {
    } else {
      MissMid(rule, v, wanted, ks[j], score);
      MissByUse(rule, v, wanted, ks[j], score);
      MissesByUse(rule, Miss(rule, v, ks[j], score), wanted, ks, j + 1, score);
    }
  }

  lemma PlanByUse(rule: Rule, st: State, il: int, ks: seq<int>, score: int -> real)
    requires ByUse(st) && RuleOk(rule) && Fits(ks, |st.keyOf|)
    ensures ByUse(AfterHits(st, il, ks).st) && ByUse(PlanStep(rule, st, il, ks, score).st)
  {
    var v := Serving(st.Begin(il), 0, 0);
    BeginMid(st, il);
    assert forall a :: 0 <= a < |st.order| ==> v.st.At(a) == st.At(a) && v.st.Used(a) == st.Used(a);
    HitsByUse(v, ks, 0);
    SortedFits(ks, |st.keyOf|);
    MissesByUse(rule, AfterHits(st, il, ks), Elems(ks), Sorted(ks), 0, score);
  }

  /** On every run of every rule the recency list is in order of last use. */
  lemma {:induction false} RunByUse(w: Workload, rule: Rule, scores: Scores, i: nat)
    requires ListOk(w, rule, scores) && i <= |w.plans|
    ensures ByUse(ListAt(w, rule, scores, i))
  {
    if i == 0 {
      EmptyValid(w.n);
    } else {
      RunByUse(w, rule, scores, i - 1);
      w.Fit(i - 1);
      PlanByUse(rule, ListAt(w, rule, scores, i - 1), w.plans[i - 1].il, w.Want(i - 1), scores[i - 1]);
    }
  }

  // ------------------------------------------------------------ the scans

  /** `p` is the first of the slots in `[lo, hi)` with the lowest score. */
  ghost predicate FirstLowest(st: State, score: int -> real, lo: nat, hi: nat, p: nat)
    requires InRange(st) && hi <= |st.order|
  {
    && lo <= p < hi
    && (forall q :: lo <= q < hi ==> score(st.At(p)) <= score(st.At(q)))
    && (forall q :: lo <= q < p ==> score(st.At(p)) < score(st.At(q)))
  }

  /** `p` is the last of the slots in `[lo, hi)` with the lowest score. */
  ghost predicate LastLowest(st: State, score: int -> real, lo: nat, hi: nat, p: nat)
    requires InRange(st) && hi <= |st.order|
  {
    && lo <= p < hi
    && (forall q :: lo <= q < hi ==> score(st.At(p)) <= score(st.At(q)))
    && (forall q :: p < q < hi ==> score(st.At(p)) < score(st.At(q)))
  }

  /** Where the stale slots end, at most `window` of them unless it is 0. */
  ghost predicate StaleEnd(st: State, passLen: nat, window: nat, hi: nat)
    requires InRange(st)
  {
    && 1 <= hi <= |st.order|
    && (window == 0 || hi <= window)
    && (forall q :: 0 <= q < hi ==> StaleAt(st, passLen, q))
    && (hi == |st.order| || hi == window || !StaleAt(st, passLen, hi))
  }

  lemma {:induction false} ScanStaleLowest(st: State, passLen: nat, window: nat, score: int -> real,
                                           c: nat, best: nat, hi: nat)
    requires st.Valid() && st.At(0) >= 0 && StaleEnd(st, passLen, window, hi)
    requires best < c <= hi && FirstLowest(st, score, 0, c, best)
    ensures FirstLowest(st, score, 0, hi, ScanStale(st, passLen, window, score, c, c, best))
    decreases |st.order| - c
  {
    if c == hi {
      ScanStaleEnds(st, passLen, window, score, c, best);
    } else {
      var best' := if score(st.At(c)) < score(st.At(best)) then c else best;
      LowestNext(st, score, c, best);
      ScanStaleLowest(st, passLen, window, score, c + 1, best', hi);
      assert st.At(c) >= 0 && StaleAt(st, passLen, c);
    }
  }

  lemma ScanStaleEnds(st: State, passLen: nat, window: nat, score: int -> real, c: nat, best: nat)
    requires st.Valid() && st.At(0) >= 0 && StaleEnd(st, passLen, window, c) && best < c
    ensures ScanStale(st, passLen, window, score, c, c, best) == best
  {
  }

  lemma LowestNext(st: State, score: int -> real, c: nat, best: nat)
    requires InRange(st) && c < |st.order| && FirstLowest(st, score, 0, c, best)
    ensures FirstLowest(st, score, 0, c + 1, if score(st.At(c)) < score(st.At(best)) then c else best)
  {
  }

  /** Where this pass's slots begin, at most `window` of those before `top`. */
  ghost predicate PassBegin(st: State, window: nat, lo: nat, top: nat)
    requires InRange(st)
  {
    && lo < top <= |st.order|
    && (window == 0 || top - lo <= window)
    && (forall q :: lo <= q < top ==> st.Used(q) >= st.passStart)
    && (lo == 0 || top - lo == window || st.Used(lo - 1) < st.passStart)
  }

  lemma {:induction false} ScanBackLowest(st: State, window: nat, score: int -> real,
                                          c: int, best: nat, lo: nat, top: nat)
    requires InRange(st) && PassBegin(st, window, lo, top)
    requires lo - 1 <= c < best < top && LastLowest(st, score, c + 1, top, best)
    ensures LastLowest(st, score, lo, top, ScanBack(st, window, score, c, top - 1 - c, best))
    decreases c
  {
    if c >= lo {
      ScanBackLowest(st, window, score, c - 1, if score(st.At(c)) < score(st.At(best)) then c else best, lo, top);
    }
  }

  /** Among the first `window` looked at (0: all). */
  predicate Near(window: nat, q: nat) {
    window == 0 || q < window
  }

  /** The stale slots looked at reach every near one. */
  lemma FindEnd(st: State, passLen: nat, window: nat, q: nat) returns (hi: nat)
    requires InRange(st) && q < |st.order| && Near(window, q)
    requires forall a :: 0 <= a <= q ==> StaleAt(st, passLen, a)
    ensures q < hi && StaleEnd(st, passLen, window, hi)
  {
    hi := q + 1;
    while hi < |st.order| && hi != window && StaleAt(st, passLen, hi)
      invariant q < hi <= |st.order| && (window == 0 || hi <= window)
      invariant forall a :: 0 <= a < hi ==> StaleAt(st, passLen, a)
    {
      hi := hi + 1;
    }
  }

  /** This pass's slots looked at reach every near one. */
  lemma FindBegin(st: State, window: nat, q: nat, top: nat) returns (lo: nat)
    requires InRange(st) && q < top <= |st.order| && Near(window, top - 1 - q)
    requires forall a :: q <= a < top ==> st.Used(a) >= st.passStart
    ensures lo <= q && PassBegin(st, window, lo, top)
  {
    lo := q;
    while lo > 0 && top - lo != window && st.Used(lo - 1) >= st.passStart
      invariant lo <= q && (window == 0 || top - lo <= window)
      invariant forall a :: lo <= a < top ==> st.Used(a) >= st.passStart
    {
      lo := lo - 1;
    }
  }

  // ------------------------------------------------------------ what a miss takes

  /** With a stale slot and none empty, stale-LFU and lfu-pass take the one of
      lowest score among all the stale ones (among the `window` least recently
      used, when it is given), the least recently used of equals. */
  lemma TakesLowestStale(v: Serving, wanted: set<int>, passLen: nat, window: nat, behind: bool, score: int -> real,
                         q: nat)
    requires Mid(v, wanted) && ByUse(v.st) && v.Served() < |v.st.order| && passLen >= 1
    requires v.st.At(0) >= 0
    requires q < |v.st.order| && StaleAt(v.st, passLen, q) && Near(window, q)
    ensures var p := VictimPos(StaleLfu(passLen, window, behind), v.st, v.Served(), score);
      && StaleAt(v.st, passLen, p) && Near(window, p)
      && score(v.st.At(p)) <= score(v.st.At(q))
      && (q < p ==> score(v.st.At(p)) < score(v.st.At(q)))
  {
    assert forall a :: 0 <= a < q ==> v.st.At(a) >= 0 && StaleAt(v.st, passLen, a);
    var hi := FindEnd(v.st, passLen, window, q);
    ScanStaleLowest(v.st, passLen, window, score, 1, 0, hi);
  }

  /** Behind a slot of this pass come only slots of this pass. */
  lemma UsedSince(st: State, q: nat, top: nat)
    requires ByUse(st) && q < top <= |st.order| && st.At(0) >= 0 && st.Used(q) >= st.passStart
    ensures forall a :: q <= a < top ==> st.Used(a) >= st.passStart
  {
    assert st.At(q) >= 0;
  }

  lemma PassVictim(st: State, window: nat, score: int -> real, q: nat, top: nat)
    requires InRange(st) && q < top <= |st.order| && Near(window, top - 1 - q)
    requires forall a :: q <= a < top ==> st.Used(a) >= st.passStart
    ensures var p := ScanBack(st, window, score, top - 2, 1, top - 1);
      && p < top && st.Used(p) >= st.passStart && Near(window, top - 1 - p)
      && score(st.At(p)) <= score(st.At(q))
      && (p < q ==> score(st.At(p)) < score(st.At(q)))
  {
    var lo := FindBegin(st, window, q, top);
    ScanBackLowest(st, window, score, top - 2, top - 1, lo, top);
  }

  /** Then lfu-pass goes by its scan of this pass's slots. */
  lemma ByPass(v: Serving, passLen: nat, window: nat, score: int -> real, top: nat)
    requires v.st.Valid() && top == |v.st.order| - v.Served() && 1 <= top && !StaleAt(v.st, passLen, 0)
    requires v.st.Used(top - 1) >= v.st.passStart
    ensures VictimPos(StaleLfu(passLen, window, true), v.st, v.Served(), score) ==
      ScanBack(v.st, window, score, top - 2, 1, top - 1)
  {
  }

  /** With no slot empty or stale, lfu-pass takes the slot of lowest score among
      all those other layers used earlier in this pass (among the `window` used
      last, when it is given), the most recently used of equals. */
  lemma TakesLowestOfPass(v: Serving, wanted: set<int>, passLen: nat, window: nat, score: int -> real, q: nat)
    requires Mid(v, wanted) && ByUse(v.st) && v.Served() < |v.st.order| && passLen >= 1
    requires !StaleAt(v.st, passLen, 0)
    requires var top := |v.st.order| - v.Served();
      q < top && v.st.Used(q) >= v.st.passStart && Near(window, top - 1 - q)
    ensures var p, top := VictimPos(StaleLfu(passLen, window, true), v.st, v.Served(), score),
        |v.st.order| - v.Served();
      && p < top && v.st.Used(p) >= v.st.passStart && Near(window, top - 1 - p)
      && score(v.st.At(p)) <= score(v.st.At(q))
      && (p < q ==> score(v.st.At(p)) < score(v.st.At(q)))
  {
    var top: nat := |v.st.order| - v.Served();
    UsedSince(v.st, q, top);
    ByPass(v, passLen, window, score, top);
    PassVictim(v.st, window, score, q, top);
  }

  /** Stale-MRU takes a slot that is empty or was not used in the last pass
      whenever there is one, the least recently used; otherwise the most
      recently used of those that are not the plan's. */
  lemma TakesStaleOrNewest(v: Serving, wanted: set<int>, passLen: nat, q: nat)
    requires Mid(v, wanted) && ByUse(v.st) && v.Served() < |v.st.order| && passLen >= 1
    requires q < |v.st.order|
    ensures var p := VictimPos(StaleMru(passLen), v.st, v.Served(), _ => 0.0);
      && (StaleAt(v.st, passLen, q) ==> StaleAt(v.st, passLen, p) && p <= q)
      && (!StaleAt(v.st, passLen, p) && v.st.At(q) !in wanted ==> q <= p)
  {
    assert q > 0 && v.st.At(0) >= 0 ==> v.st.Used(0) <= v.st.Used(q);
  }

  /** LRU takes an empty slot, or else the least recently used one. */
  lemma TakesOldest(v: Serving, score: int -> real, q: nat)
    requires ByUse(v.st) && v.Served() < |v.st.order| && q < |v.st.order|
    ensures var p := VictimPos(Lru, v.st, v.Served(), score);
      && (v.st.At(q) < 0 ==> v.st.At(p) < 0)
      && (v.st.At(p) >= 0 ==> v.st.Used(p) <= v.st.Used(q))
  {
  }

  /** With no slot empty or stale, stale-LFU takes the most recently used of those
      that are not the plan's, and so does lfu-pass when no other layer used any in
      this pass. */
  lemma TakesNewest(v: Serving, wanted: set<int>, passLen: nat, window: nat, behind: bool, score: int -> real, q: nat)
    requires Mid(v, wanted) && ByUse(v.st) && v.Served() < |v.st.order| && q < |v.st.order|
    requires !StaleAt(v.st, passLen, 0) && v.st.At(q) !in wanted
    requires behind ==> forall a :: 0 <= a < |v.st.order| && v.st.At(a) !in wanted ==> v.st.Used(a) < v.st.passStart
    ensures var p := VictimPos(StaleLfu(passLen, window, behind), v.st, v.Served(), score);
      v.st.At(p) !in wanted && q <= p && v.st.Used(q) <= v.st.Used(p)
  {
    var p := |v.st.order| - 1 - v.Served();
    assert v.st.At(p) !in wanted && q <= p && v.st.At(0) >= 0;
  }

  // ------------------------------------------------------------ passes of no plans

  /** A score that prefers one expert to all others. */
  function Favour(k: int): int -> real {
    x => if x == k then 0.0 else 1.0
  }

  /** With passes of no plans every slot is stale, and the scan reaches as far as
      its window: here to the slot of the expert favoured. */
  lemma {:induction false} ScanFinds(st: State, window: nat, target: nat, c: nat, best: nat)
    requires st.Valid() && target < |st.order| && st.At(0) >= 0 && (window == 0 || target < window)
    requires best < c <= |st.order| && (c <= target || best == target)
    ensures ScanStale(st, 0, window, Favour(st.At(target)), c, c, best) == target
    decreases |st.order| - c
  {
    var score := Favour(st.At(target));
    assert best != target ==> st.At(best) != st.At(target);
    if c == |st.order| || (window != 0 && c >= window) {
    } else {
      assert st.At(c) >= 0 && (c != target ==> st.At(c) != st.At(target));
      ScanFinds(st, window, target, c + 1, if score(st.At(c)) < score(st.At(best)) then c else best);
    }
  }

  lemma {:induction false} ScanStaysNear(st: State, passLen: nat, window: nat, score: int -> real, c: nat, best: nat)
    requires InRange(st) && best < c <= |st.order| && best < window && c <= window
    ensures ScanStale(st, passLen, window, score, c, c, best) < window
    decreases |st.order| - c
  {
    if c == |st.order| || c >= window {
    } else {
      ScanStaysNear(st, passLen, window, score, c + 1, if score(st.At(c)) < score(st.At(best)) then c else best);
    }
  }

  /** When stale-LFU and lfu-pass are safe whatever the scores: when a pass has at
      least one plan, or none of the plan's slots is within the window, or a slot
      is empty. */
  predicate ScanSafe(v: Serving, passLen: nat, window: nat)
    requires InRange(v.st) && v.st.order != []
  {
    || passLen >= 1 || v.Served() == 0 || v.st.At(0) < 0
    || (window != 0 && window + v.Served() <= |v.st.order|)
  }

  /** They take none of the plan's slots, whatever the scores, exactly then. */
  lemma ScanSafeExactly(v: Serving, wanted: set<int>, passLen: nat, window: nat, behind: bool)
    requires Mid(v, wanted) && v.Served() < |v.st.order|
    ensures ScanSafe(v, passLen, window) <==> forall score: int -> real ::
      VictimPos(StaleLfu(passLen, window, behind), v.st, v.Served(), score) < |v.st.order| - v.Served()
  {
    var rule, n := StaleLfu(passLen, window, behind), |v.st.order|;
    if ScanSafe(v, passLen, window) {
      forall score: int -> real ensures VictimPos(rule, v.st, v.Served(), score) < n - v.Served() {
        SafeVictim(v, wanted, passLen, window, behind, score);
      }
    } else {
      ScanFinds(v.st, window, n - v.Served(), 1, 0);
      assert VictimPos(rule, v.st, v.Served(), Favour(v.st.At(n - v.Served()))) == n - v.Served();
    }
  }

  lemma SafeVictim(v: Serving, wanted: set<int>, passLen: nat, window: nat, behind: bool, score: int -> real)
    requires Mid(v, wanted) && v.Served() < |v.st.order| && ScanSafe(v, passLen, window)
    ensures VictimPos(StaleLfu(passLen, window, behind), v.st, v.Served(), score) < |v.st.order| - v.Served()
  {
    if passLen >= 1 {
      VictimOutside(StaleLfu(passLen, window, behind), v, wanted, score);
    } else if v.Served() > 0 && v.st.At(0) >= 0 {
      ScanStaysNear(v.st, passLen, window, score, 1, 0);
    }
  }

  /** A cache of experts 5 and 6, used in this order. */
  const SMALL: State := Cache([5, 6], [0, 1], [1, 2], 2, 0, 2)

  lemma SmallValid()
    ensures SMALL.Valid() && |SMALL.order| == 2
    ensures SMALL.At(0) == 5 && SMALL.At(1) == 6 && SMALL.Used(1) == SMALL.t
  {
    assert SMALL.order[0] == 0 && SMALL.order[1] == 1 && SMALL.keyOf[0] == 5 && SMALL.keyOf[1] == 6;
    assert SMALL.lastT[0] == 1 && SMALL.lastT[1] == 2;
  }

  lemma SmallMid(v: Serving)
    requires v.st.Valid() && |v.st.order| == 2 && v.Served() == 1
    requires v.st.At(0) == 5 && v.st.At(1) == 6 && v.st.Used(1) == v.st.t
    ensures Mid(v, {6})
  {
    forall i | 0 <= i < 2 ensures v.st.At(i) in {6} <==> i >= 1 {
      assert i == 0 || i == 1;
    }
  }

  /** With passes of no plans the slot of an expert just served can be taken: here
      that of 6, which is the plan's, when its score is the lower one. */
  lemma PassOfNoneTakesOwn()
    ensures Mid(Serving(SMALL, 1, 0), {6})
    ensures VictimPos(StaleLfu(0, 0, false), SMALL, 1, Favour(6)) == 1
  {
    SmallValid();
    SmallMid(Serving(SMALL, 1, 0));
    ScanFinds(SMALL, 0, 1, 1, 0);
  }
}
