/** Belady's bound: taking out the expert whose next use is furthest away
    misses no more than any other way of running the cache on demand
    (`policy_opt` in bench/moe_cache_sim/moe_cache_sim.cpp). */
module Belady {
  import opened Slots

  const SIZE_MAX: nat := 0xffff_ffff_ffff_ffff

  /** The experts each plan asks for, as sets of keys. */
  type Requests = seq<set<int>>

  /** The first plan from `i` on that asks for `k`, `SIZE_MAX` if none does. */
  function NextUse(reqs: Requests, i: nat, k: int): (u: nat)
    requires i <= |reqs| <= SIZE_MAX
    ensures u == SIZE_MAX <==> forall j :: i <= j < |reqs| ==> k !in reqs[j]
    ensures u != SIZE_MAX ==> i <= u < |reqs| && k in reqs[u] && forall j :: i <= j < u ==> k !in reqs[j]
    decreases |reqs| - i
  {
    if i == |reqs| then SIZE_MAX else if k in reqs[i] then i else NextUse(reqs, i + 1, k)
  }

  /** `after` holds all of the plan's experts and brings in no others. */
  ghost predicate Serves(n: nat, wanted: set<int>, before: set<int>, after: set<int>) {
    |after| <= n && wanted <= after <= before + wanted
  }

  /** A strategy is the cache's content before the first plan and after each
      of those run so far. It is on demand when an expert comes in only for a plan that asks for
      it, and every plan ends with all it asked for in at most `n` slots. */
  ghost predicate OnDemand(reqs: Requests, n: nat, a: seq<set<int>>) {
    && 1 <= |a| <= |reqs| + 1
    && a[0] == {}
    && forall i :: 0 <= i < |a| - 1 ==> Serves(n, reqs[i], a[i], a[i + 1])
  }

  /** The misses of the first `i` plans. */
  ghost function Cost(reqs: Requests, a: seq<set<int>>, i: nat): nat
    requires i <= |reqs| && i <= |a|
  {
    if i == 0 then 0 else Cost(reqs, a, i - 1) + |reqs[i - 1] - a[i - 1]|
  }

  /** An expert taken out for plan `i` that is wanted again leaves a full cache
      in which nothing outside the plan is wanted later than it. */
  ghost predicate TakesFurthest(reqs: Requests, n: nat, i: nat, before: set<int>, after: set<int>)
    requires i < |reqs| <= SIZE_MAX
  {
    forall k :: k in before - after && NextUse(reqs, i + 1, k) < SIZE_MAX ==>
      && |after| == n
      && forall k' :: k' in after - reqs[i] ==> NextUse(reqs, i + 1, k') <= NextUse(reqs, i + 1, k)
  }

  ghost predicate Furthest(reqs: Requests, n: nat, b: seq<set<int>>)
    requires |reqs| <= SIZE_MAX && |b| <= |reqs| + 1
  {
    forall i :: 0 <= i < |b| - 1 ==> TakesFurthest(reqs, n, i, b[i], b[i + 1])
  }

  /** The experts of `s` wanted between plans `i` and `till`. */
  ghost function Due(reqs: Requests, i: nat, till: nat, s: set<int>): set<int>
    requires i <= |reqs| <= SIZE_MAX
  {
    set k | k in s && NextUse(reqs, i, k) <= till
  }

  /** How much better placed `a` is than `b` for the plans up to `till`. */
  ghost function Lead(reqs: Requests, i: nat, till: nat, a: set<int>, b: set<int>): int
    requires i <= |reqs| <= SIZE_MAX
  {
    |Due(reqs, i, till, a)| - |Due(reqs, i, till, b)|
  }

  /** What a cache holds of a plan is what is due now. */
  lemma DueNow(reqs: Requests, i: nat, s: set<int>)
    requires i < |reqs| <= SIZE_MAX
    ensures Due(reqs, i, i, s) == s * reqs[i]
  {
  }

  /** Past plan `i` what is due splits into what the plan asked for and the rest. */
  lemma DueAfter(reqs: Requests, i: nat, till: nat, s: set<int>)
    requires i < |reqs| <= SIZE_MAX && i < till && reqs[i] <= s
    ensures |Due(reqs, i + 1, till, s)| == |Due(reqs, i + 1, till, reqs[i])| + |Due(reqs, i + 1, till, s - reqs[i])|
  {
    assert Due(reqs, i + 1, till, s) == Due(reqs, i + 1, till, reqs[i]) + Due(reqs, i + 1, till, s - reqs[i]);
    assert Due(reqs, i + 1, till, reqs[i]) !! Due(reqs, i + 1, till, s - reqs[i]);
  }

  /** Before plan `i` the plan's own experts are all due by any later plan. */
  lemma DueBefore(reqs: Requests, i: nat, till: nat, s: set<int>)
    requires i < |reqs| <= SIZE_MAX && i < till
    ensures |Due(reqs, i, till, s)| == |s * reqs[i]| + |Due(reqs, i + 1, till, s - reqs[i])|
  {
    assert Due(reqs, i, till, s) == s * reqs[i] + Due(reqs, i + 1, till, s - reqs[i]);
    assert s * reqs[i] !! Due(reqs, i + 1, till, s - reqs[i]);
  }

  /** One plan leaves the lead of `a` no greater than before, corrected by the
      difference of misses, or wipes it out. */
  lemma LeadStep(reqs: Requests, n: nat, i: nat, till: nat, a: set<int>, a': set<int>, b: set<int>, b': set<int>)
    requires i < |reqs| <= SIZE_MAX && i < till < |reqs|
    requires Serves(n, reqs[i], a, a')
    requires Serves(n, reqs[i], b, b')
    requires TakesFurthest(reqs, n, i, b, b')
    ensures var lead' := Lead(reqs, i + 1, till, a', b');
      lead' <= 0 || lead' <= Lead(reqs, i, till, a, b) - |a * reqs[i]| + |b * reqs[i]|
  {
    var r := reqs[i];
    DueAfter(reqs, i, till, a');
    DueAfter(reqs, i, till, b');
    DueBefore(reqs, i, till, a);
    DueBefore(reqs, i, till, b);
    assert Due(reqs, i + 1, till, a' - r) <= Due(reqs, i + 1, till, a - r);
    SubsetCard(Due(reqs, i + 1, till, a' - r), Due(reqs, i + 1, till, a - r));
    if k :| k in b - b' && NextUse(reqs, i + 1, k) <= till {
      assert Due(reqs, i + 1, till, b' - r) == b' - r;
      SubsetCard(Due(reqs, i + 1, till, a' - r), a' - r);
      assert |a' - r| == |a'| - |r| by { assert a' * r == r; }
      assert |b' - r| == n - |r| by { assert b' * r == r; }
    } else {
      var due, due' := Due(reqs, i + 1, till, b - r), Due(reqs, i + 1, till, b' - r);
      forall k ensures k in due' <==> k in due {
        assert k in b - b' ==> NextUse(reqs, i + 1, k) > till;
      }
      assert due' == due;
    }
  }

  lemma {:induction false} LeadBounded(reqs: Requests, n: nat, a: seq<set<int>>, b: seq<set<int>>, i: nat)
    requires |reqs| <= SIZE_MAX && i <= |reqs|
    requires |a| == |b| == |reqs| + 1
    requires OnDemand(reqs, n, a) && OnDemand(reqs, n, b) && Furthest(reqs, n, b)
    ensures Cost(reqs, b, i) <= Cost(reqs, a, i)
    ensures forall till :: i <= till < |reqs| ==> Lead(reqs, i, till, a[i], b[i]) <= Cost(reqs, a, i) - Cost(reqs, b, i)
  {
    if i == 0 {
      return;
    }
    var p := i - 1;
    LeadBounded(reqs, n, a, b, p);
    DueNow(reqs, p, a[p]);
    DueNow(reqs, p, b[p]);
    assert Lead(reqs, p, p, a[p], b[p]) == |a[p] * reqs[p]| - |b[p] * reqs[p]|;
    assert |reqs[p] - a[p]| == |reqs[p]| - |reqs[p] * a[p]| && reqs[p] * a[p] == a[p] * reqs[p];
    assert |reqs[p] - b[p]| == |reqs[p]| - |reqs[p] * b[p]| && reqs[p] * b[p] == b[p] * reqs[p];
    forall till | i <= till < |reqs|
      ensures Lead(reqs, i, till, a[i], b[i]) <= Cost(reqs, a, i) - Cost(reqs, b, i)
    {
      assert TakesFurthest(reqs, n, p, b[p], b[p + 1]);
      assert Serves(n, reqs[p], a[p], a[p + 1]) && Serves(n, reqs[p], b[p], b[p + 1]);
      LeadStep(reqs, n, p, till, a[p], a[i], b[p], b[i]);
      assert Lead(reqs, p, till, a[p], b[p]) <= Cost(reqs, a, p) - Cost(reqs, b, p);
    }
  }

  /** No strategy on demand in `n` slots misses less than one that always
      takes the expert next used furthest away. */
  lemma FurthestIsOptimal(reqs: Requests, n: nat, a: seq<set<int>>, b: seq<set<int>>)
    requires |reqs| <= SIZE_MAX && |a| == |b| == |reqs| + 1
    requires OnDemand(reqs, n, a) && OnDemand(reqs, n, b) && Furthest(reqs, n, b)
    ensures Cost(reqs, b, |reqs|) <= Cost(reqs, a, |reqs|)
  {
    LeadBounded(reqs, n, a, b, |reqs|);
  }

  /** One more plan served on demand; `total` misses become `total'`. */
  lemma Extended(reqs: Requests, n: nat, i: nat, b: seq<set<int>>, total: nat, after: set<int>, total': nat)
    returns (a: seq<set<int>>)
    requires 0 < i <= |reqs| && |b| == i && OnDemand(reqs, n, b)
    requires Serves(n, reqs[i - 1], b[i - 1], after)
    requires Cost(reqs, b, i - 1) == total && total' - total == |reqs[i - 1] - b[i - 1]|
    ensures |a| == i + 1 && a == b + [after] && OnDemand(reqs, n, a)
    ensures Cost(reqs, a, i) == total'
  {
    a := b + [after];
    CostPrefix(reqs, b, a, i - 1);
    forall j | 0 <= j < i ensures Serves(n, reqs[j], a[j], a[j + 1]) {
      assert j < i - 1 ==> Serves(n, reqs[j], b[j], b[j + 1]);
    }
  }

  lemma FurthestNext(reqs: Requests, n: nat, b: seq<set<int>>, after: set<int>)
    requires 1 <= |b| <= |reqs| <= SIZE_MAX && Furthest(reqs, n, b)
    requires TakesFurthest(reqs, n, |b| - 1, b[|b| - 1], after)
    ensures Furthest(reqs, n, b + [after])
  {
    var a := b + [after];
    forall i | 0 <= i < |b| ensures TakesFurthest(reqs, n, i, a[i], a[i + 1]) {
      assert i < |b| - 1 ==> TakesFurthest(reqs, n, i, b[i], b[i + 1]);
    }
  }

  lemma {:induction false} CostPrefix(reqs: Requests, a: seq<set<int>>, b: seq<set<int>>, i: nat)
    requires i <= |reqs| && i <= |a| <= |b| && b[..|a|] == a
    ensures Cost(reqs, a, i) == Cost(reqs, b, i)
  {
    if i == 0 {
    } else {
      CostPrefix(reqs, a, b, i - 1);
      assert a[i - 1] == b[i - 1];
    }
  }
}
