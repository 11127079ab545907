/** The segmented policy on values: a probation and a protected recency list
    (`policy_slru` in bench/moe_cache_sim/moe_cache_sim.cpp). */
module Slru {
  import opened Slots
  import opened RecencyList

  /** The two lists hold each slot once between them. */
  ghost predicate IsPartition(p: seq<int>, q: seq<int>, n: nat) {
    && NoDup(p) && NoDup(q) && Elems(p) !! Elems(q)
    && forall s :: s in Elems(p) || s in Elems(q) <==> 0 <= s < n
  }

  /** The slots' experts and the two lists, least recent first. */
  datatype Segments = Segments(keyOf: seq<int>, probation: seq<int>, safe: seq<int>)
  {
    ghost predicate Valid() {
      && |keyOf| >= 1
      && Injective(keyOf)
      && IsPartition(probation, safe, |keyOf|)
      // no more than half the slots are protected
      && |safe| <= |keyOf| / 2
    }
  }

  function EmptySegments(n: nat): Segments {
    Segments(seq(n, _ => -1), seq(n, i => i), [])
  }

  ghost function Without(list: seq<int>, s: int): seq<int> {
    if s in list then
      var i := Position(list, s);
      list[..i] + list[i + 1..]
    else list
  }

  lemma WithoutElems(list: seq<int>, s: int)
    requires NoDup(list)
    ensures NoDup(Without(list, s)) && Elems(Without(list, s)) == Elems(list) - {s}
    ensures |Without(list, s)| == |list| - if s in list then 1 else 0
  {
    if s in list {
      var i, r := Position(list, s), Without(list, s);
      forall x | x in Elems(list) - {s} ensures x in r {
        var j := Position(list, x);
        assert r[if j < i then j else j - 1] == x;
      }
    }
  }

  /** Slot `s` goes to the recent end of one of the lists. */
  ghost function Moved(g: Segments, s: int, protect: bool): Segments {
    var p, q := Without(g.probation, s), Without(g.safe, s);
    if protect then g.(probation := p, safe := q + [s]) else g.(probation := p + [s], safe := q)
  }

  lemma MovedPartition(g: Segments, s: int, protect: bool)
    requires IsPartition(g.probation, g.safe, |g.keyOf|) && 0 <= s < |g.keyOf|
    ensures var m := Moved(g, s, protect);
      && IsPartition(m.probation, m.safe, |g.keyOf|)
      && |m.safe| == |g.safe| + (if protect then 1 else 0) - (if s in g.safe then 1 else 0)
  {
    WithoutElems(g.probation, s);
    WithoutElems(g.safe, s);
    var p, q := Without(g.probation, s), Without(g.safe, s);
    var list := if protect then q else p;
    assert s !in Elems(list);
    assert Elems(list + [s]) == Elems(list) + {s};
  }

  lemma MovedSafe(g: Segments, s: int, protect: bool)
    requires IsPartition(g.probation, g.safe, |g.keyOf|)
    ensures Elems(Moved(g, s, protect).safe) == if protect then Elems(g.safe) + {s} else Elems(g.safe) - {s}
  {
    WithoutElems(g.safe, s);
    var q := Without(g.safe, s);
    assert Elems(q + [s]) == Elems(q) + {s};
  }

  /** A use protects the slot; when that is one too many the least recently
      used protected slot goes back on probation. */
  ghost function TouchedIn(g: Segments, s: int): Segments {
    var m := Moved(g, s, true);
    if |m.safe| > |m.keyOf| / 2 then Moved(m, m.safe[0], false) else m
  }

  lemma TouchedValid(g: Segments, s: int)
    requires g.Valid() && 0 <= s < |g.keyOf|
    ensures TouchedIn(g, s).Valid()
  {
    MovedPartition(g, s, true);
    var m := Moved(g, s, true);
    if |m.safe| > |m.keyOf| / 2 {
      assert m.safe[0] in Elems(m.safe);
      MovedPartition(m, m.safe[0], false);
    }
  }

  // ------------------------------------------------------------ the victim

  /** Position of the first slot of a list that holds none of `wanted`. */
  function FirstFree(keyOf: seq<int>, list: seq<int>, wanted: set<int>, i: nat): (r: nat)
    requires forall j :: 0 <= j < |list| ==> 0 <= list[j] < |keyOf|
    requires i <= |list|
    ensures i <= r <= |list|
    ensures r < |list| ==> keyOf[list[r]] !in wanted
    ensures forall j :: i <= j < r ==> keyOf[list[j]] in wanted
    decreases |list| - i
  {
    if i == |list| || keyOf[list[i]] !in wanted then i else FirstFree(keyOf, list, wanted, i + 1)
  }

  ghost predicate Spare(g: Segments, wanted: set<int>) {
    exists s :: 0 <= s < |g.keyOf| && g.keyOf[s] !in wanted
  }

  lemma PartitionRange(p: seq<int>, q: seq<int>, n: nat)
    requires IsPartition(p, q, n)
    ensures forall j :: 0 <= j < |p| ==> 0 <= p[j] < n
    ensures forall j :: 0 <= j < |q| ==> 0 <= q[j] < n
  {
    forall j | 0 <= j < |p| ensures 0 <= p[j] < n { assert p[j] in Elems(p); }
    forall j | 0 <= j < |q| ensures 0 <= q[j] < n { assert q[j] in Elems(q); }
  }

  /** The least recently used slot of probation, else of the protected list,
      that holds none of the plan's experts; -1 if every slot does. */
  ghost function Victim(g: Segments, wanted: set<int>): (s: int)
    requires IsPartition(g.probation, g.safe, |g.keyOf|)
    ensures s == -1 || (0 <= s < |g.keyOf| && g.keyOf[s] !in wanted)
    ensures Spare(g, wanted) ==> s >= 0
  {
    PartitionRange(g.probation, g.safe, |g.keyOf|);
    var i := FirstFree(g.keyOf, g.probation, wanted, 0);
    var j := FirstFree(g.keyOf, g.safe, wanted, 0);
    if i < |g.probation| then g.probation[i]
    else if j < |g.safe| then g.safe[j]
    else
      assert !Spare(g, wanted) by {
        forall s | 0 <= s < |g.keyOf| ensures g.keyOf[s] in wanted {
          assert s in Elems(g.probation) || s in Elems(g.safe);
        }
      }
      -1
  }

  // ------------------------------------------------------------ one plan

  datatype SegServing = SegServing(g: Segments, hits: nat, misses: nat)

  /** While the experts `done` of a plan are looked up: what was served are
      those of them that are resident. */
  ghost predicate SegMid(v: SegServing, done: set<int>) {
    && v.g.Valid() && -1 !in done
    && v.hits + v.misses == |done * Resident(v.g.keyOf)|
  }

  ghost function SegHit(v: SegServing, k: int): SegServing {
    if k in v.g.keyOf then SegServing(TouchedIn(v.g, SlotOf(v.g.keyOf, k)), v.hits + 1, v.misses) else v
  }

  /** A missing expert takes the victim's slot, on probation. */
  ghost function SegTake(g: Segments, s: int, k: int): Segments
    requires 0 <= s < |g.keyOf|
  {
    Moved(g.(keyOf := g.keyOf[s := k]), s, false)
  }

  ghost function SegMiss(v: SegServing, wanted: set<int>, k: int): SegServing
    requires v.g.Valid() && (k !in v.g.keyOf ==> Spare(v.g, wanted))
  {
    if k in v.g.keyOf then v else SegServing(SegTake(v.g, Victim(v.g, wanted), k), v.hits, v.misses + 1)
  }

  lemma SegHitMid(v: SegServing, done: set<int>, k: int)
    requires SegMid(v, done) && k >= 0 && k !in done
    ensures SegMid(SegHit(v, k), done + {k}) && SegHit(v, k).g.keyOf == v.g.keyOf
  {
    var r := Resident(v.g.keyOf);
    if k in v.g.keyOf {
      TouchedValid(v.g, SlotOf(v.g.keyOf, k));
      assert k in r;
      assert (done + {k}) * r == done * r + {k};
    } else {
      assert k !in r;
      assert (done + {k}) * r == done * r;
    }
  }

  /** While an expert of the plan is missing, some slot holds none of them:
      there is always a victim. */
  lemma SpareLeft(g: Segments, wanted: set<int>, k: int)
    requires g.Valid() && -1 !in wanted
    requires k in wanted && k !in g.keyOf && |wanted| <= |g.keyOf|
    ensures Spare(g, wanted)
  {
    if !Spare(g, wanted) {
      assert forall s :: 0 <= s < |g.keyOf| ==> g.keyOf[s] in wanted && g.keyOf[s] >= 0;
      ResidentCard(g.keyOf);
      assert Resident(g.keyOf) <= wanted - {k};
      SubsetCard(Resident(g.keyOf), wanted - {k});
    }
  }

  lemma SegMissMid(v: SegServing, wanted: set<int>, k: int)
    requires SegMid(v, wanted) && k >= 0 && k in wanted && |wanted| <= |v.g.keyOf|
    ensures k !in v.g.keyOf ==> Spare(v.g, wanted)
    ensures var r := SegMiss(v, wanted, k);
      && SegMid(r, wanted) && |r.g.keyOf| == |v.g.keyOf| && r.hits == v.hits
      && k in Resident(r.g.keyOf)
      && Resident(v.g.keyOf) * wanted <= Resident(r.g.keyOf) <= Resident(v.g.keyOf) + wanted
  {
    if k !in v.g.keyOf {
      SpareLeft(v.g, wanted, k);
      var s := Victim(v.g, wanted);
      var g := v.g.(keyOf := v.g.keyOf[s := k]);
      AssignResident(v.g.keyOf, s, k);
      MovedPartition(g, s, false);
      Exchange(Resident(v.g.keyOf), Resident(g.keyOf), wanted, v.g.keyOf[s], k);
    }
  }

  /** A wanted expert in for one not wanted. */
  lemma Exchange(before: set<int>, after: set<int>, wanted: set<int>, x: int, k: int)
    requires after == before - {x} + {k} && x !in wanted && k in wanted && k !in before
    ensures |wanted * after| == |wanted * before| + 1
    ensures before * wanted <= after <= before + wanted
  {
    assert wanted * after == wanted * before + {k};
  }

  ghost function SegHits(v: SegServing, ks: seq<int>, j: nat): (r: SegServing)
    requires j <= |ks|
    ensures r.misses == v.misses
    decreases |ks| - j
  {
    if j == |ks| then v else SegHits(SegHit(v, ks[j]), ks, j + 1)
  }

  lemma {:induction false} SegHitsMid(v: SegServing, ks: seq<int>, j: nat)
    requires j <= |ks| && SegMid(v, Upto(ks, j)) && NoDup(ks)
    requires forall i :: 0 <= i < |ks| ==> ks[i] >= 0
    ensures SegMid(SegHits(v, ks, j), Elems(ks)) && SegHits(v, ks, j).g.keyOf == v.g.keyOf
    decreases |ks| - j
  {
    UptoEnds(ks);
    if j == |ks| {
    } else {
      UptoNext(ks, j);
      SegHitMid(v, Upto(ks, j), ks[j]);
      SegHitsMid(SegHit(v, ks[j]), ks, j + 1);
    }
  }

  ghost function SegMisses(v: SegServing, wanted: set<int>, ks: seq<int>, j: nat): (r: SegServing)
    requires SegMid(v, wanted) && |wanted| <= |v.g.keyOf| && j <= |ks|
    requires forall i :: 0 <= i < |ks| ==> ks[i] in wanted && ks[i] >= 0
    ensures SegMid(r, wanted) && |r.g.keyOf| == |v.g.keyOf|
    decreases |ks| - j
  {
    if j == |ks| then v else
      SegMissMid(v, wanted, ks[j]);
      SegMisses(SegMiss(v, wanted, ks[j]), wanted, ks, j + 1)
  }

  lemma {:induction false} SegMissesServe(v: SegServing, wanted: set<int>, ks: seq<int>, j: nat)
    requires SegMid(v, wanted) && |wanted| <= |v.g.keyOf| && j <= |ks|
    requires forall i :: 0 <= i < |ks| ==> ks[i] in wanted && ks[i] >= 0
    requires Upto(ks, j) <= Resident(v.g.keyOf)
    ensures var r := SegMisses(v, wanted, ks, j);
      && r.hits == v.hits
      && Resident(r.g.keyOf) <= Resident(v.g.keyOf) + wanted
      && Elems(ks) <= Resident(r.g.keyOf)
    decreases |ks| - j
  {
    UptoEnds(ks);
    if j == |ks| {
    } else {
      UptoNext(ks, j);
      SegMissMid(v, wanted, ks[j]);
      SegMissesServe(SegMiss(v, wanted, ks[j]), wanted, ks, j + 1);
    }
  }

  ghost function SegAfterHits(g: Segments, ks: seq<int>): (r: SegServing)
    requires g.Valid() && Fits(ks, |g.keyOf|)
    ensures SegMid(r, Elems(ks)) && r.misses == 0 && r.g.keyOf == g.keyOf
  {
    UptoEnds(ks);
    SegHitsMid(SegServing(g, 0, 0), ks, 0);
    SegHits(SegServing(g, 0, 0), ks, 0)
  }

  /** One plan: the hits in order of choice, then the misses in ascending order. */
  ghost function SegPlanStep(g: Segments, ks: seq<int>): (r: SegServing)
    requires g.Valid() && Fits(ks, |g.keyOf|)
    ensures r.g.Valid() && |r.g.keyOf| == |g.keyOf|
  {
    SortedFits(ks, |g.keyOf|);
    SegMisses(SegAfterHits(g, ks), Elems(ks), Sorted(ks), 0)
  }

  /** Every plan finds the segments whole and balanced and leaves them so, and
      is served: a victim is never missing and never one of the plan's own. */
  lemma SegPlanServed(g: Segments, ks: seq<int>)
    requires g.Valid() && Fits(ks, |g.keyOf|)
    ensures var r := SegPlanStep(g, ks); var before := Resident(g.keyOf); var after := Resident(r.g.keyOf);
      && r.g.Valid()
      && Elems(ks) <= after <= before + Elems(ks)
      && r.hits == |Elems(ks) * before|
      && r.misses == |Elems(ks) - before|
      && r.hits + r.misses == |ks|
  {
    var v, wanted, r := SegAfterHits(g, ks), Elems(ks), SegPlanStep(g, ks);
    SortedFits(ks, |g.keyOf|);
    UptoEnds(Sorted(ks));
    SegMissesServe(v, wanted, Sorted(ks), 0);
    assert wanted * Resident(r.g.keyOf) == wanted;
    assert |wanted - Resident(g.keyOf)| == |wanted| - |wanted * Resident(g.keyOf)|;
  }
}
