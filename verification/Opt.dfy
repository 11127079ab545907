/** Belady's policy with its arrays and its ordered set
    (`policy_opt` in bench/moe_cache_sim/moe_cache_sim.cpp). */
module Opt {
  import opened Slots
  import opened Belady
  import opened Traces
  import opened NextUses

  /** The slots' experts and the next use of each slot's expert. */
  datatype OptState = OptState(keyOf: seq<int>, nextOf: seq<nat>)

  function EmptyOpt(n: nat): OptState {
    OptState(seq(n, _ => -1), seq(n, _ => SIZE_MAX))
  }

  /** A plan under way: `inPlan` are the slots it has used. */
  datatype OptServing = OptServing(keyOf: seq<int>, nextOf: seq<nat>, inPlan: set<int>, hits: nat, misses: nat)

  /** The order of the set of slots: the furthest next use first, then the
      higher slot. */
  predicate Before(a: (nat, int), b: (nat, int)) {
    a.0 > b.0 || (a.0 == b.0 && a.1 > b.1)
  }

  /** `s` is the first slot in that order that the plan has not used. */
  ghost predicate IsVictim(nextOf: seq<nat>, inPlan: set<int>, s: int) {
    && 0 <= s < |nextOf| && s !in inPlan
    && forall x :: 0 <= x < |nextOf| && x !in inPlan && x != s ==> Before((nextOf[s], s), (nextOf[x], x))
  }

  lemma {:induction false} VictimExists(nextOf: seq<nat>, inPlan: set<int>, n: nat) returns (s: int)
    requires n <= |nextOf|
    requires exists x :: 0 <= x < n && x !in inPlan
    ensures 0 <= s < n && s !in inPlan
    ensures forall x :: 0 <= x < n && x !in inPlan && x != s ==> Before((nextOf[s], s), (nextOf[x], x))
  {
    if exists x :: 0 <= x < n - 1 && x !in inPlan {
      s := VictimExists(nextOf, inPlan, n - 1);
      if n - 1 !in inPlan && Before((nextOf[n - 1], n - 1), (nextOf[s], s)) {
        s := n - 1;
      }
    } else {
      s := n - 1;
    }
  }

  ghost function Victim(nextOf: seq<nat>, inPlan: set<int>): (s: int)
    requires exists x :: 0 <= x < |nextOf| && x !in inPlan
    ensures IsVictim(nextOf, inPlan, s)
  {
    assert exists s :: IsVictim(nextOf, inPlan, s) by {
      var s := VictimExists(nextOf, inPlan, |nextOf|);
      assert IsVictim(nextOf, inPlan, s);
    }
    var s :| IsVictim(nextOf, inPlan, s); s
  }

  // ------------------------------------------------------------ one plan

  /** What holds before plan `i`: every slot knows when its expert is next used. */
  ghost predicate Knows(reqs: Requests, i: nat, st: OptState)
    requires i <= |reqs| <= SIZE_MAX
  {
    && |st.nextOf| == |st.keyOf|
    && Injective(st.keyOf)
    && forall s :: 0 <= s < |st.keyOf| ==>
      st.nextOf[s] == if st.keyOf[s] < 0 then SIZE_MAX else NextUse(reqs, i, st.keyOf[s])
  }

  /** During plan `i`, once the experts of `done` were looked up, the slots
      used are those that hold them, and each slot knows its next use past
      the plan. */
  ghost predicate Marked(reqs: Requests, i: nat, done: set<int>, v: OptServing)
    requires i < |reqs| <= SIZE_MAX
  {
    && |v.nextOf| == |v.keyOf|
    && Injective(v.keyOf)
    && -1 !in done && done <= reqs[i]
    && (forall s :: s in v.inPlan <==> 0 <= s < |v.keyOf| && v.keyOf[s] in done)
    && (forall s :: 0 <= s < |v.keyOf| ==>
          v.nextOf[s] == if v.keyOf[s] < 0 then SIZE_MAX
                         else NextUse(reqs, if v.keyOf[s] in done then i + 1 else i, v.keyOf[s]))
    && v.hits + v.misses == |v.inPlan|
  }

  /** Of what was resident at the start nothing the plan wants was taken out,
      and what was taken out is wanted later than all that is left outside
      the plan, or never again. */
  ghost predicate Kept(reqs: Requests, i: nat, start: set<int>, v: OptServing)
    requires i < |reqs| <= SIZE_MAX
  {
    && start * reqs[i] <= Resident(v.keyOf) <= start + reqs[i]
    && forall k, s :: k in start - Resident(v.keyOf) && NextUse(reqs, i + 1, k) < SIZE_MAX
                      && 0 <= s < |v.keyOf| && s !in v.inPlan ==>
         0 <= v.keyOf[s] && NextUse(reqs, i + 1, v.keyOf[s]) <= NextUse(reqs, i + 1, k)
  }

  ghost function Hit(v: OptServing, k: int, u: nat): OptServing
    requires |v.nextOf| == |v.keyOf|
  {
    if k in v.keyOf then
      var s := SlotOf(v.keyOf, k);
      v.(nextOf := v.nextOf[s := u], inPlan := v.inPlan + {s}, hits := v.hits + 1)
    else v
  }

  ghost predicate Free(v: OptServing) {
    exists x :: 0 <= x < |v.nextOf| && x !in v.inPlan
  }

  ghost function Miss(v: OptServing, k: int, u: nat): OptServing
    requires |v.nextOf| == |v.keyOf|
    requires k !in v.keyOf ==> Free(v)
  {
    if k in v.keyOf then v else
      var s := Victim(v.nextOf, v.inPlan);
      v.(keyOf := v.keyOf[s := k], nextOf := v.nextOf[s := u], inPlan := v.inPlan + {s}, misses := v.misses + 1)
  }

  lemma HitKeeps(reqs: Requests, i: nat, start: set<int>, done: set<int>, v: OptServing, k: int)
    requires i < |reqs| <= SIZE_MAX && Marked(reqs, i, done, v) && Kept(reqs, i, start, v)
    requires k in reqs[i] && k >= 0 && k !in done
    ensures var r := Hit(v, k, NextUse(reqs, i + 1, k));
      Marked(reqs, i, done + {k}, r) && Kept(reqs, i, start, r)
  {
    var r := Hit(v, k, NextUse(reqs, i + 1, k));
    if k in v.keyOf {
      var s := SlotOf(v.keyOf, k);
      assert s !in v.inPlan;
      assert forall x :: 0 <= x < |v.keyOf| && x != s ==> v.keyOf[x] != k;
    } else {
      assert forall s :: 0 <= s < |v.keyOf| ==> v.keyOf[s] != k;
    }
  }

  /** While an expert of the plan has no slot, one is not the plan's. */
  lemma RoomLeft(reqs: Requests, i: nat, v: OptServing, k: int)
    requires i < |reqs| <= SIZE_MAX && Marked(reqs, i, reqs[i], v)
    requires k in reqs[i] && k !in v.keyOf && |reqs[i]| <= |v.keyOf|
    ensures Free(v)
  {
    if !Free(v) {
      assert forall s :: 0 <= s < |v.keyOf| ==> s in v.inPlan && v.keyOf[s] in reqs[i];
      assert |Resident(v.keyOf)| == |v.keyOf| by { ResidentCard(v.keyOf); }
      assert Resident(v.keyOf) <= reqs[i] - {k};
      SubsetCard(Resident(v.keyOf), reqs[i] - {k});
    }
  }

  lemma MissKeeps(reqs: Requests, i: nat, start: set<int>, v: OptServing, k: int)
    requires i < |reqs| <= SIZE_MAX && Marked(reqs, i, reqs[i], v) && Kept(reqs, i, start, v)
    requires k in reqs[i] && k >= 0 && |reqs[i]| <= |v.keyOf|
    ensures k !in v.keyOf ==> Free(v)
    ensures var r := Miss(v, k, NextUse(reqs, i + 1, k));
      && Marked(reqs, i, reqs[i], r) && Kept(reqs, i, start, r)
      && Resident(v.keyOf) * reqs[i] + {k} <= Resident(r.keyOf)
  {
    if k !in v.keyOf {
      RoomLeft(reqs, i, v, k);
      MissMarked(reqs, i, v, k);
      MissKept(reqs, i, start, v, k);
      AssignResident(v.keyOf, Victim(v.nextOf, v.inPlan), k);
    }
  }

  lemma MissMarked(reqs: Requests, i: nat, v: OptServing, k: int)
    requires i < |reqs| <= SIZE_MAX && Marked(reqs, i, reqs[i], v)
    requires k in reqs[i] && k >= 0 && k !in v.keyOf && Free(v)
    ensures Marked(reqs, i, reqs[i], Miss(v, k, NextUse(reqs, i + 1, k)))
  {
    AssignResident(v.keyOf, Victim(v.nextOf, v.inPlan), k);
  }

  lemma MissKept(reqs: Requests, i: nat, start: set<int>, v: OptServing, k: int)
    requires i < |reqs| <= SIZE_MAX && Marked(reqs, i, reqs[i], v) && Kept(reqs, i, start, v)
    requires k in reqs[i] && k >= 0 && k !in v.keyOf && Free(v)
    ensures Kept(reqs, i, start, Miss(v, k, NextUse(reqs, i + 1, k)))
  {
    var s, r := Victim(v.nextOf, v.inPlan), Miss(v, k, NextUse(reqs, i + 1, k));
    AssignResident(v.keyOf, s, k);
    var before, after := Resident(v.keyOf), Resident(r.keyOf);
    assert v.keyOf[s] !in reqs[i];
    forall x, y | x in start - after && NextUse(reqs, i + 1, x) < SIZE_MAX && 0 <= y < |r.keyOf| && y !in r.inPlan
      ensures 0 <= r.keyOf[y] && NextUse(reqs, i + 1, r.keyOf[y]) <= NextUse(reqs, i + 1, x)
    {
      assert r.keyOf[y] == v.keyOf[y];
      if x in before {
        assert x == v.keyOf[s];
        VictimFurthest(reqs, i, v, y);
      } else {
        KeptSoFar(reqs, i, start, v, x, y);
      }
    }
  }

  lemma KeptSoFar(reqs: Requests, i: nat, start: set<int>, v: OptServing, x: int, y: int)
    requires i < |reqs| <= SIZE_MAX && Kept(reqs, i, start, v)
    requires x in start && x !in Resident(v.keyOf) && NextUse(reqs, i + 1, x) < SIZE_MAX
    requires 0 <= y < |v.keyOf| && y !in v.inPlan
    ensures 0 <= v.keyOf[y] && NextUse(reqs, i + 1, v.keyOf[y]) <= NextUse(reqs, i + 1, x)
  {
    assert x in start - Resident(v.keyOf);
  }

  /** What stays outside the plan is wanted no later than the victim. */
  lemma VictimFurthest(reqs: Requests, i: nat, v: OptServing, y: int)
    requires i < |reqs| <= SIZE_MAX && Marked(reqs, i, reqs[i], v) && Free(v)
    requires var s := Victim(v.nextOf, v.inPlan);
      && v.keyOf[s] >= 0 && NextUse(reqs, i + 1, v.keyOf[s]) < SIZE_MAX
      && 0 <= y < |v.keyOf| && y !in v.inPlan && y != s
    ensures 0 <= v.keyOf[y]
    ensures NextUse(reqs, i + 1, v.keyOf[y]) <= NextUse(reqs, i + 1, v.keyOf[Victim(v.nextOf, v.inPlan)])
  {
    var s := Victim(v.nextOf, v.inPlan);
    assert Before((v.nextOf[s], s), (v.nextOf[y], y));
  }

  /** The hits among `ks` from the `j`th on. */
  ghost function Hits(reqs: Requests, i: nat, v: OptServing, ks: seq<int>, j: nat): (r: OptServing)
    requires i < |reqs| <= SIZE_MAX && |v.nextOf| == |v.keyOf| && j <= |ks|
    ensures |r.nextOf| == |r.keyOf| && r.keyOf == v.keyOf && r.misses == v.misses
    decreases |ks| - j
  {
    if j == |ks| then v else Hits(reqs, i, Hit(v, ks[j], NextUse(reqs, i + 1, ks[j])), ks, j + 1)
  }

  /** The misses among `ks` from the `j`th on. */
  ghost function Misses(reqs: Requests, i: nat, start: set<int>, v: OptServing, ks: seq<int>, j: nat): (r: OptServing)
    requires i < |reqs| <= SIZE_MAX && Marked(reqs, i, reqs[i], v) && Kept(reqs, i, start, v)
    requires |reqs[i]| <= |v.keyOf| && j <= |ks|
    requires forall x :: 0 <= x < |ks| ==> ks[x] >= 0 && ks[x] in reqs[i]
    ensures Marked(reqs, i, reqs[i], r) && Kept(reqs, i, start, r)
    ensures |r.keyOf| == |v.keyOf| && r.hits == v.hits
    decreases |ks| - j
  {
    if j == |ks| then v else
      MissKeeps(reqs, i, start, v, ks[j]);
      Misses(reqs, i, start, Miss(v, ks[j], NextUse(reqs, i + 1, ks[j])), ks, j + 1)
  }

  lemma {:induction false} MissesServe(reqs: Requests, i: nat, start: set<int>, v: OptServing, ks: seq<int>, j: nat)
    requires i < |reqs| <= SIZE_MAX && Marked(reqs, i, reqs[i], v) && Kept(reqs, i, start, v)
    requires |reqs[i]| <= |v.keyOf| && j <= |ks|
    requires forall x :: 0 <= x < |ks| ==> ks[x] >= 0 && ks[x] in reqs[i]
    requires Upto(ks, j) <= Resident(v.keyOf)
    ensures Elems(ks) <= Resident(Misses(reqs, i, start, v, ks, j).keyOf)
    decreases |ks| - j
  {
    UptoEnds(ks);
    if j == |ks| {
    } else {
      UptoNext(ks, j);
      MissKeeps(reqs, i, start, v, ks[j]);
      MissesServe(reqs, i, start, Miss(v, ks[j], NextUse(reqs, i + 1, ks[j])), ks, j + 1);
    }
  }

  lemma {:induction false} HitsKeep(reqs: Requests, i: nat, start: set<int>, v: OptServing, ks: seq<int>, j: nat)
    requires i < |reqs| <= SIZE_MAX && j <= |ks|
    requires Marked(reqs, i, Upto(ks, j), v) && Kept(reqs, i, start, v)
    requires NoDup(ks) && forall x :: 0 <= x < |ks| ==> ks[x] >= 0 && ks[x] in reqs[i]
    ensures var r := Hits(reqs, i, v, ks, j);
      Marked(reqs, i, Elems(ks), r) && Kept(reqs, i, start, r)
    decreases |ks| - j
  {
    UptoEnds(ks);
    if j == |ks| {
    } else {
      UptoNext(ks, j);
      HitKeeps(reqs, i, start, Upto(ks, j), v, ks[j]);
      HitsKeep(reqs, i, start, Hit(v, ks[j], NextUse(reqs, i + 1, ks[j])), ks, j + 1);
    }
  }

  /** The experts `ks`, in order of choice, are what plan `i` asks for. */
  ghost predicate IsPlan(reqs: Requests, i: nat, n: nat, ks: seq<int>)
    requires i < |reqs|
  {
    && NoDup(ks) && Elems(ks) == reqs[i] && |ks| <= n
    && forall j :: 0 <= j < |ks| ==> ks[j] >= 0 && ks[j] in reqs[i]
  }

  lemma WantsArePlan(nLayer: nat, nExpert: nat, plans: seq<PlanRec>, i: nat, n: nat)
    requires i < |plans| && PlanOk(nLayer, nExpert, plans[i]) && |Distinct(plans[i].ids)| <= n
    ensures IsPlan(Asked(nExpert, plans), i, n, Wants(nExpert, plans[i]))
    ensures |Asked(nExpert, plans)[i]| <= n
  {
    var ks := Wants(nExpert, plans[i]);
    WantsFit(nLayer, nExpert, plans[i]);
    forall j | 0 <= j < |ks| ensures ks[j] in Elems(ks) {}
    NoDupCard(ks);
  }

  /** In the middle of the misses: `first` was before them, `v` is before the `j`th. */
  ghost predicate Missing(reqs: Requests, i: nat, start: set<int>, n: nat, ks: seq<int>, first: OptServing,
                          v: OptServing, j: nat)
    requires i < |reqs| <= SIZE_MAX
  {
    && IsPlan(reqs, i, n, ks) && |reqs[i]| <= n == |first.keyOf| == |v.keyOf| && j <= |ks|
    && Marked(reqs, i, reqs[i], first) && Kept(reqs, i, start, first)
    && Marked(reqs, i, reqs[i], v) && Kept(reqs, i, start, v)
    && Misses(reqs, i, start, v, ks, j) == Misses(reqs, i, start, first, ks, 0)
  }

  lemma MissingNext(reqs: Requests, i: nat, start: set<int>, n: nat, ks: seq<int>, first: OptServing, v: OptServing,
                    j: nat)
    requires i < |reqs| <= SIZE_MAX && Missing(reqs, i, start, n, ks, first, v, j) && j < |ks|
    ensures ks[j] !in v.keyOf ==> Free(v)
    ensures Missing(reqs, i, start, n, ks, first, Miss(v, ks[j], NextUse(reqs, i + 1, ks[j])), j + 1)
  {
    MissKeeps(reqs, i, start, v, ks[j]);
  }

  ghost function AfterHits(reqs: Requests, i: nat, st: OptState, ks: seq<int>): (r: OptServing)
    requires i < |reqs| <= SIZE_MAX && Knows(reqs, i, st) && IsPlan(reqs, i, |st.keyOf|, ks)
    ensures Marked(reqs, i, reqs[i], r) && Kept(reqs, i, Resident(st.keyOf), r)
    ensures r.keyOf == st.keyOf && r.misses == 0
  {
    var v := OptServing(st.keyOf, st.nextOf, {}, 0, 0);
    UptoEnds(ks);
    HitsKeep(reqs, i, Resident(st.keyOf), v, ks, 0);
    Hits(reqs, i, v, ks, 0)
  }

  /** Serving plan `i`: its hits, then its misses, both in order of choice. */
  ghost function PlanStep(reqs: Requests, i: nat, st: OptState, ks: seq<int>): (r: OptServing)
    requires i < |reqs| <= SIZE_MAX && Knows(reqs, i, st) && IsPlan(reqs, i, |st.keyOf|, ks)
    ensures Marked(reqs, i, reqs[i], r) && |r.keyOf| == |st.keyOf|
  {
    NoDupCard(ks);
    Misses(reqs, i, Resident(st.keyOf), AfterHits(reqs, i, st, ks), ks, 0)
  }

  /** The experts in the slots `ss`. */
  ghost function Image(keyOf: seq<int>, ss: set<int>): set<int>
    requires forall s :: s in ss ==> 0 <= s < |keyOf|
  {
    set s | s in ss :: keyOf[s]
  }

  lemma {:induction false} ImageCard(keyOf: seq<int>, ss: set<int>)
    requires Injective(keyOf)
    requires forall s :: s in ss ==> 0 <= s < |keyOf| && keyOf[s] >= 0
    ensures |Image(keyOf, ss)| == |ss|
  {
    if ss == {} {
      assert Image(keyOf, ss) == {};
    } else {
      var x := Pick(ss);
      ImageCard(keyOf, ss - {x});
      assert Image(keyOf, ss) == Image(keyOf, ss - {x}) + {keyOf[x]};
      assert keyOf[x] !in Image(keyOf, ss - {x});
      assert ss == ss - {x} + {x};
    }
  }

  /** The slots a plan used are as many as its experts the cache holds. */
  lemma MarkedCard(reqs: Requests, i: nat, v: OptServing)
    requires i < |reqs| <= SIZE_MAX && Marked(reqs, i, reqs[i], v)
    ensures |v.inPlan| == |reqs[i] * Resident(v.keyOf)|
  {
    ImageCard(v.keyOf, v.inPlan);
    assert reqs[i] * Resident(v.keyOf) == Image(v.keyOf, v.inPlan);
  }

  /** At the end of the plan what was taken out is next used furthest. */
  lemma EndTakesFurthest(reqs: Requests, i: nat, start: set<int>, v: OptServing)
    requires i < |reqs| <= SIZE_MAX && Marked(reqs, i, reqs[i], v) && Kept(reqs, i, start, v)
    ensures TakesFurthest(reqs, |v.keyOf|, i, start, Resident(v.keyOf))
  {
    var after := Resident(v.keyOf);
    ResidentCard(v.keyOf);
    forall k | k in start - after && NextUse(reqs, i + 1, k) < SIZE_MAX
      ensures |after| == |v.keyOf|
      ensures forall k' :: k' in after - reqs[i] ==> NextUse(reqs, i + 1, k') <= NextUse(reqs, i + 1, k)
    {
      assert forall s :: 0 <= s < |v.keyOf| ==> v.keyOf[s] >= 0;
    }
  }

  /** One plan of the policy is on demand and takes the furthest next use,
      counts its misses, and leaves every slot knowing its next use again. */
  lemma PlanTakesFurthest(reqs: Requests, i: nat, st: OptState, ks: seq<int>)
    requires i < |reqs| <= SIZE_MAX && Knows(reqs, i, st) && IsPlan(reqs, i, |st.keyOf|, ks)
    ensures var r := PlanStep(reqs, i, st, ks);
      var before, after := Resident(st.keyOf), Resident(r.keyOf);
      && Knows(reqs, i + 1, OptState(r.keyOf, r.nextOf))
      && Serves(|st.keyOf|, reqs[i], before, after)
      && TakesFurthest(reqs, |st.keyOf|, i, before, after)
      && r.misses == |reqs[i] - before| && r.hits + r.misses == |reqs[i]|
  {
    NoDupCard(ks);
    var v, r := AfterHits(reqs, i, st, ks), PlanStep(reqs, i, st, ks);
    var before, after := Resident(st.keyOf), Resident(r.keyOf);
    ResidentCard(r.keyOf);
    UptoEnds(ks);
    MissesServe(reqs, i, before, v, ks, 0);
    MarkedCard(reqs, i, v);
    MarkedCard(reqs, i, r);
    assert reqs[i] * after == reqs[i];
    assert |reqs[i] - before| == |reqs[i]| - |reqs[i] * before|;
    EndTakesFurthest(reqs, i, before, r);
  }

  // ------------------------------------------------------------ the class

  /** The pairs of the ordered set. */
  function Pairs(nextOf: seq<nat>): set<(nat, int)> {
    set s | 0 <= s < |nextOf| :: (nextOf[s], s)
  }

  lemma PairsUpdate(nextOf: seq<nat>, s: nat, u: nat)
    requires s < |nextOf|
    ensures Pairs(nextOf[s := u]) == Pairs(nextOf) - {(nextOf[s], s)} + {(u, s)}
  {
    var a, b := Pairs(nextOf[s := u]), Pairs(nextOf) - {(nextOf[s], s)} + {(u, s)};
    forall p | p in a ensures p in b {
      assert p.1 != s ==> p == (nextOf[p.1], p.1);
    }
    forall p | p in b ensures p in a {
      assert p == (nextOf[s := u][p.1], p.1);
    }
  }

  lemma BeforeTotal(a: (nat, int), b: (nat, int))
    ensures a == b || Before(a, b) || Before(b, a)
  {
    assert a == (a.0, a.1) && b == (b.0, b.1);
  }

  lemma {:induction false} FirstExists(rest: set<(nat, int)>) returns (k: (nat, int))
    requires rest != {}
    ensures k in rest && forall j :: j in rest && j != k ==> Before(k, j)
  {
    var x :| x in rest;
    k := x;
    if rest != {x} {
      assert rest - {x} != {};
      var y := FirstExists(rest - {x});
      BeforeTotal(x, y);
      if Before(y, x) {
        k := y;
      }
      forall j | j in rest && j != k ensures Before(k, j) {
        assert j == x || j in rest - {x};
        assert j == y || j == x || Before(y, j);
      }
    }
  }

  /** `std::map` built from a row of the look-ahead. */
  function PairsMap(row: seq<(int, nat)>): map<int, nat> {
    if row == [] then map[] else PairsMap(row[1..])[row[0].0 := row[0].1]
  }

  lemma {:induction false} PairsMapFinds(row: seq<(int, nat)>, j: nat)
    requires forall a, b :: 0 <= a < b < |row| ==> row[a].0 != row[b].0
    requires j < |row|
    ensures row[j].0 in PairsMap(row) && PairsMap(row)[row[j].0] == row[j].1
  {
    if j == 0 {
    } else {
      PairsMapFinds(row[1..], j - 1);
    }
  }

  class PolicyOpt {
    const tab: Table
    const nextUse: seq<seq<(int, nat)>>   // [plan] what ComputeNextUses found
    const nextOf: array<nat>              // [slot]
    const inPlan: array<nat>              // [slot]
    var gen: nat
    var order: set<(nat, int)>            // iterated furthest first

    ghost const Repr: set<object>

    ghost predicate Valid()
      reads this, Repr, tab, tab.Repr
    {
      && Repr == {this, nextOf, inPlan} + tab.Repr
      && this !in tab.Repr && nextOf !in tab.Repr && inPlan !in tab.Repr && nextOf != inPlan
      && tab.Valid()
      && nextOf.Length == inPlan.Length == tab.nSlots
      && (forall s :: 0 <= s < inPlan.Length ==> inPlan[s] <= gen)
      && order == Pairs(nextOf[..])
    }

    ghost function State(): OptState
      reads this, nextOf, tab, tab.keyOf
    {
      OptState(tab.keyOf[..], nextOf[..])
    }

    ghost function Serving(hits: nat, misses: nat): OptServing
      reads this, nextOf, inPlan, tab, tab.keyOf
    {
      OptServing(tab.keyOf[..], nextOf[..], (set s | 0 <= s < inPlan.Length && inPlan[s] == gen), hits, misses)
    }

    constructor (nLayer: nat, nExpert: nat, nSlots: nat, nextUse: seq<seq<(int, nat)>>)
      ensures Valid() && fresh(Repr)
      ensures tab.nLayer == nLayer && tab.nExpert == nExpert && tab.nSlots == nSlots
      ensures this.nextUse == nextUse && gen == 0
      ensures State() == EmptyOpt(nSlots)
    {
      var t := new Table(nLayer, nExpert, nSlots);
      var a := new nat[nSlots](_ => SIZE_MAX);
      var b := new nat[nSlots](_ => 0);
      tab, nextOf, inPlan := t, a, b;
      this.nextUse := nextUse;
      gen := 0;
      order := Pairs(seq(nSlots, _ => SIZE_MAX));
      Repr := {this, a, b} + t.Repr;
      new;
      assert nextOf[..] == seq(nSlots, _ => SIZE_MAX);
    }

    /** Slot `s` is used by this plan and its expert next used at `u`. */
    method SetNext(s: int, u: nat, ghost hits: nat, ghost misses: nat)
      requires Valid() && 0 <= s < tab.nSlots
      modifies this, nextOf, inPlan
      ensures Valid() && gen == old(gen)
      ensures Serving(hits, misses) == var v := old(Serving(hits, misses));
        v.(nextOf := v.nextOf[s := u], inPlan := v.inPlan + {s})
    {
      PairsUpdate(nextOf[..], s, u);
      order := order - {(nextOf[s], s)};
      nextOf[s] := u;
      order := order + {(u, s)};
      inPlan[s] := gen;
    }

    /** The first slot of the ordered set that the plan has not used. */
    method FirstOutside(ghost hits: nat, ghost misses: nat) returns (s: int)
      requires Valid() && Free(Serving(hits, misses))
      ensures s == Victim(nextOf[..], Serving(hits, misses).inPlan)
    {
      ghost var used := Serving(hits, misses).inPlan;
      ghost var x :| 0 <= x < nextOf.Length && x !in used;
      var rest := order;
      assert (nextOf[x], x) in rest;
      s := -1;
      while s < 0
        invariant rest <= order && s < 0
        invariant forall y :: 0 <= y < nextOf.Length && y !in used ==> (nextOf[y], y) in rest
        decreases rest
      {
        assert (nextOf[x], x) in rest;
        ghost var first := FirstExists(rest);
        var k :| k in rest && forall j :: j in rest && j != k ==> Before(k, j);
        if inPlan[k.1] != gen {
          s := k.1;
          assert IsVictim(nextOf[..], used, s);
          break;
        }
        rest := rest - {k};
      }
    }
  
    /** Plan `i` of `plans` is layer `il`'s, and its look-ahead is exact. */
    ghost predicate Serves(i: nat, il: int, plans: seq<PlanRec>)
      reads this, tab
    {
      && i < |plans| < UINT32_WRAP
      && plans[i].il == il && PlanOk(tab.nLayer, tab.nExpert, plans[i])
      && Exact(tab.nExpert, plans, nextUse)
    }

    /** Expert `e` of layer `il`, next used at `u`, hits if it has a slot. */
    method ServeHit(il: int, e: int, u: nat, hits: nat) returns (hits': nat)
      requires Valid() && 0 <= il < tab.nLayer && 0 <= e < tab.nExpert
      modifies this, nextOf, inPlan
      ensures Valid() && gen == old(gen)
      ensures Serving(hits', 0) == Hit(old(Serving(hits, 0)), Key(tab.nExpert, il, e), u)
    {
      hits' := hits;
      tab.Finds(il, e);
      var s := tab.slotOf[il * tab.nExpert + e];
      if s >= 0 {
        SetNext(s, u, hits, 0);
        hits' := hits + 1;
      }
    }

    method ServeHits(i: nat, il: int, ghost plans: seq<PlanRec>) returns (hits: nat)
      requires Valid() && Serves(i, il, plans) && tab.uniq == Distinct(plans[i].ids)
      modifies this, nextOf, inPlan
      ensures Valid() && gen == old(gen)
      ensures Serving(hits, 0) ==
        Hits(Asked(tab.nExpert, plans), i, old(Serving(0, 0)), Wants(tab.nExpert, plans[i]), 0)
    {
      ghost var reqs, ks := Asked(tab.nExpert, plans), Wants(tab.nExpert, plans[i]);
      var nxt := PairsMap(nextUse[i]);
      assert RowExact(tab.nExpert, plans, i, nextUse[i]);
      hits := 0;
      var j := 0;
      while j < |tab.uniq|
        invariant 0 <= j <= |tab.uniq| && Valid() && gen == old(gen)
        invariant Hits(reqs, i, Serving(hits, 0), ks, j) == Hits(reqs, i, old(Serving(0, 0)), ks, 0)
      {
        var e := tab.uniq[j];
        WantAt(tab.nLayer, tab.nExpert, plans[i], j);
        PairsMapFinds(nextUse[i], j);
        hits := ServeHit(il, e, nxt[e], hits);
        j := j + 1;
      }
    }

    /** Expert `e` of layer `il`, next used at `u`, gets a slot if it has none. */
    method ServeMiss(il: int, e: int, u: nat, hits: nat, misses: nat) returns (misses': nat)
      requires Valid() && 0 <= il < tab.nLayer && 0 <= e < tab.nExpert
      requires Key(tab.nExpert, il, e) !in tab.keyOf[..] ==> Free(Serving(hits, misses))
      modifies this, nextOf, inPlan, tab.slotOf, tab.keyOf
      ensures Valid() && gen == old(gen)
      ensures Serving(hits, misses') == Miss(old(Serving(hits, misses)), Key(tab.nExpert, il, e), u)
    {
      misses' := misses;
      tab.Finds(il, e);
      if tab.slotOf[il * tab.nExpert + e] < 0 {
        var s := FirstOutside(hits, misses);
        tab.Assign(s, il, e);
        SetNext(s, u, hits, misses);
        misses' := misses + 1;
      }
    }

    method ServeMisses(i: nat, il: int, hits: nat, ghost plans: seq<PlanRec>, ghost start: set<int>)
      returns (misses: nat)
      requires Valid() && Serves(i, il, plans) && tab.uniq == Distinct(plans[i].ids)
      requires Missing(Asked(tab.nExpert, plans), i, start, tab.nSlots, Wants(tab.nExpert, plans[i]),
                       Serving(hits, 0), Serving(hits, 0), 0)
      modifies this, nextOf, inPlan, tab.slotOf, tab.keyOf
      ensures Valid() && gen == old(gen)
      ensures Serving(hits, misses) ==
        Misses(Asked(tab.nExpert, plans), i, start, old(Serving(hits, 0)), Wants(tab.nExpert, plans[i]), 0)
    {
      ghost var reqs, ks := Asked(tab.nExpert, plans), Wants(tab.nExpert, plans[i]);
      ghost var first := Serving(hits, 0);
      var nxt := PairsMap(nextUse[i]);
      assert RowExact(tab.nExpert, plans, i, nextUse[i]);
      misses := 0;
      var j := 0;
      while j < |tab.uniq|
        invariant 0 <= j <= |tab.uniq| && Valid() && gen == old(gen)
        invariant Missing(reqs, i, start, tab.nSlots, ks, first, Serving(hits, misses), j)
      {
        var e := tab.uniq[j];
        WantAt(tab.nLayer, tab.nExpert, plans[i], j);
        PairsMapFinds(nextUse[i], j);
        MissingNext(reqs, i, start, tab.nSlots, ks, first, Serving(hits, misses), j);
        misses := ServeMiss(il, e, nxt[e], hits, misses);
        j := j + 1;
      }
    }

    /** Plan `i` of `plans`: layer `il` chose `ids`. False, with the cache as it
        was, when they are more distinct experts than there are slots. */
    method Plan(i: nat, il: int, ids: seq<int>, ghost plans: seq<PlanRec>) returns (ok: bool, hits: nat, misses: nat)
      requires Valid() && gen + 1 < UINT32_WRAP
      requires Serves(i, il, plans) && plans[i].ids == ids
      requires Knows(Asked(tab.nExpert, plans), i, State())
      modifies Repr
      ensures Valid() && gen == old(gen) + 1
      ensures ok <==> |Distinct(ids)| <= tab.nSlots
      ensures !ok ==> State() == old(State())
      ensures ok ==>
        var reqs, ks := Asked(tab.nExpert, plans), Wants(tab.nExpert, plans[i]);
        && IsPlan(reqs, i, tab.nSlots, ks)
        && Serving(hits, misses) == PlanStep(reqs, i, old(State()), ks)
    {
      ghost var reqs, ks, st := Asked(tab.nExpert, plans), Wants(tab.nExpert, plans[i]), State();
      hits, misses := 0, 0;
      gen := gen + 1;
      ok := tab.FindDistinct(ids);
      assert State() == st;
      if !ok {
        return;
      }
      WantsArePlan(tab.nLayer, tab.nExpert, plans, i, tab.nSlots);
      assert Serving(0, 0) == OptServing(st.keyOf, st.nextOf, {}, 0, 0);
      hits := ServeHits(i, il, plans);
      assert Serving(hits, 0) == AfterHits(reqs, i, st, ks);
      misses := ServeMisses(i, il, hits, plans, Resident(st.keyOf));
    }
  }
}
