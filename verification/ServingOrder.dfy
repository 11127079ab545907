/** In what order one plan's experts stand at the end of the recency list: those it
    found, as it chose them, then those it missed, in ascending order
    (`policy_lru::plan` in bench/moe_cache_sim/moe_cache_sim.cpp, and those like
    it). */
module ServingOrder {
  import opened Slots
  import opened RecencyList
  import opened Recency

  /** Those of `ks` that are among `these`, in their order. */
  function Only(ks: seq<int>, these: set<int>): seq<int> {
    if ks == [] then [] else (if ks[0] in these then [ks[0]] else []) + Only(ks[1..], these)
  }

  /** The experts in the last slots of the list, those served so far. */
  ghost function Ending(v: Serving): (es: seq<int>)
    requires v.st.Valid() && v.Served() <= |v.st.order|
    ensures |es| == v.Served()
  {
    var from := |v.st.order| - v.Served();
    seq(v.Served(), i requires 0 <= i < v.Served() => v.st.At(from + i))
  }

  /** From `v` to `r`, `es` were served. */
  ghost predicate Grew(v: Serving, r: Serving, es: seq<int>) {
    && v.st.Valid() && v.Served() <= |v.st.order| && r.st.Valid() && r.Served() <= |r.st.order|
    && Ending(r) == Ending(v) + es
  }

  lemma GrewOn(v: Serving, m: Serving, r: Serving, es: seq<int>, fs: seq<int>)
    requires Grew(v, m, es) && Grew(m, r, fs)
    ensures Grew(v, r, es + fs)
  {
  }

  /** What the `j`th of `ks` adds, if it is among `these`. */
  function One(ks: seq<int>, j: nat, these: set<int>): seq<int>
    requires j < |ks|
  {
    if ks[j] in these then [ks[j]] else []
  }

  lemma OnlyNext(ks: seq<int>, j: nat, these: set<int>)
    requires j < |ks|
    ensures Only(ks[j..], these) == One(ks, j, these) + Only(ks[j + 1..], these)
  {
    assert ks[j..][1..] == ks[j + 1..];
  }

  /** Slots behind position `p` move up, and one comes after them. */
  lemma OneMore(v: Serving, r: Serving, p: nat, k: int)
    requires v.st.Valid() && r.st.Valid() && |r.st.order| == |v.st.order|
    requires r.Served() == v.Served() + 1 && p < |v.st.order| - v.Served()
    requires r.st.At(|v.st.order| - 1) == k
    requires forall j :: p <= j < |v.st.order| - 1 ==> r.st.At(j) == v.st.At(j + 1)
    ensures Grew(v, r, [k])
  {
    var n, m := |v.st.order|, v.Served();
    forall i | 0 <= i < m ensures Ending(r)[i] == Ending(v)[i] {
      var j := n - m - 1 + i;
      assert r.st.At(j) == v.st.At(j + 1);
    }
  }

  lemma HitEnds(v: Serving, done: set<int>, k: int)
    requires Mid(v, done) && k >= 0 && k !in done
    ensures Mid(Hit(v, k), done + {k})
    ensures Grew(v, Hit(v, k), if k in v.st.keyOf then [k] else [])
  {
    HitMid(v, done, k);
    if k in v.st.keyOf {
      var s := SlotOf(v.st.keyOf, k);
      AfterUse(v.st, s);
      var p := Position(v.st.order, s);
      assert v.st.At(p) == k;
      OneMore(v, Hit(v, k), p, k);
    }
  }

  lemma {:induction false} HitsEnd(v: Serving, ks: seq<int>, j: nat)
    requires j <= |ks| && Mid(v, Upto(ks, j)) && NoDup(ks)
    requires forall i :: 0 <= i < |ks| ==> ks[i] >= 0
    ensures Mid(Hits(v, ks, j), Elems(ks))
    ensures Grew(v, Hits(v, ks, j), Only(ks[j..], Resident(v.st.keyOf)))
    decreases |ks| - j
  {
    HitsMid(v, ks, j);
    if j == |ks| {
      assert ks[j..] == [];
    } else {
      UptoNext(ks, j);
      HitEnds(v, Upto(ks, j), ks[j]);
      HitValid(v, ks[j]);
      var held := Resident(v.st.keyOf);
      HitsEnd(Hit(v, ks[j]), ks, j + 1);
      OnlyNext(ks, j, held);
      GrewOn(v, Hit(v, ks[j]), Hits(v, ks, j), One(ks, j, held), Only(ks[j + 1..], held));
    }
  }

  lemma MissEnds(rule: Rule, v: Serving, wanted: set<int>, k: int, score: int -> real)
    requires Mid(v, wanted) && RuleOk(rule)
    requires k in wanted && k >= 0 && |wanted| <= |v.st.order|
    ensures k !in v.st.keyOf ==> v.Served() < |v.st.order|
    ensures var r := Miss(rule, v, k, score);
      && Mid(r, wanted)
      && Grew(v, r, if k in v.st.keyOf then [] else [k])
      && forall x :: x in wanted && x != k ==> (x in r.st.keyOf <==> x in v.st.keyOf)
  {
    MissMid(rule, v, wanted, k, score);
    if k !in v.st.keyOf {
      VictimOutside(rule, v, wanted, score);
      var p := VictimPos(rule, v.st, v.Served(), score);
      TakeAt(v.st, p, k);
      OneMore(v, Miss(rule, v, k, score), p, k);
      OthersStay(v, wanted, p, k);
    }
  }

  /** Giving away a slot that holds none of `wanted` keeps those of them that have
      one. */
  lemma OthersStay(v: Serving, wanted: set<int>, p: nat, k: int)
    requires Mid(v, wanted) && p < |v.st.order| - v.Served()
    ensures forall x :: x in wanted && x != k ==> (x in v.st.keyOf[v.st.order[p] := k] <==> x in v.st.keyOf)
  {
    var s := v.st.order[p];
    var after := v.st.keyOf[s := k];
    assert v.st.At(p) == v.st.keyOf[s] && v.st.keyOf[s] !in wanted;
    forall x | x in wanted && x != k ensures x in after <==> x in v.st.keyOf {
      if x in v.st.keyOf {
        var i :| 0 <= i < |v.st.keyOf| && v.st.keyOf[i] == x;
        assert after[i] == x;
      }
    }
  }

  lemma {:induction false} MissesEnd(rule: Rule, v: Serving, wanted: set<int>, ks: seq<int>, j: nat,
                                     absent: set<int>, score: int -> real)
    requires Mid(v, wanted) && RuleOk(rule) && WantsAll(ks, wanted, |v.st.order|) && j <= |ks| && NoDup(ks)
    requires forall i :: j <= i < |ks| ==> (ks[i] in absent <==> ks[i] !in v.st.keyOf)
    ensures Grew(v, Misses(rule, v, wanted, ks, j, score), Only(ks[j..], absent))
    decreases |ks| - j
  {
    if j == |ks| {
      assert ks[j..] == [];
    } else {
      MissEnds(rule, v, wanted, ks[j], score);
      MissesEnd(rule, Miss(rule, v, ks[j], score), wanted, ks, j + 1, absent, score);
      OnlyNext(ks, j, absent);
      GrewOn(v, Miss(rule, v, ks[j], score), Misses(rule, v, wanted, ks, j, score), One(ks, j, absent),
             Only(ks[j + 1..], absent));
    }
  }

  /** A plan before anything of it is served. */
  ghost function Begun(st: State, il: int): Serving {
    Serving(st.Begin(il), 0, 0)
  }

  lemma HitsInOrder(st: State, il: int, ks: seq<int>)
    requires st.Valid() && Fits(ks, |st.keyOf|)
    ensures Grew(Begun(st, il), AfterHits(st, il, ks), Only(ks, Resident(st.keyOf)))
  {
    BeginMid(st, il);
    UptoEnds(ks);
    HitsEnd(Begun(st, il), ks, 0);
    assert ks[0..] == ks;
  }

  lemma MissesInOrder(rule: Rule, st: State, il: int, ks: seq<int>, absent: set<int>, score: int -> real)
    requires st.Valid() && RuleOk(rule) && Fits(ks, |st.keyOf|) && absent == Elems(ks) - Resident(st.keyOf)
    ensures Grew(AfterHits(st, il, ks), PlanStep(rule, st, il, ks, score), Only(Sorted(ks), absent))
  {
    SortedFits(ks, |st.keyOf|);
    var sorted := Sorted(ks);
    forall i | 0 <= i < |sorted| ensures sorted[i] in absent <==> sorted[i] !in st.keyOf {
      assert sorted[i] in Elems(sorted);
    }
    MissesEnd(rule, AfterHits(st, il, ks), Elems(ks), sorted, 0, absent, score);
    assert sorted[0..] == sorted;
  }

  /** After a plan the end of the recency list holds the experts it found resident,
      in the order in which it chose them, and then those it missed, the lowest
      first, whatever the rule and the scores. */
  lemma PlanInOrder(rule: Rule, st: State, il: int, ks: seq<int>, score: int -> real)
    requires st.Valid() && RuleOk(rule) && Fits(ks, |st.keyOf|)
    ensures Ending(PlanStep(rule, st, il, ks, score)) ==
      Only(ks, Resident(st.keyOf)) + Only(Sorted(ks), Elems(ks) - Resident(st.keyOf))
  {
    var held, missed := Only(ks, Resident(st.keyOf)), Only(Sorted(ks), Elems(ks) - Resident(st.keyOf));
    HitsInOrder(st, il, ks);
    MissesInOrder(rule, st, il, ks, Elems(ks) - Resident(st.keyOf), score);
    GrewOn(Begun(st, il), AfterHits(st, il, ks), PlanStep(rule, st, il, ks, score), held, missed);
    assert Ending(Begun(st, il)) == [];
  }
}
