/** Upstream's policy (`policy_lru` in bench/moe_cache_sim/moe_cache_sim.cpp). */
module PolicyLru {
  import opened Options
  import opened Slots
  import opened RecencyList
  import opened Recency
  import opened Traces

  class Policy {
    const tab: Table
    const lru: LruList

    // what LRU does not read, but the other list policies keep
    ghost var lastT: seq<nat>
    ghost var t: nat
    ghost var lastIl: int
    ghost var passStart: nat

    ghost const Repr: set<object>

    ghost predicate Shape()
      reads this, Repr, tab, tab.Repr, lru, lru.Repr
    {
      && Repr == {this} + tab.Repr + lru.Repr
      && this !in tab.Repr && this !in lru.Repr && tab.Repr !! lru.Repr
      && tab.Valid() && lru.Valid() && lru.n == tab.nSlots
    }

    ghost function State(): State
      reads this, tab, tab.keyOf, lru
    {
      Cache(tab.keyOf[..], lru.order, lastT, t, lastIl, passStart)
    }

    ghost predicate Valid()
      reads this, Repr, tab, tab.Repr, lru, lru.Repr
    {
      Shape() && State().Valid()
    }

    constructor (nLayer: nat, nExpert: nat, nSlots: nat)
      requires nSlots >= 1
      ensures Valid() && fresh(Repr)
      ensures tab.nLayer == nLayer && tab.nExpert == nExpert && tab.nSlots == nSlots
      ensures State() == Empty(nSlots)
    {
      var a := new Table(nLayer, nExpert, nSlots);
      var b := new LruList(nSlots);
      tab, lru := a, b;
      lastT, t, lastIl, passStart := seq(nSlots, _ => 0), 0, INT32_MAX, 0;
      Repr := {this} + a.Repr + b.Repr;
      new;
      EmptyValid(nSlots);
    }

    /** Slot `s` is used by this plan. */
    method Use(s: int)
      requires Shape() && |lastT| == tab.nSlots && 0 <= s < tab.nSlots
      modifies this, lru, lru.prev, lru.next
      ensures Shape() && State() == old(State()).Use(s)
    {
      lru.Touch(s);
      lastT := lastT[s := t];
    }

    /** Expert `e` of layer `il` hits if it has a slot. */
    method ServeHit(il: int, e: int, hits: nat) returns (hits': nat)
      requires Valid() && 0 <= il < tab.nLayer && 0 <= e < tab.nExpert
      modifies this, lru, lru.prev, lru.next
      ensures Valid()
      ensures Serving(State(), hits', 0) == Hit(Serving(old(State()), hits, 0), Key(tab.nExpert, il, e))
    {
      hits' := hits;
      tab.Finds(il, e);
      HitValid(Serving(State(), hits, 0), Key(tab.nExpert, il, e));
      var s := tab.slotOf[il * tab.nExpert + e];
      if s >= 0 {
        Use(s);
        hits' := hits + 1;
      }
    }

    method ServeHits(il: int) returns (hits: nat)
      requires Valid() && 0 <= il < tab.nLayer
      requires forall i :: 0 <= i < |tab.uniq| ==> 0 <= tab.uniq[i] < tab.nExpert
      modifies this, lru, lru.prev, lru.next
      ensures Valid()
      ensures Serving(State(), hits, 0) == Hits(Serving(old(State()), 0, 0), Keys(tab.nExpert, il, tab.uniq), 0)
    {
      ghost var ks := Keys(tab.nExpert, il, tab.uniq);
      hits := 0;
      var j := 0;
      while j < |tab.uniq|
        invariant 0 <= j <= |tab.uniq| && Valid()
        invariant Hits(Serving(State(), hits, 0), ks, j) == Hits(Serving(old(State()), 0, 0), ks, 0)
      {
        hits := ServeHit(il, tab.uniq[j], hits);
        j := j + 1;
      }
    }

    /** Expert `e` of layer `il` takes the least recently used slot if it has none. */
    method ServeMiss(il: int, e: int, hits: nat, misses: nat, ghost wanted: set<int>, ghost score: int -> real)
      returns (misses': nat)
      requires Valid() && 0 <= il < tab.nLayer && 0 <= e < tab.nExpert
      requires Mid(Serving(State(), hits, misses), wanted) && |wanted| <= tab.nSlots
      requires Key(tab.nExpert, il, e) in wanted
      modifies this, lru, lru.prev, lru.next, tab.slotOf, tab.keyOf
      ensures Valid()
      ensures Key(tab.nExpert, il, e) !in old(State()).keyOf ==> hits + misses < tab.nSlots
      ensures Serving(State(), hits, misses') ==
        Miss(Lru, Serving(old(State()), hits, misses), Key(tab.nExpert, il, e), score)
    {
      misses' := misses;
      tab.Finds(il, e);
      MissMid(Lru, Serving(State(), hits, misses), wanted, Key(tab.nExpert, il, e), score);
      if tab.slotOf[il * tab.nExpert + e] < 0 {
        var s := lru.head;
        tab.Assign(s, il, e);
        Use(s);
        misses' := misses + 1;
      }
    }

    /** The `j`th expert of the plan. */
    method ServeNext(il: int, j: nat, hits: nat, misses: nat, ghost ks: seq<int>, ghost wanted: set<int>,
                     ghost score: int -> real) returns (misses': nat)
      requires Valid() && 0 <= il < tab.nLayer && ks == Keys(tab.nExpert, il, tab.uniq)
      requires j < |tab.uniq| && 0 <= tab.uniq[j] < tab.nExpert
      requires ToCome(Lru, Serving(State(), hits, misses), wanted, ks, j, score).Some?
      modifies this, lru, lru.prev, lru.next, tab.slotOf, tab.keyOf
      ensures Valid()
      ensures ToCome(Lru, Serving(State(), hits, misses'), wanted, ks, j + 1, score) ==
        ToCome(Lru, Serving(old(State()), hits, misses), wanted, ks, j, score)
    {
      ToComeNext(Lru, Serving(State(), hits, misses), wanted, ks, j, score);
      misses' := ServeMiss(il, tab.uniq[j], hits, misses, wanted, score);
    }

    method ServeMisses(il: int, hits: nat, ghost ks: seq<int>, ghost wanted: set<int>, ghost score: int -> real)
      returns (misses: nat)
      requires Valid() && 0 <= il < tab.nLayer && ks == Keys(tab.nExpert, il, tab.uniq)
      requires forall i :: 0 <= i < |tab.uniq| ==> 0 <= tab.uniq[i] < tab.nExpert
      requires ToCome(Lru, Serving(State(), hits, 0), wanted, ks, 0, score).Some?
      modifies this, lru, lru.prev, lru.next, tab.slotOf, tab.keyOf
      ensures Valid()
      ensures Some(Serving(State(), hits, misses)) == ToCome(Lru, Serving(old(State()), hits, 0), wanted, ks, 0, score)
    {
      ghost var served := ToCome(Lru, Serving(State(), hits, 0), wanted, ks, 0, score);
      misses := 0;
      var j := 0;
      while j < |tab.uniq|
        invariant 0 <= j <= |tab.uniq| && Valid()
        invariant ToCome(Lru, Serving(State(), hits, misses), wanted, ks, j, score) == served
      {
        misses := ServeNext(il, j, hits, misses, ks, wanted, score);
        j := j + 1;
      }
      ToComeLast(Lru, Serving(State(), hits, misses), wanted, ks, score);
    }

    /** The plan begun in state `st` whose distinct experts are in `uniq`. */
    method ServePlan(il: int, ghost st: State, ghost score: int -> real) returns (hits: nat, misses: nat)
      requires Valid() && 0 <= il < tab.nLayer && st.Valid() && State() == st.Begin(il)
      requires forall i :: 0 <= i < |tab.uniq| ==> 0 <= tab.uniq[i] < tab.nExpert
      requires Fits(Keys(tab.nExpert, il, tab.uniq), tab.nSlots)
      modifies this, lru, lru.prev, lru.next, tab`uniq, tab.slotOf, tab.keyOf
      ensures Valid()
      ensures Serving(State(), hits, misses) ==
        PlanStep(Lru, st, il, Keys(tab.nExpert, il, old(tab.uniq)), score)
    {
      ghost var ks := Keys(tab.nExpert, il, tab.uniq);
      hits := ServeHits(il);
      assert Serving(State(), hits, 0) == AfterHits(st, il, ks);
      SortedFits(ks, tab.nSlots);
      KeysSorted(tab.nExpert, il, tab.uniq);
      tab.SortUniq();
      ghost var sorted := Keys(tab.nExpert, il, tab.uniq);
      ToComeFirst(Lru, Serving(State(), hits, 0), Elems(ks), sorted, score);
      misses := ServeMisses(il, hits, sorted, Elems(ks), score);
    }

    /** The distinct experts go to `uniq`, and the plan begins if they fit. */
    method BeginPlan(il: int, ids: seq<int>) returns (ok: bool)
      requires Valid() && PlanOk(tab.nLayer, tab.nExpert, PlanRec(il, ids))
      modifies this, tab, tab.seen
      ensures Valid() && State() == if ok then old(State()).Begin(il) else old(State())
      ensures tab.uniq == Distinct(ids) && forall i :: 0 <= i < |tab.uniq| ==> 0 <= tab.uniq[i] < tab.nExpert
      ensures ok <==> |Distinct(ids)| <= tab.nSlots
    {
      ghost var st := State();
      BeginMid(st, il);
      if |Distinct(ids)| <= tab.nSlots {
        t, lastIl, passStart := t + 1, il, if il <= lastIl then t + 1 else passStart;
      }
      ghost var begun := if |Distinct(ids)| <= tab.nSlots then st.Begin(il) else st;
      assert State() == begun;
      ok := tab.FindDistinct(ids);
      assert State() == begun;
    }

    /** One plan: layer `il` chose `ids`. False, with the cache as it was, when
        they are more distinct experts than there are slots. */
    method Plan(il: int, ids: seq<int>, ghost score: int -> real) returns (ok: bool, hits: nat, misses: nat)
      requires Valid() && PlanOk(tab.nLayer, tab.nExpert, PlanRec(il, ids))
      modifies Repr
      ensures Valid()
      ensures ok <==> |Distinct(ids)| <= tab.nSlots
      ensures !ok ==> State() == old(State())
      ensures ok ==>
        && Fits(Wants(tab.nExpert, PlanRec(il, ids)), tab.nSlots)
        && Serving(State(), hits, misses) ==
             PlanStep(Lru, old(State()), il, Wants(tab.nExpert, PlanRec(il, ids)), score)
    {
      ghost var st := State();
      hits, misses := 0, 0;
      ok := BeginPlan(il, ids);
      if ok {
        WantsFit(tab.nLayer, tab.nExpert, PlanRec(il, ids));
        hits, misses := ServePlan(il, st, score);
      }
    }
  }
}
