/** The policies that go by staleness, which differ in the slot a miss takes only:
    stale-MRU, and over arbitrary scores stale-LFU and lfu-pass (`policy_stale_mru`
    and `policy_stale_lfu` in bench/moe_cache_sim/moe_cache_sim.cpp). */
module PolicyStale {
  import opened Options
  import opened Slots
  import opened RecencyList
  import opened Recency
  import opened Traces

  class Policy {
    const tab: Table
    const lru: LruList

    const rule: Rule
    const lastT: array<nat>   // [slot] plan counter of the last use
    var t: nat
    var lastIl: int
    var passStart: nat

    ghost const Repr: set<object>

    ghost predicate Shape()
      reads this, Repr, tab, tab.Repr, lru, lru.Repr
    {
      && Repr == {this, lastT} + tab.Repr + lru.Repr
      && {this, lastT} !! tab.Repr && {this, lastT} !! lru.Repr && tab.Repr !! lru.Repr
      && !rule.Lru? && RuleOk(rule) && lastT.Length == tab.nSlots
      && tab.Valid() && lru.Valid() && lru.n == tab.nSlots
    }

    ghost function State(): State
      reads this, tab, tab.keyOf, lru, lastT
    {
      Cache(tab.keyOf[..], lru.order, lastT[..], t, lastIl, passStart)
    }

    ghost predicate Valid()
      reads this, Repr, tab, tab.Repr, lru, lru.Repr
    {
      Shape() && State().Valid()
    }

    constructor (nLayer: nat, nExpert: nat, nSlots: nat, rule: Rule)
      requires nSlots >= 1 && !rule.Lru? && RuleOk(rule)
      ensures Valid() && fresh(Repr)
      ensures tab.nLayer == nLayer && tab.nExpert == nExpert && tab.nSlots == nSlots && this.rule == rule
      ensures State() == Empty(nSlots)
    {
      var a := new Table(nLayer, nExpert, nSlots);
      var b := new LruList(nSlots);
      var c := new nat[nSlots](_ => 0);
      tab, lru, lastT := a, b, c;
      this.rule := rule;
      t, lastIl, passStart := 0, INT32_MAX, 0;
      Repr := {this, c} + a.Repr + b.Repr;
      new;
      assert lastT[..] == Empty(nSlots).lastT;
      assert State() == Empty(nSlots);
      EmptyValid(nSlots);
    }

    /** Slot `s` is used by this plan. */
    method Use(s: int)
      requires Shape() && 0 <= s < tab.nSlots
      modifies lastT, lru, lru.prev, lru.next
      ensures Shape() && State() == old(State()).Use(s)
    {
      lru.Touch(s);
      lastT[s] := t;
    }

    /** Expert `e` of layer `il` hits if it has a slot. */
    method ServeHit(il: int, e: int, hits: nat, first: int, ghost done: set<int>) returns (hits': nat, first': int)
      requires Valid() && 0 <= il < tab.nLayer && 0 <= e < tab.nExpert
      requires Mid(Serving(State(), hits, 0), done) && Key(tab.nExpert, il, e) !in done
      requires first == OldestUsed(Serving(State(), hits, 0))
      modifies lastT, lru, lru.prev, lru.next
      ensures Valid()
      ensures Serving(State(), hits', 0) == Hit(Serving(old(State()), hits, 0), Key(tab.nExpert, il, e))
      ensures Mid(Serving(State(), hits', 0), done + {Key(tab.nExpert, il, e)})
      ensures first' == OldestUsed(Serving(State(), hits', 0))
    {
      hits', first' := hits, first;
      tab.Finds(il, e);
      ghost var v := Serving(State(), hits, 0);
      HitMid(v, done, Key(tab.nExpert, il, e));
      var s := tab.slotOf[il * tab.nExpert + e];
      if s >= 0 {
        assert v.st.At(Position(lru.order, s)) !in done;
        FirstStays(v, done, s, Position(lru.order, s));
        first' := if first < 0 then s else first;
        hits' := hits + 1;
        Use(s);
      }
    }

    method ServeHits(il: int) returns (hits: nat, first: int)
      requires Valid() && 0 <= il < tab.nLayer
      requires forall i :: 0 <= i < |tab.uniq| ==> 0 <= tab.uniq[i] < tab.nExpert
      requires Fits(Keys(tab.nExpert, il, tab.uniq), tab.nSlots)
      requires Mid(Serving(State(), 0, 0), {})
      modifies lastT, lru, lru.prev, lru.next
      ensures Valid()
      ensures Serving(State(), hits, 0) == Hits(Serving(old(State()), 0, 0), Keys(tab.nExpert, il, tab.uniq), 0)
      ensures hits <= tab.nSlots && first == OldestUsed(Serving(State(), hits, 0))
    {
      ghost var ks := Keys(tab.nExpert, il, tab.uniq);
      hits, first := 0, -1;
      var j := 0;
      while j < |tab.uniq|
        invariant 0 <= j <= |tab.uniq| && Valid()
        invariant Mid(Serving(State(), hits, 0), Upto(ks, j))
        invariant first == OldestUsed(Serving(State(), hits, 0))
        invariant Hits(Serving(State(), hits, 0), ks, j) == Hits(Serving(old(State()), 0, 0), ks, 0)
      {
        UptoNext(ks, j);
        hits, first := ServeHit(il, tab.uniq[j], hits, first, Upto(ks, j));
        j := j + 1;
      }
    }

    /** The lowest score among the slots used earlier in this pass, the latest
        first, from the one at position `p` back. */
    method ScanPass(window: nat, score: int -> real, ghost p: nat, start: int) returns (s: int)
      requires Shape() && p < tab.nSlots && start == lru.order[p]
      ensures s == lru.order[ScanBack(State(), window, score, p as int - 1, 1, p)]
    {
      s := start;
      var best, looked := score(tab.keyOf[s]), 1;
      var c := lru.prev[s];
      ghost var at, low := p as int - 1, p;
      assert LinkedAt(lru.prev[..], lru.next[..], lru.order, p);
      while c >= 0 && lastT[c] >= passStart && (window == 0 || looked < window)
        invariant -1 <= at < low < tab.nSlots
        invariant c == if at < 0 then -1 else lru.order[at]
        invariant s == lru.order[low] && best == score(State().At(low))
        invariant ScanBack(State(), window, score, at, looked, low)
               == ScanBack(State(), window, score, p as int - 1, 1, p)
        decreases at
      {
        assert LinkedAt(lru.prev[..], lru.next[..], lru.order, at);
        var sc := score(tab.keyOf[c]);
        if sc < best {
          best := sc;
          s := c;
          low := at;
        }
        c := lru.prev[c];
        looked := looked + 1;
        at := at - 1;
      }
    }

    /** The lowest score among the stale slots at the head of the list. */
    method ScanHead(passLen: nat, window: nat, score: int -> real) returns (s: int)
      requires Shape()
      ensures s == lru.order[ScanStale(State(), passLen, window, score, 1, 1, 0)]
    {
      s := lru.head;
      var best, looked := score(tab.keyOf[s]), 1;
      var c := lru.next[s];
      ghost var at, low := 1, 0;
      assert LinkedAt(lru.prev[..], lru.next[..], lru.order, 0);
      while c >= 0 && (window == 0 || looked < window)
        invariant 0 <= low < at <= tab.nSlots
        invariant c == if at == tab.nSlots then -1 else lru.order[at]
        invariant s == lru.order[low] && best == score(State().At(low))
        invariant ScanStale(State(), passLen, window, score, at, looked, low)
               == ScanStale(State(), passLen, window, score, 1, 1, 0)
        decreases tab.nSlots - at
      {
        assert LinkedAt(lru.prev[..], lru.next[..], lru.order, at);
        if tab.keyOf[c] < 0 {
          s := c;
          return;
        }
        if t - lastT[c] < passLen {
          return;
        }
        var sc := score(tab.keyOf[c]);
        if sc < best {
          best := sc;
          s := c;
          low := at;
        }
        c := lru.next[c];
        looked := looked + 1;
        at := at + 1;
      }
    }

    /** The most recently used slot outside the plan. */
    method BeforeFirst(ghost hits: nat, ghost misses: nat, first: int) returns (s: int)
      requires Shape() && hits + misses < tab.nSlots
      requires first == OldestUsed(Serving(State(), hits, misses))
      ensures s == lru.order[tab.nSlots - 1 - (hits + misses)]
    {
      if first >= 0 {
        assert LinkedAt(lru.prev[..], lru.next[..], lru.order, lru.n - (hits + misses));
        s := lru.prev[first];
      } else {
        s := lru.tail;
      }
    }

    /** The slot a miss takes. */
    method FindVictim(hits: nat, misses: nat, first: int, score: int -> real) returns (s: int)
      requires Shape() && hits + misses < tab.nSlots
      requires first == OldestUsed(Serving(State(), hits, misses))
      ensures s == lru.order[VictimPos(rule, State(), hits + misses, score)]
    {
      s := lru.head;
      match rule
      case StaleMru(passLen) =>
        var stale := tab.keyOf[s] < 0 || t - lastT[s] >= passLen;
        if !stale {
          s := BeforeFirst(hits, misses, first);
        }
      case StaleLfu(passLen, window, behind) =>
        if tab.keyOf[s] >= 0 && t - lastT[s] < passLen {
          s := BeforeFirst(hits, misses, first);
          if behind && lastT[s] >= passStart {
            s := ScanPass(window, score, tab.nSlots - 1 - (hits + misses), s);
          }
        } else if tab.keyOf[s] >= 0 {
          s := ScanHead(passLen, window, score);
        }
    }

    method TakeSlot(s: int, il: int, e: int)
      requires Valid() && 0 <= il < tab.nLayer && 0 <= e < tab.nExpert && 0 <= s < tab.nSlots
      requires Key(tab.nExpert, il, e) !in tab.keyOf[..]
      modifies lastT, lru, lru.prev, lru.next, tab.slotOf, tab.keyOf
      ensures Shape() && State() == Take(old(State()), s, Key(tab.nExpert, il, e))
    {
      tab.Assign(s, il, e);
      Use(s);
    }

    method TakeVictim(il: int, e: int, hits: nat, misses: nat, first: int,
                      ghost wanted: set<int>, score: int -> real) returns (first': int)
      requires Valid() && 0 <= il < tab.nLayer && 0 <= e < tab.nExpert
      requires Mid(Serving(State(), hits, misses), wanted) && hits + misses < tab.nSlots
      requires Key(tab.nExpert, il, e) in wanted && Key(tab.nExpert, il, e) !in State().keyOf
      requires first == OldestUsed(Serving(State(), hits, misses))
      modifies lastT, lru, lru.prev, lru.next, tab.slotOf, tab.keyOf
      ensures Shape()
      ensures Serving(State(), hits, misses + 1) ==
        Miss(rule, Serving(old(State()), hits, misses), Key(tab.nExpert, il, e), score)
      ensures hits + misses < tab.nSlots && first' == OldestUsed(Serving(State(), hits, misses + 1))
    {
      MissFirst(rule, Serving(State(), hits, misses), wanted, Key(tab.nExpert, il, e), first, score);
      var s := FindVictim(hits, misses, first, score);
      TakeSlot(s, il, e);
      first' := if first < 0 then s else first;
    }

    /** Expert `e` of layer `il` takes the victim's slot if it has none. */
    method ServeMiss(il: int, e: int, hits: nat, misses: nat, first: int,
                     ghost wanted: set<int>, score: int -> real) returns (misses': nat, first': int)
      requires Valid() && 0 <= il < tab.nLayer && 0 <= e < tab.nExpert
      requires Mid(Serving(State(), hits, misses), wanted) && |wanted| <= tab.nSlots
      requires Key(tab.nExpert, il, e) in wanted
      requires first == OldestUsed(Serving(State(), hits, misses))
      modifies lastT, lru, lru.prev, lru.next, tab.slotOf, tab.keyOf
      ensures Valid()
      ensures Key(tab.nExpert, il, e) !in old(State()).keyOf ==> hits + misses < tab.nSlots
      ensures Serving(State(), hits, misses') ==
        Miss(rule, Serving(old(State()), hits, misses), Key(tab.nExpert, il, e), score)
      ensures Mid(Serving(State(), hits, misses'), wanted) && first' == OldestUsed(Serving(State(), hits, misses'))
    {
      misses', first' := misses, first;
      tab.Finds(il, e);
      ghost var v := Serving(State(), hits, misses);
      MissMid(rule, v, wanted, Key(tab.nExpert, il, e), score);
      if tab.slotOf[il * tab.nExpert + e] < 0 {
        first' := TakeVictim(il, e, hits, misses, first, wanted, score);
        misses' := misses + 1;
      }
    }

    /** What serving the misses from the `j`th on comes to. */
    ghost function Left(hits: nat, misses: nat, first: int, wanted: set<int>, ks: seq<int>, j: nat,
                        score: int -> real): Option<Serving>
      reads this, Repr, tab, tab.Repr, lru, lru.Repr
    {
      if Valid() && first == OldestUsed(Serving(State(), hits, misses))
      then ToCome(rule, Serving(State(), hits, misses), wanted, ks, j, score)
      else None
    }

    lemma LeftFirst(hits: nat, first: int, wanted: set<int>, ks: seq<int>, score: int -> real)
      requires Valid() && Mid(Serving(State(), hits, 0), wanted) && WantsAll(ks, wanted, tab.nSlots)
      requires first == OldestUsed(Serving(State(), hits, 0))
      ensures Left(hits, 0, first, wanted, ks, 0, score).Some?
      ensures Left(hits, 0, first, wanted, ks, 0, score) ==
          ToCome(rule, Serving(State(), hits, 0), wanted, ks, 0, score)
    {
      ToComeFirst(rule, Serving(State(), hits, 0), wanted, ks, score);
    }

    lemma LeftLast(hits: nat, misses: nat, first: int, wanted: set<int>, ks: seq<int>, score: int -> real)
      requires Left(hits, misses, first, wanted, ks, |ks|, score).Some?
      ensures Valid() && Left(hits, misses, first, wanted, ks, |ks|, score) == Some(Serving(State(), hits, misses))
    {
      ToComeLast(rule, Serving(State(), hits, misses), wanted, ks, score);
    }

    /** The `j`th expert of the plan. */
    method ServeNext(il: int, j: nat, hits: nat, misses: nat, first: int, ghost ks: seq<int>, ghost wanted: set<int>,
                     score: int -> real) returns (misses': nat, first': int)
      requires Left(hits, misses, first, wanted, ks, j, score).Some?
      requires 0 <= il < tab.nLayer && ks == Keys(tab.nExpert, il, tab.uniq)
      requires j < |tab.uniq| && 0 <= tab.uniq[j] < tab.nExpert
      modifies lastT, lru, lru.prev, lru.next, tab.slotOf, tab.keyOf
      ensures Left(hits, misses', first', wanted, ks, j + 1, score) ==
          old(Left(hits, misses, first, wanted, ks, j, score))
    {
      ToComeNext(rule, Serving(State(), hits, misses), wanted, ks, j, score);
      misses', first' := ServeMiss(il, tab.uniq[j], hits, misses, first, wanted, score);
    }

    method ServeMisses(il: int, hits: nat, first: int, ghost ks: seq<int>, ghost wanted: set<int>, score: int -> real)
      returns (misses: nat, oldest: int)
      requires Left(hits, 0, first, wanted, ks, 0, score).Some?
      requires 0 <= il < tab.nLayer && ks == Keys(tab.nExpert, il, tab.uniq)
      requires forall i :: 0 <= i < |tab.uniq| ==> 0 <= tab.uniq[i] < tab.nExpert
      modifies lastT, lru, lru.prev, lru.next, tab.slotOf, tab.keyOf
      ensures Left(hits, misses, oldest, wanted, ks, |ks|, score) == old(Left(hits, 0, first, wanted, ks, 0, score))
    {
      misses, oldest := 0, first;
      var j := 0;
      while j < |tab.uniq|
        invariant 0 <= j <= |tab.uniq|
        invariant Left(hits, misses, oldest, wanted, ks, j, score) == old(Left(hits, 0, first, wanted, ks, 0, score))
      {
        misses, oldest := ServeNext(il, j, hits, misses, oldest, ks, wanted, score);
        j := j + 1;
      }
    }

    /** The misses of the plan, in ascending order. */
    method SortAndServeMisses(il: int, hits: nat, first: int, ghost ks: seq<int>, score: int -> real)
      returns (misses: nat)
      requires Valid() && 0 <= il < tab.nLayer && ks == Keys(tab.nExpert, il, tab.uniq) && Fits(ks, tab.nSlots)
      requires forall i :: 0 <= i < |tab.uniq| ==> 0 <= tab.uniq[i] < tab.nExpert
      requires Mid(Serving(State(), hits, 0), Elems(ks)) && first == OldestUsed(Serving(State(), hits, 0))
      modifies lastT, lru, lru.prev, lru.next, tab`uniq, tab.slotOf, tab.keyOf
      ensures Valid()
      ensures Some(Serving(State(), hits, misses)) ==
        ToCome(rule, Serving(old(State()), hits, 0), Elems(ks), Sorted(ks), 0, score)
    {
      ghost var st := State();
      SortedFits(ks, tab.nSlots);
      KeysSorted(tab.nExpert, il, tab.uniq);
      tab.SortUniq();
      assert State() == st;
      LeftFirst(hits, first, Elems(ks), Sorted(ks), score);
      var oldest;
      misses, oldest := ServeMisses(il, hits, first, Sorted(ks), Elems(ks), score);
      LeftLast(hits, misses, oldest, Elems(ks), Sorted(ks), score);
    }

    /** The plan begun in state `st` whose distinct experts are in `uniq`. */
    method ServePlan(il: int, ghost st: State, score: int -> real) returns (hits: nat, misses: nat)
      requires Valid() && 0 <= il < tab.nLayer && st.Valid() && State() == st.Begin(il)
      requires forall i :: 0 <= i < |tab.uniq| ==> 0 <= tab.uniq[i] < tab.nExpert
      requires Fits(Keys(tab.nExpert, il, tab.uniq), tab.nSlots)
      modifies lastT, lru, lru.prev, lru.next, tab`uniq, tab.slotOf, tab.keyOf
      ensures Valid()
      ensures Serving(State(), hits, misses) ==
        PlanStep(rule, st, il, Keys(tab.nExpert, il, old(tab.uniq)), score)
    {
      ghost var ks := Keys(tab.nExpert, il, tab.uniq);
      BeginMid(st, il);
      var first;
      hits, first := ServeHits(il);
      assert Serving(State(), hits, 0) == AfterHits(st, il, ks);
      misses := SortAndServeMisses(il, hits, first, ks, score);
    }

    /** The plan counters go on, and the distinct experts go to `uniq`. */
    method BeginPlan(il: int, ids: seq<int>) returns (ok: bool)
      requires Valid() && PlanOk(tab.nLayer, tab.nExpert, PlanRec(il, ids))
      modifies this, tab, tab.seen
      ensures Valid() && State() == old(State()).Begin(il)
      ensures tab.uniq == Distinct(ids) && forall i :: 0 <= i < |tab.uniq| ==> 0 <= tab.uniq[i] < tab.nExpert
      ensures ok <==> |Distinct(ids)| <= tab.nSlots
    {
      ghost var st := State();
      BeginMid(st, il);
      t := t + 1;
      lastIl, passStart := il, if il <= lastIl then t else passStart;
      assert State() == st.Begin(il);
      ok := tab.FindDistinct(ids);
      assert State() == st.Begin(il);
    }

    /** One plan: layer `il` chose `ids`. False, with the cache as it was, when
        they are more distinct experts than there are slots. */
    method Plan(il: int, ids: seq<int>, score: int -> real) returns (ok: bool, hits: nat, misses: nat)
      requires Valid() && PlanOk(tab.nLayer, tab.nExpert, PlanRec(il, ids))
      modifies Repr
      ensures Valid()
      ensures ok <==> |Distinct(ids)| <= tab.nSlots
      ensures !ok ==> State() == old(State()).Begin(il)
      ensures ok ==>
        && Fits(Wants(tab.nExpert, PlanRec(il, ids)), tab.nSlots)
        && Serving(State(), hits, misses) ==
             PlanStep(rule, old(State()), il, Wants(tab.nExpert, PlanRec(il, ids)), score)
    {
      ghost var st := State();
      hits, misses := 0, 0;
      ok := BeginPlan(il, ids);
      if ok {
        WantsFit(tab.nLayer, tab.nExpert, PlanRec(il, ids));
        hits, misses := ServePlan(il, st, score);
      }
    }
  }
}
