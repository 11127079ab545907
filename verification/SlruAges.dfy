/** SLRU by when each slot was last used, came in or was sent back, without lists:
    what the two linked lists stand for on every run (`policy_slru` in
    bench/moe_cache_sim/moe_cache_sim.cpp). */
module SlruAges {
  import opened Slots
  import opened RecencyList
  import opened Slru
  import opened Traces
  import opened Workloads
  import opened SegReplay

  // ------------------------------------------------------------ the policy by age

  /** The experts held, the protected slots, and since when each slot is where it
      is: when it was last used while protected, came in, or was sent back. */
  datatype Aged = Aged(keyOf: seq<int>, safe: set<int>, since: seq<nat>, clock: nat)
  {
    ghost predicate Ok() {
      && |since| == |keyOf| >= 1
      && (forall s :: s in safe ==> 0 <= s < |keyOf|)
      && (forall s :: 0 <= s < |since| ==> since[s] <= clock)
    }

    /** Slot `s` is protected from now on. */
    ghost function Protect(s: int): (a: Aged)
      requires Ok() && 0 <= s < |keyOf|
      ensures a.Ok() && a.keyOf == keyOf
    {
      this.(safe := safe + {s}, since := since[s := clock + 1], clock := clock + 1)
    }

    /** Slot `s` is on probation from now on. */
    ghost function SendBack(s: int): (a: Aged)
      requires Ok() && 0 <= s < |keyOf|
      ensures a.Ok() && a.keyOf == keyOf
    {
      this.(safe := safe - {s}, since := since[s := clock + 1], clock := clock + 1)
    }

    /** Slot `s` is used: it is protected, the most recent one; when more than half
        the slots then are, the one that is so the longest is sent back. */
    ghost function Used(s: int): (a: Aged)
      requires Ok() && 0 <= s < |keyOf|
      ensures a.Ok() && a.keyOf == keyOf
    {
      var a := Protect(s);
      if |a.safe| <= |keyOf| / 2 then a else a.SendBack(Oldest(a.safe, a.since))
    }

    /** The slots that hold none of `wanted`. */
    ghost function SpareSlots(wanted: set<int>): set<int> {
      set s | 0 <= s < |keyOf| && keyOf[s] !in wanted
    }

    /** Of the spare slots on probation the one that is there the longest, or if
        there is none, of those protected. */
    ghost function Chosen(wanted: set<int>): (s: int)
      requires Ok() && SpareSlots(wanted) != {}
      ensures s in SpareSlots(wanted)
    {
      var spare := SpareSlots(wanted);
      Oldest(if spare - safe != {} then spare - safe else spare, since)
    }

    /** Slot `s` gets expert `k`, on probation. */
    ghost function CameIn(s: int, k: int): (a: Aged)
      requires Ok() && 0 <= s < |keyOf|
      ensures a.Ok() && |a.keyOf| == |keyOf|
    {
      this.(keyOf := keyOf[s := k]).SendBack(s)
    }
  }

  ghost predicate IsOldest(among: set<int>, since: seq<nat>, s: int)
    requires forall x :: x in among ==> 0 <= x < |since|
  {
    s in among && forall x :: x in among ==> since[s] <= since[x]
  }

  lemma OneOf(among: set<int>) returns (s: int)
    requires among != {}
    ensures s in among
  {
    assert (forall x :: x !in among) ==> among == {};
    s :| s in among;
  }

  lemma {:induction false} SomeOldest(among: set<int>, since: seq<nat>) returns (s: int)
    requires among != {} && forall x :: x in among ==> 0 <= x < |since|
    ensures IsOldest(among, since, s)
    decreases |among|
  {
    s := OneOf(among);
    var rest := among - {s};
    if rest == {} {
      assert among == {s};
    } else {
      var t := SomeOldest(rest, since);
      s := if since[t] < since[s] then t else s;
    }
  }

  ghost function Oldest(among: set<int>, since: seq<nat>): (s: int)
    requires among != {} && forall x :: x in among ==> 0 <= x < |since|
    ensures IsOldest(among, since, s)
  {
    assert exists s :: IsOldest(among, since, s) by {
      var s := SomeOldest(among, since);
    }
    var s :| IsOldest(among, since, s); s
  }

  /** The newest of two or more is not the oldest. */
  lemma NewestIsNotOldest(all: set<int>, now: seq<nat>, s: int)
    requires |all| >= 2 && s in all && forall x :: x in all ==> 0 <= x < |now|
    requires forall y :: y in all && y != s ==> now[y] < now[s]
    ensures Oldest(all, now) != s
  {
    var rest := all - {s};
    assert all == rest + {s};
    var y := OneOf(rest);
    assert now[Oldest(all, now)] <= now[y];
  }

  /** Only slots of `moved` are where they are since another time. */
  ghost predicate StaysBut(moved: set<int>, before: seq<nat>, after: seq<nat>)
  {
    |before| == |after| && forall x :: 0 <= x < |before| && x !in moved ==> after[x] == before[x]
  }

  /** With two slots or more the one used is the most recent of those protected. The
      one sent back, if one is, was protected at least as long as any other that
      was, and is the most recent on probation. All others stay where they are. */
  lemma UsedIsProtected(a: Aged, s: int)
    requires a.Ok() && 0 <= s < |a.keyOf| && |a.keyOf| >= 2
    ensures var b := a.Used(s);
      && s in b.safe && b.since[s] == a.clock + 1
      && (forall x :: x in b.safe && x != s ==> x in a.safe && b.since[x] == a.since[x])
      && (|a.safe + {s}| <= |a.keyOf| / 2 ==> b.safe == a.safe + {s} && StaysBut({s}, a.since, b.since))
      && (|a.safe + {s}| > |a.keyOf| / 2 ==> exists back ::
            && back in a.safe - {s} && b.safe == a.safe + {s} - {back}
            && StaysBut({s, back}, a.since, b.since) && b.since[back] > a.clock
            && forall y :: y in a.safe - {s} ==> a.since[back] <= a.since[y])
  {
    var now, all := a.Protect(s).since, a.Protect(s).safe;
    if |all| > |a.keyOf| / 2 {
      var back := Oldest(all, now);
      NewestIsNotOldest(all, now, s);
      assert back in a.safe - {s} && a.Used(s).safe == all - {back};
      assert StaysBut({s, back}, a.since, a.Used(s).since);
      assert forall y :: y in a.safe - {s} ==> now[y] == a.since[y] && y in all;
    }
  }

  // ------------------------------------------------------------ what the lists stand for

  /** The slots of a list are in order of age, the oldest first. */
  ghost predicate InOrder(list: seq<int>, since: seq<nat>) {
    && (forall i :: 0 <= i < |list| ==> 0 <= list[i] < |since|)
    && forall i, j :: 0 <= i < j < |list| ==> since[list[i]] < since[list[j]]
  }

  ghost predicate Shows(g: Segments, a: Aged) {
    && g.keyOf == a.keyOf && a.Ok()
    && IsPartition(g.probation, g.safe, |g.keyOf|) && a.safe == Elems(g.safe)
    && InOrder(g.probation, a.since) && InOrder(g.safe, a.since)
  }

  lemma WithoutInOrder(list: seq<int>, since: seq<nat>, s: int, t: nat)
    requires InOrder(list, since) && NoDup(list) && 0 <= s < |since|
    ensures InOrder(Without(list, s), since[s := t])
  {
    var r := Without(list, s);
    if s in list {
      var i := Position(list, s);
      assert forall j :: 0 <= j < |r| ==> r[j] == list[if j < i then j else j + 1];
      assert forall j :: 0 <= j < |r| ==> r[j] != s;
    }
  }

  /** A slot that moves now is behind all others. */
  lemma BehindAll(list: seq<int>, since: seq<nat>, s: int, t: nat)
    requires InOrder(list, since) && NoDup(list) && 0 <= s < |since|
    requires forall x :: 0 <= x < |since| ==> since[x] < t
    ensures InOrder(Without(list, s) + [s], since[s := t])
  {
    WithoutInOrder(list, since, s, t);
    WithoutElems(list, s);
    var r := Without(list, s);
    forall i | 0 <= i < |r| ensures r[i] != s {
      assert r[i] in Elems(r);
    }
  }

  /** A move of slot `s` at `t`. */
  lemma MovedShows(g: Segments, since: seq<nat>, s: int, protect: bool, t: nat)
    requires IsPartition(g.probation, g.safe, |g.keyOf|) && |since| == |g.keyOf| && 0 <= s < |g.keyOf|
    requires InOrder(g.probation, since) && InOrder(g.safe, since)
    requires forall x :: 0 <= x < |since| ==> since[x] < t
    ensures var m := Moved(g, s, protect);
      && IsPartition(m.probation, m.safe, |g.keyOf|)
      && InOrder(m.probation, since[s := t]) && InOrder(m.safe, since[s := t])
      && Elems(m.safe) == if protect then Elems(g.safe) + {s} else Elems(g.safe) - {s}
  {
    MovedPartition(g, s, protect);
    MovedSafe(g, s, protect);
    WithoutInOrder(g.probation, since, s, t);
    WithoutInOrder(g.safe, since, s, t);
    BehindAll(g.probation, since, s, t);
    BehindAll(g.safe, since, s, t);
  }

  /** The first of a list in order is the one that is there the longest. */
  lemma FirstIsOldest(list: seq<int>, since: seq<nat>)
    requires list != [] && InOrder(list, since)
    ensures list[0] in Elems(list) && (forall x :: x in Elems(list) ==> 0 <= x < |since|)
    ensures Oldest(Elems(list), since) == list[0]
  {
    assert list[0] in Elems(list);
    var d := Oldest(Elems(list), since);
    var i :| 0 <= i < |list| && list[i] == d;
  }

  lemma ProtectShows(g: Segments, a: Aged, s: int)
    requires Shows(g, a) && 0 <= s < |g.keyOf|
    ensures Shows(Moved(g, s, true), a.Protect(s))
  {
    MovedShows(g, a.since, s, true, a.clock + 1);
  }

  lemma SendBackShows(g: Segments, a: Aged, s: int)
    requires Shows(g, a) && 0 <= s < |g.keyOf|
    ensures Shows(Moved(g, s, false), a.SendBack(s))
  {
    MovedShows(g, a.since, s, false, a.clock + 1);
  }

  lemma ProtectedCount(g: Segments, a: Aged)
    requires Shows(g, a)
    ensures |g.safe| == |a.safe|
    ensures g.safe != [] ==> 0 <= g.safe[0] < |g.keyOf| && a.safe != {} && Oldest(a.safe, a.since) == g.safe[0]
  {
    NoDupCard(g.safe);
    if g.safe != [] {
      FirstIsOldest(g.safe, a.since);
    }
  }

  lemma TouchShows(g: Segments, a: Aged, s: int)
    requires Shows(g, a) && 0 <= s < |g.keyOf|
    ensures Shows(TouchedIn(g, s), a.Used(s))
  {
    var m, b := Moved(g, s, true), a.Protect(s);
    ProtectShows(g, a, s);
    ProtectedCount(m, b);
    if |m.safe| > |g.keyOf| / 2 {
      SendBackShows(m, b, m.safe[0]);
    }
  }

  // ------------------------------------------------------------ the victim

  /** The first of a list in order that holds none of `wanted` is the oldest such. */
  lemma FreeIsOldest(g: Segments, list: seq<int>, since: seq<nat>, wanted: set<int>, spare: set<int>)
    requires InOrder(list, since) && |since| == |g.keyOf|
    requires forall s :: s in spare <==> s in Elems(list) && 0 <= s < |g.keyOf| && g.keyOf[s] !in wanted
    ensures var i := FirstFree(g.keyOf, list, wanted, 0);
      && (spare == {} <==> i == |list|)
      && (spare != {} ==> Oldest(spare, since) == list[i])
  {
    var i := FirstFree(g.keyOf, list, wanted, 0);
    if i < |list| {
      assert list[i] in Elems(list) && list[i] in spare;
      var d := Oldest(spare, since);
      var k :| 0 <= k < |list| && list[k] == d;
      assert k >= i;
    } else {
      forall s ensures s !in spare {
        if s in Elems(list) {
          var k :| 0 <= k < |list| && list[k] == s;
        }
      }
    }
  }

  lemma VictimShows(g: Segments, a: Aged, wanted: set<int>)
    requires Shows(g, a) && Spare(g, wanted)
    ensures a.SpareSlots(wanted) != {} && Victim(g, wanted) == a.Chosen(wanted)
  {
    var spare := a.SpareSlots(wanted);
    var x :| 0 <= x < |g.keyOf| && g.keyOf[x] !in wanted;
    assert x in spare;
    FreeIsOldest(g, g.probation, a.since, wanted, spare - a.safe);
    if spare - a.safe == {} {
      FreeIsOldest(g, g.safe, a.since, wanted, spare);
    }
  }

  lemma TakeShows(g: Segments, a: Aged, s: int, k: int)
    requires Shows(g, a) && 0 <= s < |g.keyOf|
    ensures Shows(SegTake(g, s, k), a.CameIn(s, k))
  {
    SendBackShows(g.(keyOf := g.keyOf[s := k]), a.(keyOf := g.keyOf[s := k]), s);
  }

  // ------------------------------------------------------------ plans and runs

  ghost function AgedHit(a: Aged, k: int): (b: Aged)
    requires a.Ok()
    ensures b.Ok() && b.keyOf == a.keyOf
  {
    if k in a.keyOf then a.Used(SlotOf(a.keyOf, k)) else a
  }

  ghost function AgedHits(a: Aged, ks: seq<int>, j: nat): (b: Aged)
    requires a.Ok() && j <= |ks|
    ensures b.Ok() && b.keyOf == a.keyOf
    decreases |ks| - j
  {
    if j == |ks| then a else AgedHits(AgedHit(a, ks[j]), ks, j + 1)
  }

  /** A missing expert comes in where a slot is to spare. */
  ghost function AgedMiss(a: Aged, wanted: set<int>, k: int): (b: Aged)
    requires a.Ok()
    ensures b.Ok() && |b.keyOf| == |a.keyOf|
  {
    if k in a.keyOf || a.SpareSlots(wanted) == {} then a
    else a.CameIn(a.Chosen(wanted), k)
  }

  ghost function AgedMisses(a: Aged, wanted: set<int>, ks: seq<int>, j: nat): (b: Aged)
    requires a.Ok() && j <= |ks|
    ensures b.Ok() && |b.keyOf| == |a.keyOf|
    decreases |ks| - j
  {
    if j == |ks| then a else AgedMisses(AgedMiss(a, wanted, ks[j]), wanted, ks, j + 1)
  }

  /** A plan: its hits in order of choice, then its misses in ascending order. */
  ghost function AgedPlan(a: Aged, ks: seq<int>): (b: Aged)
    requires a.Ok()
    ensures b.Ok() && |b.keyOf| == |a.keyOf|
  {
    AgedMisses(AgedHits(a, ks, 0), Elems(ks), Sorted(ks), 0)
  }

  lemma {:induction false} HitsShow(v: SegServing, a: Aged, ks: seq<int>, j: nat)
    requires Shows(v.g, a) && j <= |ks| && forall i :: 0 <= i < |ks| ==> ks[i] >= 0
    ensures Shows(SegHits(v, ks, j).g, AgedHits(a, ks, j))
    decreases |ks| - j
  {
    if j == |ks| {
    } else {
      if ks[j] in a.keyOf {
        TouchShows(v.g, a, SlotOf(a.keyOf, ks[j]));
      }
      HitsShow(SegHit(v, ks[j]), AgedHit(a, ks[j]), ks, j + 1);
    }
  }

  lemma MissShows(v: SegServing, a: Aged, wanted: set<int>, k: int)
    requires Shows(v.g, a) && v.g.Valid() && (k !in v.g.keyOf ==> Spare(v.g, wanted))
    ensures Shows(SegMiss(v, wanted, k).g, AgedMiss(a, wanted, k))
  {
    if k !in v.g.keyOf {
      VictimShows(v.g, a, wanted);
      TakeShows(v.g, a, Victim(v.g, wanted), k);
    }
  }

  lemma {:induction false} MissesShow(v: SegServing, a: Aged, wanted: set<int>, ks: seq<int>, j: nat)
    requires Shows(v.g, a) && SegMid(v, wanted) && |wanted| <= |v.g.keyOf| && j <= |ks|
    requires forall i :: 0 <= i < |ks| ==> ks[i] in wanted && ks[i] >= 0
    ensures Shows(SegMisses(v, wanted, ks, j).g, AgedMisses(a, wanted, ks, j))
    decreases |ks| - j
  {
    if j == |ks| {
    } else {
      SegMissMid(v, wanted, ks[j]);
      MissShows(v, a, wanted, ks[j]);
      MissesShow(SegMiss(v, wanted, ks[j]), AgedMiss(a, wanted, ks[j]), wanted, ks, j + 1);
    }
  }

  lemma PlanShows(g: Segments, a: Aged, ks: seq<int>)
    requires Shows(g, a) && g.Valid() && Fits(ks, |g.keyOf|)
    ensures Shows(SegPlanStep(g, ks).g, AgedPlan(a, ks))
  {
    HitsShow(SegServing(g, 0, 0), a, ks, 0);
    SortedFits(ks, |g.keyOf|);
    MissesShow(SegAfterHits(g, ks), AgedHits(a, ks, 0), Elems(ks), Sorted(ks), 0);
  }

  /** No slot holds an expert; they are used up in their own order. */
  function Fresh(n: nat): Aged {
    Aged(seq(n, _ => -1), {}, seq(n, i => i), n)
  }

  ghost function AgedAt(w: Workload, i: nat): (a: Aged)
    requires w.Ok() && i <= |w.plans|
    ensures a.Ok() && |a.keyOf| == w.n
  {
    if i == 0 then Fresh(w.n) else AgedPlan(AgedAt(w, i - 1), w.Want(i - 1))
  }

  /** Lists with the ages that they stand for. */
  ghost function Matching(): iset<(Segments, Aged)> {
    iset p: (Segments, Aged) | Shows(p.0, p.1)
  }

  /** Where the replay and the ages stand after `i` plans. */
  ghost function Standing(w: Workload, i: nat): (Segments, Aged)
    requires w.Ok() && i <= |w.plans|
  {
    (SegAt(w, i), AgedAt(w, i))
  }

  lemma FirstShows(w: Workload)
    requires w.Ok()
    ensures Standing(w, 0) in Matching()
  {
    EmptySegmentsValid(w.n);
  }

  lemma NextAges(w: Workload, i: nat)
    requires w.Ok() && i < |w.plans| && Shows(SegAt(w, i), AgedAt(w, i))
    ensures Shows(SegAt(w, i + 1), AgedAt(w, i + 1))
  {
    w.Fit(i);
    PlanShows(SegAt(w, i), AgedAt(w, i), w.Want(i));
  }

  lemma NextShows(w: Workload, i: nat, j: nat)
    requires w.Ok() && i < |w.plans| && Standing(w, i) in Matching() && j == i + 1
    ensures Standing(w, j) in Matching()
  {
    NextAges(w, i);
  }

  /** Over every trace the lists stand for the ages: the protected slots are in the
      order in which they were last used, the others in the order in which they
      came in or were sent back. */
  lemma {:induction false} RunShows(w: Workload, i: nat)
    requires w.Ok() && i <= |w.plans|
    ensures Standing(w, i) in Matching()
  {
    if i == 0 {
      FirstShows(w);
    } else {
      RunShows(w, i - 1);
      NextShows(w, i - 1, i);
    }
  }
}
