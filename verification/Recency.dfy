/** One plan of the policies that keep a recency list, as functions on values:
    LRU, stale-MRU, stale-LFU and LFU-pass differ only in the slot a miss takes
    (bench/moe_cache_sim/moe_cache_sim.cpp). Every one of them serves every plan. */
module Recency {
  import opened Options
  import opened Slots
  import opened RecencyList

  const INT32_MAX: int := 0x7fff_ffff

  /** How a miss chooses its slot. `StaleLfu` with `behind` is lfu-pass. */
  datatype Rule =
    | Lru
    | StaleMru(passLen: nat)
    | StaleLfu(passLen: nat, window: nat, behind: bool)

  /** The slots' experts, the recency list (least recent first), the plan of
      each slot's last use, the plans so far, and where the pass began. */
  datatype State = Cache(keyOf: seq<int>, order: seq<int>, lastT: seq<nat>, t: nat, lastIl: int, passStart: nat)
  {
    /** The expert in the `i`th slot of the recency list. */
    function At(i: nat): int
      requires i < |order| && 0 <= order[i] < |keyOf|
    {
      keyOf[order[i]]
    }

    function Used(i: nat): nat
      requires i < |order| && 0 <= order[i] < |lastT|
    {
      lastT[order[i]]
    }

    ghost predicate Valid() {
      && |keyOf| >= 1
      && |lastT| == |keyOf|
      && IsOrder(order, |keyOf|)
      && Injective(keyOf)
      // the empty slots come first
      && (forall i, j :: 0 <= i < j < |order| && At(j) == -1 ==> At(i) == -1)
      && (forall s :: 0 <= s < |lastT| ==> lastT[s] <= t)
    }

    /** What the next plan starts from. */
    function Begin(il: int): State {
      this.(t := t + 1, lastIl := il, passStart := if il <= lastIl then t + 1 else passStart)
    }

    ghost function Use(s: int): State
      requires s in order && 0 <= s < |lastT|
    {
      this.(order := Touched(order, s), lastT := lastT[s := t])
    }
  }

  function Empty(n: nat): State {
    Cache(seq(n, _ => -1), seq(n, i => i), seq(n, _ => 0), 0, INT32_MAX, 0)
  }

  lemma EmptyValid(n: nat)
    requires n >= 1
    ensures Empty(n).Valid() && Resident(Empty(n).keyOf) == {}
  {
    forall s | 0 <= s < n ensures s in Empty(n).order { assert Empty(n).order[s] == s; }
  }

  /** A plan under way: the cache and what has been served of the plan. */
  datatype Serving = Serving(st: State, hits: nat, misses: nat)
  {
    function Served(): nat { hits + misses }
  }

  // ------------------------------------------------------------ the victim

  predicate StaleAt(st: State, passLen: nat, i: nat)
    requires i < |st.order| && 0 <= st.order[i] < |st.keyOf| == |st.lastT|
  {
    st.At(i) < 0 || st.t - st.Used(i) >= passLen
  }

  predicate InRange(st: State) {
    && |st.order| == |st.keyOf| == |st.lastT|
    && forall i :: 0 <= i < |st.order| ==> 0 <= st.order[i] < |st.keyOf|
  }

  /** The slots used earlier in this pass, the latest first, from position `c`
      down: `looked` were compared already, `best` has the lowest score so far. */
  function ScanBack(st: State, window: nat, score: int -> real, c: int, looked: nat, best: nat): (p: nat)
    requires InRange(st) && -1 <= c < best < |st.order|
    ensures p <= best
    decreases c
  {
    if c < 0 || st.Used(c) < st.passStart || (window != 0 && looked >= window) then best
    else ScanBack(st, window, score, c - 1, looked + 1,
                  if score(st.At(c)) < score(st.At(best)) then c else best)
  }

  /** The stale slots at the head of the list, from position `c` up. */
  function ScanStale(st: State, passLen: nat, window: nat, score: int -> real, c: nat, looked: nat, best: nat): (p: nat)
    requires InRange(st) && best < c <= |st.order|
    ensures p < |st.order|
    decreases |st.order| - c
  {
    if c == |st.order| || (window != 0 && looked >= window) then best
    else if st.At(c) < 0 then c
    else if !StaleAt(st, passLen, c) then best
    else ScanStale(st, passLen, window, score, c + 1, looked + 1,
                   if score(st.At(c)) < score(st.At(best)) then c else best)
  }

  /** Position in the recency list of the slot a miss takes, when the last
      `served` slots of the list are this plan's. */
  function VictimPos(rule: Rule, st: State, served: nat, score: int -> real): (p: nat)
    requires InRange(st) && served < |st.order|
    ensures p < |st.order|
  {
    match rule
    case Lru => 0
    case StaleMru(passLen) =>
      if StaleAt(st, passLen, 0) then 0 else |st.order| - 1 - served
    case StaleLfu(passLen, window, behind) =>
      if st.At(0) >= 0 && !StaleAt(st, passLen, 0) then
        var p := |st.order| - 1 - served;
        if behind && st.Used(p) >= st.passStart then ScanBack(st, window, score, p - 1, 1, p) else p
      else if st.At(0) >= 0 then ScanStale(st, passLen, window, score, 1, 1, 0)
      else 0
  }

  /** A pass of at least one plan, where the stale slots are compared. */
  predicate RuleOk(rule: Rule) {
    rule.StaleLfu? ==> rule.passLen >= 1
  }

  // ------------------------------------------------------------ one plan

  /** The last `Served()` slots of the list are exactly those that hold an
      expert of `wanted`, and were all used in this plan. */
  ghost predicate Mid(v: Serving, wanted: set<int>) {
    && v.st.Valid()
    && v.Served() <= |v.st.order|
    && -1 !in wanted
    && (forall i :: 0 <= i < |v.st.order| ==> (v.st.At(i) in wanted <==> i >= |v.st.order| - v.Served()))
    && (forall i :: |v.st.order| - v.Served() <= i < |v.st.order| ==> v.st.Used(i) == v.st.t)
  }

  ghost function Hit(v: Serving, k: int): Serving
    requires v.st.Valid()
  {
    if k >= 0 && k in v.st.keyOf
    then Serving(v.st.Use(SlotOf(v.st.keyOf, k)), v.hits + 1, v.misses)
    else v
  }

  /** The hits among `ks` from the `j`th on. */
  ghost function Hits(v: Serving, ks: seq<int>, j: nat): (r: Serving)
    requires v.st.Valid() && j <= |ks|
    ensures r.st.Valid() && r.st.keyOf == v.st.keyOf && r.st.t == v.st.t && r.misses == v.misses
    decreases |ks| - j
  {
    if j == |ks| then v else
      HitValid(v, ks[j]);
      Hits(Hit(v, ks[j]), ks, j + 1)
  }

  /** An expert without a slot takes the victim's. */
  ghost function Miss(rule: Rule, v: Serving, k: int, score: int -> real): Serving
    requires v.st.Valid()
    requires k !in v.st.keyOf ==> v.Served() < |v.st.order|
  {
    if k in v.st.keyOf then v
    else
      var s := v.st.order[VictimPos(rule, v.st, v.Served(), score)];
      Serving(Take(v.st, s, k), v.hits, v.misses + 1)
  }

  // ------------------------------------------------------------ recency

  /** Where the slots are after a touch of the slot at position `i`. */
  lemma TouchedAt(order: seq<int>, s: int, n: nat)
    requires IsOrder(order, n) && 0 <= s < n
    ensures var i, r := Position(order, s), Touched(order, s);
      && |r| == n && r[n - 1] == s
      && (forall j :: 0 <= j < i ==> r[j] == order[j])
      && (forall j :: i <= j < n - 1 ==> r[j] == order[j + 1])
  {
  }

  /** The list after the use of a slot: the slots before it stay in place,
      those behind it move up, and it is last. */
  lemma AfterUse(st: State, s: int)
    requires IsOrder(st.order, |st.keyOf|) && |st.lastT| == |st.keyOf| && 0 <= s < |st.keyOf|
    ensures var n, p, r := |st.order|, Position(st.order, s), st.Use(s);
      && IsOrder(r.order, n)
      && r.At(n - 1) == st.keyOf[s] && r.Used(n - 1) == st.t
      && (forall j :: 0 <= j < p ==> r.At(j) == st.At(j) && r.Used(j) == st.Used(j))
      && (forall j :: p <= j < n - 1 ==> r.At(j) == st.At(j + 1) && r.Used(j) == st.Used(j + 1))
  {
    TouchedIsOrder(st.order, s, |st.keyOf|);
    TouchedAt(st.order, s, |st.keyOf|);
  }

  lemma HitValid(v: Serving, k: int)
    requires v.st.Valid()
    ensures Hit(v, k).st.Valid()
    ensures Hit(v, k).st.keyOf == v.st.keyOf && Hit(v, k).st.t == v.st.t
  {
    if k >= 0 && k in v.st.keyOf {
      var s, r := SlotOf(v.st.keyOf, k), Hit(v, k).st;
      AfterUse(v.st, s);
      var p := Position(v.st.order, s);
      forall i, j | 0 <= i < j < |r.order| ensures r.At(j) == -1 ==> r.At(i) == -1 {
        assert j < |r.order| - 1 ==> r.At(j) == v.st.At(if j < p then j else j + 1);
        assert r.At(i) == v.st.At(if i < p then i else i + 1);
      }
    }
  }

  /** The plan's slots are as many as the wanted experts the cache holds. */
  lemma ServedCard(v: Serving, wanted: set<int>)
    requires Mid(v, wanted)
    ensures v.Served() == |wanted * Resident(v.st.keyOf)|
  {
    var n := |v.st.order|;
    var s := seq(v.Served(), i requires 0 <= i < v.Served() => v.st.At(n - v.Served() + i));
    assert NoDup(s);
    NoDupCard(s);
    forall k ensures k in Elems(s) <==> k in wanted * Resident(v.st.keyOf) {
      if k in wanted * Resident(v.st.keyOf) {
        var x := SlotOf(v.st.keyOf, k);
        var p := Position(v.st.order, x);
        assert v.st.At(p) == k;
        assert s[p - (n - v.Served())] == k;
      }
    }
    assert Elems(s) == wanted * Resident(v.st.keyOf);
  }

  /** A plan begins with nothing served. */
  lemma BeginMid(st: State, il: int)
    requires st.Valid()
    ensures Mid(Serving(st.Begin(il), 0, 0), {})
  {
    var v := Serving(st.Begin(il), 0, 0);
    assert forall i :: 0 <= i < |st.order| ==> v.st.At(i) == st.At(i);
    assert v.Served() == 0;
  }

  lemma HitMid(v: Serving, done: set<int>, k: int)
    requires Mid(v, done) && k >= 0 && k !in done
    ensures Mid(Hit(v, k), done + {k})
  {
    HitValid(v, k);
    var n := |v.st.order|;
    if k in v.st.keyOf {
      var s, r := SlotOf(v.st.keyOf, k), Hit(v, k);
      AfterUse(v.st, s);
      var p := Position(v.st.order, s);
      assert v.st.At(p) == k;
      forall i | 0 <= i < n
        ensures r.st.At(i) in done + {k} <==> i >= n - r.Served()
        ensures i >= n - r.Served() ==> r.st.Used(i) == r.st.t
      {
        if i < n - 1 {
          var o := if i < p then i else i + 1;
          assert r.st.At(i) == v.st.At(o) != k;
        }
      }
    } else {
      assert forall i :: 0 <= i < n ==> v.st.At(i) != k;
    }
  }

  lemma {:induction false} HitsMid(v: Serving, ks: seq<int>, j: nat)
    requires j <= |ks| && Mid(v, Upto(ks, j)) && NoDup(ks)
    requires forall i :: 0 <= i < |ks| ==> ks[i] >= 0
    ensures Mid(Hits(v, ks, j), Elems(ks))
    decreases |ks| - j
  {
    UptoEnds(ks);
    if j == |ks| {
    } else {
      UptoNext(ks, j);
      HitMid(v, Upto(ks, j), ks[j]);
      HitsMid(Hit(v, ks[j]), ks, j + 1);
    }
  }

  /** `first` is the oldest slot of this plan's, -1 while it has none. */
  ghost function OldestUsed(v: Serving): int {
    if 1 <= v.Served() <= |v.st.order| then v.st.order[|v.st.order| - v.Served()] else -1
  }

  /** The oldest slot of the plan stays the oldest as others come in. */
  lemma FirstStays(v: Serving, done: set<int>, s: int, p: nat)
    requires Mid(v, done) && p < |v.st.order| - v.Served() && s == v.st.order[p]
    ensures var r := v.st.Use(s); var at := |v.st.order| - v.Served() - 1;
      r.order[at] == if v.Served() == 0 then s else v.st.order[at + 1]
  {
    TouchedAt(v.st.order, s, |v.st.order|);
    assert Position(v.st.order, s) == p;
  }

  // ------------------------------------------------------------ misses

  /** No rule takes one of this plan's slots, whatever the scores, and an
      empty slot goes before any other. */
  lemma VictimOutside(rule: Rule, v: Serving, wanted: set<int>, score: int -> real)
    requires Mid(v, wanted) && RuleOk(rule) && v.Served() < |v.st.order|
    ensures VictimPos(rule, v.st, v.Served(), score) < |v.st.order| - v.Served()
    ensures v.st.At(0) == -1 ==> VictimPos(rule, v.st, v.Served(), score) == 0
  {
    match rule
    case Lru =>
    case StaleMru(_) =>
    case StaleLfu(passLen, window, _) =>
      if v.st.At(0) >= 0 && StaleAt(v.st, passLen, 0) {
        ScanStaleOutside(v, wanted, passLen, window, score, 1, 1, 0);
      }
  }

  lemma {:induction false} ScanStaleOutside(v: Serving, wanted: set<int>, passLen: nat, window: nat,
                                            score: int -> real, c: nat, looked: nat, best: nat)
    requires Mid(v, wanted) && v.Served() < |v.st.order| && passLen >= 1
    requires best < c <= |v.st.order| - v.Served() && v.st.At(0) >= 0
    ensures ScanStale(v.st, passLen, window, score, c, looked, best) < |v.st.order| - v.Served()
    decreases |v.st.order| - c
  {
    if c < |v.st.order| - v.Served() {
      ScanStaleOutside(v, wanted, passLen, window, score, c + 1, looked + 1,
                       if score(v.st.At(c)) < score(v.st.At(best)) then c else best);
    }
  }

  lemma MissMid(rule: Rule, v: Serving, wanted: set<int>, k: int, score: int -> real)
    requires Mid(v, wanted) && RuleOk(rule)
    requires k in wanted && k >= 0 && |wanted| <= |v.st.order|
    ensures k !in v.st.keyOf ==> v.Served() < |v.st.order|
    ensures var r := Miss(rule, v, k, score);
      && Mid(r, wanted)
      && k in r.st.keyOf
      && r.hits == v.hits && r.st.t == v.st.t
      && Resident(v.st.keyOf) * wanted <= Resident(r.st.keyOf) <= Resident(v.st.keyOf) + wanted
  {
    ServedCard(v, wanted);
    if k !in v.st.keyOf {
      assert wanted * Resident(v.st.keyOf) <= wanted - {k};
      SubsetCard(wanted * Resident(v.st.keyOf), wanted - {k});
      VictimOutside(rule, v, wanted, score);
      TakeMid(v, wanted, k, VictimPos(rule, v.st, v.Served(), score));
    }
  }

  /** The cache after slot `s` was given to `k` and used. */
  ghost function Take(st: State, s: int, k: int): State
    requires s in st.order && 0 <= s < |st.keyOf| == |st.lastT|
  {
    st.(keyOf := st.keyOf[s := k]).Use(s)
  }

  lemma TakeAt(st: State, p: nat, k: int)
    requires st.Valid() && p < |st.order|
    ensures var n, r := |st.order|, Take(st, st.order[p], k);
      && IsOrder(r.order, n)
      && r.At(n - 1) == k && r.Used(n - 1) == st.t
      && (forall j :: 0 <= j < p ==> r.At(j) == st.At(j) && r.Used(j) == st.Used(j))
      && (forall j :: p <= j < n - 1 ==> r.At(j) == st.At(j + 1) && r.Used(j) == st.Used(j + 1))
  {
    var s, st' := st.order[p], st.(keyOf := st.keyOf[st.order[p] := k]);
    AfterUse(st', s);
    assert Position(st'.order, s) == p;
    assert forall j :: 0 <= j < |st.order| && j != p ==> st'.At(j) == st.At(j);
  }

  lemma TakeValid(st: State, p: nat, k: int)
    requires st.Valid() && p < |st.order|
    requires k >= 0 && k !in st.keyOf
    requires st.At(0) == -1 ==> p == 0
    ensures Take(st, st.order[p], k).Valid()
    ensures k in Take(st, st.order[p], k).keyOf
  {
    var n, r := |st.order|, Take(st, st.order[p], k);
    TakeAt(st, p, k);
    AssignResident(st.keyOf, st.order[p], k);
    assert r.keyOf[st.order[p]] == k;
    forall i, j | 0 <= i < j < n ensures r.At(j) == -1 ==> r.At(i) == -1 {
      assert j < n - 1 ==> r.At(j) == st.At(if j < p then j else j + 1);
    }
  }

  /** Giving the slot at position `p`, which is not the plan's, to the missing
      expert `k` makes it the plan's most recently used. */
  lemma TakeMid(v: Serving, wanted: set<int>, k: int, p: nat)
    requires Mid(v, wanted) && k in wanted && k >= 0 && k !in v.st.keyOf
    requires p < |v.st.order| - v.Served()
    requires v.st.At(0) == -1 ==> p == 0
    ensures var r := Serving(Take(v.st, v.st.order[p], k), v.hits, v.misses + 1);
      && Mid(r, wanted)
      && k in r.st.keyOf
      && Resident(v.st.keyOf) * wanted <= Resident(r.st.keyOf) <= Resident(v.st.keyOf) + wanted
  {
    var n, r := |v.st.order|, Serving(Take(v.st, v.st.order[p], k), v.hits, v.misses + 1);
    TakeValid(v.st, p, k);
    TakeAt(v.st, p, k);
    AssignResident(v.st.keyOf, v.st.order[p], k);
    assert v.st.At(p) !in wanted;
  }

  lemma MissFirst(rule: Rule, v: Serving, wanted: set<int>, k: int, first: int, score: int -> real)
    requires Mid(v, wanted) && RuleOk(rule) && first == OldestUsed(v)
    requires k in wanted && k >= 0 && k !in v.st.keyOf && v.Served() < |v.st.order|
    ensures var s := v.st.order[VictimPos(rule, v.st, v.Served(), score)];
      OldestUsed(Miss(rule, v, k, score)) == if first < 0 then s else first
  {
    VictimOutside(rule, v, wanted, score);
    var p := VictimPos(rule, v.st, v.Served(), score);
    var s := v.st.order[p];
    FirstStays(v, wanted, s, p);
    OldestOf(v, Miss(rule, v, k, score), s);
  }

  /** The oldest slot of the plan's, once slot `s` is used too. */
  lemma OldestOf(v: Serving, r: Serving, s: int)
    requires v.st.Valid() && v.Served() < |v.st.order| == |r.st.order| && r.Served() == v.Served() + 1
    requires var at := |v.st.order| - v.Served() - 1;
      r.st.order[at] == if v.Served() == 0 then s else v.st.order[at + 1]
    ensures OldestUsed(r) == if OldestUsed(v) < 0 then s else OldestUsed(v)
  {
  }

  // ------------------------------------------------------------ whole plans

  /** The misses among `ks` from the `j`th on. */
  ghost function Misses(rule: Rule, v: Serving, wanted: set<int>, ks: seq<int>, j: nat,
                        score: int -> real): (r: Serving)
    requires Mid(v, wanted) && RuleOk(rule) && |wanted| <= |v.st.order| && j <= |ks|
    requires forall i :: 0 <= i < |ks| ==> ks[i] in wanted && ks[i] >= 0
    ensures Mid(r, wanted) && |r.st.order| == |v.st.order|
    decreases |ks| - j
  {
    if j == |ks| then v else
      MissMid(rule, v, wanted, ks[j], score);
      Misses(rule, Miss(rule, v, ks[j], score), wanted, ks, j + 1, score)
  }

  /** A plan wants the experts `ks`, and they fit. */
  ghost predicate WantsAll(ks: seq<int>, wanted: set<int>, n: nat) {
    |wanted| <= n && forall i :: 0 <= i < |ks| ==> ks[i] in wanted && ks[i] >= 0
  }

  /** What serving the misses among `ks` from the `j`th on comes to, if they can be. */
  ghost function ToCome(rule: Rule, v: Serving, wanted: set<int>, ks: seq<int>, j: nat,
                        score: int -> real): Option<Serving> {
    if RuleOk(rule) && j <= |ks| && Mid(v, wanted) && WantsAll(ks, wanted, |v.st.order|)
    then Some(Misses(rule, v, wanted, ks, j, score))
    else None
  }

  lemma ToComeNext(rule: Rule, v: Serving, wanted: set<int>, ks: seq<int>, j: nat, score: int -> real)
    requires ToCome(rule, v, wanted, ks, j, score).Some? && j < |ks|
    ensures Mid(v, wanted) && ks[j] in wanted && ks[j] >= 0 && |wanted| <= |v.st.order|
    ensures ks[j] !in v.st.keyOf ==> v.Served() < |v.st.order|
    ensures ToCome(rule, Miss(rule, v, ks[j], score), wanted, ks, j + 1, score) == ToCome(rule, v, wanted, ks, j, score)
  {
    MissMid(rule, v, wanted, ks[j], score);
  }

  lemma ToComeFirst(rule: Rule, v: Serving, wanted: set<int>, ks: seq<int>, score: int -> real)
    requires RuleOk(rule) && Mid(v, wanted) && WantsAll(ks, wanted, |v.st.order|)
    ensures ToCome(rule, v, wanted, ks, 0, score) == Some(Misses(rule, v, wanted, ks, 0, score))
  {
  }

  lemma ToComeLast(rule: Rule, v: Serving, wanted: set<int>, ks: seq<int>, score: int -> real)
    requires ToCome(rule, v, wanted, ks, |ks|, score).Some?
    ensures ToCome(rule, v, wanted, ks, |ks|, score) == Some(v)
  {
  }

  /** The cache once the hits of a plan are served, in order of choice. */
  ghost function AfterHits(st: State, il: int, ks: seq<int>): (r: Serving)
    requires st.Valid() && Fits(ks, |st.keyOf|)
    ensures Mid(r, Elems(ks)) && r.misses == 0
    ensures r.st.keyOf == st.keyOf && r.st.t == st.t + 1
  {
    BeginMid(st, il);
    UptoEnds(ks);
    HitsMid(Serving(st.Begin(il), 0, 0), ks, 0);
    Hits(Serving(st.Begin(il), 0, 0), ks, 0)
  }

  /** Serving one plan: the hits in order of choice, then the misses in
      ascending order. */
  ghost function PlanStep(rule: Rule, st: State, il: int, ks: seq<int>, score: int -> real): (r: Serving)
    requires st.Valid() && RuleOk(rule) && Fits(ks, |st.keyOf|)
    ensures Mid(r, Elems(ks)) && |r.st.order| == |st.order|
  {
    SortedFits(ks, |st.keyOf|);
    Misses(rule, AfterHits(st, il, ks), Elems(ks), Sorted(ks), 0, score)
  }

  lemma {:induction false} MissesServe(rule: Rule, v: Serving, wanted: set<int>, ks: seq<int>, j: nat,
                                       score: int -> real)
    requires Mid(v, wanted) && RuleOk(rule) && |wanted| <= |v.st.order| && j <= |ks|
    requires forall i :: 0 <= i < |ks| ==> ks[i] in wanted && ks[i] >= 0
    requires Upto(ks, j) <= Resident(v.st.keyOf)
    ensures var r := Misses(rule, v, wanted, ks, j, score);
      && r.hits == v.hits && r.st.t == v.st.t
      && Resident(r.st.keyOf) <= Resident(v.st.keyOf) + wanted
      && Elems(ks) <= Resident(r.st.keyOf)
    decreases |ks| - j
  {
    UptoEnds(ks);
    if j == |ks| {
    } else {
      UptoNext(ks, j);
      MissMid(rule, v, wanted, ks[j], score);
      MissesServe(rule, Miss(rule, v, ks[j], score), wanted, ks, j + 1, score);
    }
  }

  /** Every plan is served, whatever the rule and the scores: all its experts
      are resident at the end and fill the end of the recency list, nothing
      came in but them, a hit is an expert the cache held before the plan and
      a miss one it did not. */
  lemma PlanServed(rule: Rule, st: State, il: int, ks: seq<int>, score: int -> real)
    requires st.Valid() && RuleOk(rule) && Fits(ks, |st.keyOf|)
    ensures var r := PlanStep(rule, st, il, ks, score);
      var before := Resident(st.keyOf); var after := Resident(r.st.keyOf);
      && r.st.Valid() && r.st.t == st.t + 1
      && Elems(ks) <= after <= before + Elems(ks)
      && r.hits == |Elems(ks) * before|
      && r.misses == |Elems(ks) - before|
      && r.hits + r.misses == |ks|
      && (forall i :: 0 <= i < |r.st.order| ==> (r.st.At(i) in Elems(ks) <==> i >= |r.st.order| - |ks|))
  {
    var v, wanted, r := AfterHits(st, il, ks), Elems(ks), PlanStep(rule, st, il, ks, score);
    SortedFits(ks, |st.keyOf|);
    ServedCard(v, wanted);
    UptoEnds(Sorted(ks));
    MissesServe(rule, v, wanted, Sorted(ks), 0, score);
    ServedCard(r, wanted);
    assert wanted * Resident(r.st.keyOf) == wanted;
    assert |wanted - Resident(st.keyOf)| == |wanted| - |wanted * Resident(st.keyOf)|;
  }
}
