/** Thresholds fitted on scores: the router's (bench/reflexbench/ab_metrics.py)
    and the gate's (bench/reflexbench/rg_metrics.py) try only a few, and are the
    best of all. */
module Thresholds {
  import opened Options

  // ------------------------------------------------------------ candidates

  predicate Climbs(c: seq<real>) {
    forall i, j :: 0 <= i < j < |c| ==> c[i] < c[j]
  }

  function Include(x: real, c: seq<real>): seq<real> {
    if c == [] || x < c[0] then [x] + c
    else if x == c[0] then c
    else [c[0]] + Include(x, c[1..])
  }

  /** The different scores, lowest first. */
  function Candidates(scores: seq<real>): seq<real> {
    if scores == [] then [] else Include(scores[0], Candidates(scores[1..]))
  }

  lemma {:induction false} IncludeClimbs(x: real, c: seq<real>)
    requires Climbs(c)
    ensures Climbs(Include(x, c))
    ensures forall y :: y in Include(x, c) <==> y == x || y in c
  {
    if c != [] && x > c[0] {
      IncludeClimbs(x, c[1..]);
      var r := Include(x, c[1..]);
      forall i | 0 <= i < |r| ensures c[0] < r[i] {
        assert r[i] in r;
      }
      assert forall y :: y in c <==> y == c[0] || y in c[1..];
    }
  }

  lemma {:induction false} CandidatesClimb(scores: seq<real>)
    ensures Climbs(Candidates(scores))
    ensures forall y :: y in Candidates(scores) <==> y in scores
  {
    if scores == [] {
    } else {
      CandidatesClimb(scores[1..]);
      IncludeClimbs(scores[0], Candidates(scores[1..]));
    }
  }

  /** How many candidates lie below `t`. */
  function Below(c: seq<real>, t: real): (i: nat)
    ensures i <= |c|
  {
    if c == [] || c[0] >= t then 0 else 1 + Below(c[1..], t)
  }

  lemma {:induction false} BelowSplits(c: seq<real>, t: real)
    requires Climbs(c)
    ensures forall k :: 0 <= k < |c| ==> (c[k] < t <==> k < Below(c, t))
  {
    if c != [] && c[0] < t {
      BelowSplits(c[1..], t);
      forall k | 0 <= k < |c| ensures c[k] < t <==> k < Below(c, t) {
        if k > 0 {
          assert c[k] == c[1..][k - 1];
        }
      }
    }
  }

  // ------------------------------------------------------------ thresholds

  /** Any real threshold, or infinity. */
  datatype Cut = At(t: real) | Never

  predicate Reaches(s: real, cut: Cut) {
    cut.At? && s >= cut.t
  }

  function Route(scores: seq<real>, cut: Cut): (r: seq<bool>)
    ensures |r| == |scores| && forall i :: 0 <= i < |r| ==> r[i] == Reaches(scores[i], cut)
  {
    seq(|scores|, i requires 0 <= i < |scores| => Reaches(scores[i], cut))
  }

  /** Thresholds with no candidate between them decide alike. */
  lemma SameRoute(scores: seq<real>, t: real, cut: Cut)
    requires forall x :: x in Candidates(scores) ==> (x >= t <==> Reaches(x, cut))
    ensures Route(scores, At(t)) == Route(scores, cut)
  {
    CandidatesClimb(scores);
    forall i | 0 <= i < |scores| ensures Reaches(scores[i], At(t)) == Reaches(scores[i], cut) {
      assert scores[i] in scores;
    }
  }

  function Count(bs: seq<bool>): nat {
    if bs == [] then 0 else (if bs[0] then 1 else 0) + Count(bs[1..])
  }

  ghost function Places(bs: seq<bool>): set<nat> {
    set i: nat | i < |bs| && bs[i]
  }

  lemma {:induction false} CountSnoc(bs: seq<bool>, b: bool)
    ensures Count(bs + [b]) == Count(bs) + if b then 1 else 0
  {
    if bs == [] {
    } else {
      assert (bs + [b])[1..] == bs[1..] + [b];
      CountSnoc(bs[1..], b);
    }
  }

  lemma PlacesSnoc(bs: seq<bool>, n: nat)
    requires |bs| == n + 1
    ensures |Places(bs)| == |Places(bs[..n])| + if bs[n] then 1 else 0
  {
    assert Places(bs) == Places(bs[..n]) + if bs[n] then {n} else {};
    assert n !in Places(bs[..n]);
  }

  /** A count is how many places hold true. */
  lemma {:induction false} CountIs(bs: seq<bool>)
    ensures Count(bs) == |Places(bs)|
  {
    if bs == [] {
    } else {
      var n := |bs| - 1;
      CountIs(bs[..n]);
      assert bs == bs[..n] + [bs[n]];
      CountSnoc(bs[..n], bs[n]);
      PlacesSnoc(bs, n);
    }
  }

  // ------------------------------------------------------------ the router

  /** The right answers of the routing: the small model's where it is routed
      to it, the large one's elsewhere. */
  function Right(routed: seq<bool>, small: seq<bool>, large: seq<bool>): nat
    requires |routed| == |small| == |large|
  {
    var n := |routed|;
    Count(seq(n, i requires 0 <= i < n => if routed[i] then small[i] else large[i]))
  }

  /** Of as many items, the places of those the routing answers right. */
  ghost function AnsweredRight(routed: seq<bool>, small: seq<bool>, large: seq<bool>): set<nat>
    requires |routed| == |small| == |large|
  {
    set i: nat | i < |routed| && ((routed[i] && small[i]) || (!routed[i] && large[i]))
  }

  lemma RightIs(routed: seq<bool>, small: seq<bool>, large: seq<bool>)
    requires |routed| == |small| == |large|
    ensures Right(routed, small, large) == |AnsweredRight(routed, small, large)|
  {
    var n := |routed|;
    var bs := seq(n, i requires 0 <= i < n => if routed[i] then small[i] else large[i]);
    CountIs(bs);
    assert Places(bs) == AnsweredRight(routed, small, large);
  }

  predicate Matched(scores: seq<real>, small: seq<bool>, large: seq<bool>) {
    |scores| == |small| == |large|
  }

  /** The accuracy lost to always answering with the large model is at most
      `maxLoss` points. */
  predicate Within(scores: seq<real>, small: seq<bool>, large: seq<bool>, maxLoss: real, routed: seq<bool>)
    requires Matched(scores, small, large) && scores != [] && |routed| == |scores|
  {
    (100 * (Count(large) - Right(routed, small, large))) as real / |scores| as real <= maxLoss
  }

  /** The loss is that of accuracies in points: shares of all items, by a hundred. */
  lemma WithinIs(scores: seq<real>, small: seq<bool>, large: seq<bool>, maxLoss: real, routed: seq<bool>)
    requires Matched(scores, small, large) && scores != [] && |routed| == |scores|
    ensures Within(scores, small, large, maxLoss, routed) <==>
      |Places(large)| as real / |scores| as real - |AnsweredRight(routed, small, large)| as real / |scores| as real
        <= maxLoss / 100.0
  {
    CountIs(large);
    RightIs(routed, small, large);
    Points(Count(large), Right(routed, small, large), |scores| as real, maxLoss);
  }

  lemma Points(a: int, b: int, n: real, max: real)
    requires n > 0.0
    ensures (100 * (a - b)) as real / n <= max <==> a as real / n - b as real / n <= max / 100.0
  {
    var d := (a - b) as real / n;
    assert (100 * (a - b)) as real / n == 100.0 * d;
    assert a as real / n - b as real / n == d;
  }

  /** What the router tries: every score, then infinity. */
  function Tried(scores: seq<real>): seq<Cut> {
    var c := Candidates(scores);
    seq(|c| + 1, i requires 0 <= i <= |c| => if i < |c| then At(c[i]) else Never)
  }

  /** Whatever a threshold does, one that is tried does too. */
  lemma TriedLike(scores: seq<real>, cut: Cut) returns (i: nat)
    ensures i < |Tried(scores)| && Route(scores, Tried(scores)[i]) == Route(scores, cut)
  {
    var c := Candidates(scores);
    CandidatesClimb(scores);
    match cut
    case Never => i := |c|;
    case At(t) =>
      BelowSplits(c, t);
      i := Below(c, t);
      SameRoute(scores, t, Tried(scores)[i]);
  }

  /** Of the first `n` thresholds tried, `best` routes the most items small
      among those that keep within the loss; none when none does. */
  ghost predicate BestTo(scores: seq<real>, small: seq<bool>, large: seq<bool>, maxLoss: real, n: nat,
                         best: Option<Cut>, bestSmall: int)
    requires Matched(scores, small, large) && scores != [] && n <= |Tried(scores)|
  {
    && (forall i :: 0 <= i < n && Within(scores, small, large, maxLoss, Route(scores, Tried(scores)[i])) ==>
          best.Some? && Count(Route(scores, Tried(scores)[i])) <= bestSmall)
    && (best.None? ==> bestSmall == -1)
    && (best.Some? ==>
          && best.value in Tried(scores)
          && Within(scores, small, large, maxLoss, Route(scores, best.value))
          && bestSmall == Count(Route(scores, best.value)))
  }

  /** The router's threshold: of all thresholds, real or infinite, the one that
      routes the most items small among those losing at most `maxLoss` points;
      none exactly when every threshold loses more. */
  method FitRouter(scores: seq<real>, small: seq<bool>, large: seq<bool>, maxLoss: real) returns (best: Option<Cut>)
    requires Matched(scores, small, large)
    ensures scores == [] ==> best == None
    ensures scores != [] && best.None? ==>
      forall cut :: !Within(scores, small, large, maxLoss, Route(scores, cut))
    ensures best.Some? ==>
      && scores != []
      && Within(scores, small, large, maxLoss, Route(scores, best.value))
      && (best.value.At? ==> best.value.t in scores)
      && forall cut :: Within(scores, small, large, maxLoss, Route(scores, cut)) ==>
           Count(Route(scores, cut)) <= Count(Route(scores, best.value))
  {
    best := None;
    if scores == [] {
      return;
    }
    var bestSmall: int := -1;
    var tried, i := Tried(scores), 0;
    while i < |tried|
      invariant i <= |tried|
      invariant BestTo(scores, small, large, maxLoss, i, best, bestSmall)
    {
      var routed := Route(scores, tried[i]);
      if Within(scores, small, large, maxLoss, routed) && Count(routed) > bestSmall {
        best, bestSmall := Some(tried[i]), Count(routed);
      }
      i := i + 1;
    }
    CandidatesClimb(scores);
    forall cut | Within(scores, small, large, maxLoss, Route(scores, cut))
      ensures best.Some? && Count(Route(scores, cut)) <= Count(Route(scores, best.value))
    {
      var k := TriedLike(scores, cut);
      assert Within(scores, small, large, maxLoss, Route(scores, tried[k]));
    }
  }

  // ------------------------------------------------------------ the gate

  /** The cases predicted `p` whose truth is `y`. */
  function Cases(predicted: seq<bool>, positives: seq<bool>, p: bool, y: bool): nat
    requires |predicted| == |positives|
  {
    var n := |predicted|;
    Count(seq(n, i requires 0 <= i < n => predicted[i] == p && positives[i] == y))
  }

  ghost function CasesOf(predicted: seq<bool>, positives: seq<bool>, p: bool, y: bool): set<nat>
    requires |predicted| == |positives|
  {
    set i: nat | i < |predicted| && predicted[i] == p && positives[i] == y
  }

  lemma CasesAre(predicted: seq<bool>, positives: seq<bool>, p: bool, y: bool)
    requires |predicted| == |positives|
    ensures Cases(predicted, positives, p, y) == |CasesOf(predicted, positives, p, y)|
  {
    var n := |predicted|;
    var bs := seq(n, i requires 0 <= i < n => predicted[i] == p && positives[i] == y);
    CountIs(bs);
    assert Places(bs) == CasesOf(predicted, positives, p, y);
  }

  datatype TwoWay = TwoWay(accuracy: real, balanced: real, caught: real, blocked: real)

  lemma ClassIsThere(positives: seq<bool>, y: bool)
    ensures Cases(positives, positives, y, y) > 0 <==> y in positives
  {
    CasesAre(positives, positives, y, y);
    if y in positives {
      var i :| 0 <= i < |positives| && positives[i] == y;
      assert i in CasesOf(positives, positives, y, y);
    }
  }

  /** Of the cases that do not suffice the share stopped is caught, of those
      that do the share stopped is blocked; none without cases of both kinds. */
  function Judge(predicted: seq<bool>, positives: seq<bool>): Option<TwoWay>
    requires |predicted| == |positives|
  {
    var pos, neg := Cases(positives, positives, true, true), Cases(positives, positives, false, false);
    if pos == 0 || neg == 0 then None
    else
      var caught := Cases(predicted, positives, false, false) as real / neg as real;
      var blocked := Cases(predicted, positives, false, true) as real / pos as real;
      var right := Cases(predicted, positives, true, true) + Cases(predicted, positives, false, false);
      Some(TwoWay(right as real / |positives| as real, (caught + 1.0 - blocked) / 2.0, caught, blocked))
  }

  /** All the cases of a kind, those predicted so, and those predicted right. */
  ghost function Kind(positives: seq<bool>, y: bool): set<nat> {
    set i: nat | i < |positives| && positives[i] == y
  }

  ghost function PredictedRight(predicted: seq<bool>, positives: seq<bool>): set<nat>
    requires |predicted| == |positives|
  {
    set i: nat | i < |predicted| && predicted[i] == positives[i]
  }

  /** The shares are of the cases: of all, those predicted right; of those that
      do not suffice and of those that do, the ones stopped. The balanced one is
      the mean of the shares of the two kinds that are predicted right. */
  lemma JudgeExactly(predicted: seq<bool>, positives: seq<bool>)
    requires |predicted| == |positives|
    ensures Judge(predicted, positives).Some? <==> true in positives && false in positives
    ensures Judge(predicted, positives).Some? ==>
      var v := Judge(predicted, positives).value;
      var pos, neg := |Kind(positives, true)|, |Kind(positives, false)|;
      && pos > 0 && neg > 0
      && v.accuracy == |PredictedRight(predicted, positives)| as real / |positives| as real
      && v.caught == |CasesOf(predicted, positives, false, false)| as real / neg as real
      && v.blocked == |CasesOf(predicted, positives, false, true)| as real / pos as real
      && v.balanced == (|CasesOf(predicted, positives, false, false)| as real / neg as real
                        + |CasesOf(predicted, positives, true, true)| as real / pos as real) / 2.0
  {
    ClassIsThere(positives, true);
    ClassIsThere(positives, false);
    CasesAre(positives, positives, true, true);
    CasesAre(positives, positives, false, false);
    CasesAre(predicted, positives, true, true);
    CasesAre(predicted, positives, false, false);
    CasesAre(predicted, positives, false, true);
    assert CasesOf(positives, positives, true, true) == Kind(positives, true);
    assert CasesOf(positives, positives, false, false) == Kind(positives, false);
    Apart(CasesOf(predicted, positives, true, true), CasesOf(predicted, positives, false, false),
          PredictedRight(predicted, positives));
    Apart(CasesOf(predicted, positives, true, true), CasesOf(predicted, positives, false, true),
          Kind(positives, true));
    var pos := |Kind(positives, true)|;
    if pos > 0 {
      Rest(|CasesOf(predicted, positives, true, true)| as real, |CasesOf(predicted, positives, false, true)| as real,
           pos as real);
    }
  }

  lemma Apart(a: set<nat>, b: set<nat>, c: set<nat>)
    requires a * b == {} && a + b == c
    ensures |a| + |b| == |c|
  {
  }

  lemma Rest(a: real, b: real, n: real)
    requires n > 0.0 && a + b == n
    ensures 1.0 - b / n == a / n
  {
    assert a / n + b / n == (a + b) / n;
  }

  function Balanced(scores: seq<real>, positives: seq<bool>, t: real): real
    requires |scores| == |positives| && true in positives && false in positives
  {
    ClassIsThere(positives, true);
    ClassIsThere(positives, false);
    Judge(Route(scores, At(t)), positives).value.balanced
  }

  /** What the gate tries: the lowest score, between each two that follow each
      other, and above the highest. */
  function Cuts(c: seq<real>): seq<real>
    requires c != []
  {
    seq(|c| + 1, i requires 0 <= i <= |c| =>
      if i == 0 then c[0] else if i == |c| then c[i - 1] + 1.0 else (c[i - 1] + c[i]) / 2.0)
  }

  lemma CutLike(scores: seq<real>, t: real) returns (i: nat)
    requires scores != []
    ensures Candidates(scores) != [] && i < |Cuts(Candidates(scores))|
    ensures Route(scores, At(Cuts(Candidates(scores))[i])) == Route(scores, At(t))
  {
    var c := Candidates(scores);
    CandidatesClimb(scores);
    assert scores[0] in c;
    BelowSplits(c, t);
    i := Below(c, t);
    var cut := Cuts(c)[i];
    forall x | x in c ensures x >= t <==> x >= cut {
      var k :| 0 <= k < |c| && c[k] == x;
      CutSplits(c, i, k);
    }
    SameRoute(scores, t, At(cut));
  }

  /** A cut is above the scores before it only. */
  lemma CutSplits(c: seq<real>, i: nat, k: nat)
    requires c != [] && Climbs(c) && i <= |c| && k < |c|
    ensures c[k] < Cuts(c)[i] <==> k < i
  {
    if 0 < i < |c| {
      assert k < i - 1 ==> c[k] < c[i - 1];
      assert k > i ==> c[i] < c[k];
    }
  }

  /** The first of the cuts from the `i`th on with the best balanced accuracy. */
  function FirstBest(scores: seq<real>, positives: seq<bool>, cuts: seq<real>, i: nat): (t: real)
    requires |scores| == |positives| && true in positives && false in positives && i < |cuts|
    ensures t in cuts[i..]
    ensures forall k :: i <= k < |cuts| ==> Balanced(scores, positives, cuts[k]) <= Balanced(scores, positives, t)
    decreases |cuts| - i
  {
    if i == |cuts| - 1 then cuts[i]
    else
      var later := FirstBest(scores, positives, cuts, i + 1);
      if Balanced(scores, positives, cuts[i]) >= Balanced(scores, positives, later) then cuts[i] else later
  }

  /** Those before it are worse. */
  lemma {:induction false} BestIsFirst(scores: seq<real>, positives: seq<bool>, cuts: seq<real>, i: nat)
    returns (p: nat)
    requires |scores| == |positives| && true in positives && false in positives && i < |cuts|
    ensures i <= p < |cuts| && cuts[p] == FirstBest(scores, positives, cuts, i)
    ensures forall k :: i <= k < p ==> Balanced(scores, positives, cuts[k]) < Balanced(scores, positives, cuts[p])
    decreases |cuts| - i
  {
    p := i;
    if cuts[i] != FirstBest(scores, positives, cuts, i) {
      p := BestIsFirst(scores, positives, cuts, i + 1);
    }
  }

  function FitGate(scores: seq<real>, positives: seq<bool>): Option<real>
    requires |scores| == |positives|
  {
    if scores == [] || true !in positives || false !in positives then None
    else
      CandidatesClimb(scores);
      assert scores[0] in Candidates(scores);
      Some(FirstBest(scores, positives, Cuts(Candidates(scores)), 0))
  }

  /** The gate's threshold has the best balanced accuracy of all thresholds;
      there is none exactly when a class has no case. */
  lemma GateIsBest(scores: seq<real>, positives: seq<bool>, t: real)
    requires |scores| == |positives|
    ensures FitGate(scores, positives).Some? <==> true in positives && false in positives
    ensures FitGate(scores, positives).Some? ==>
      Balanced(scores, positives, t) <= Balanced(scores, positives, FitGate(scores, positives).value)
  {
    if FitGate(scores, positives).Some? {
      var i := CutLike(scores, t);
      assert Balanced(scores, positives, t) == Balanced(scores, positives, Cuts(Candidates(scores))[i]);
    }
  }

  /** Of thresholds as good it is the lowest: a lower one that decides otherwise is
      worse. */
  lemma GateIsLowest(scores: seq<real>, positives: seq<bool>, t: real)
    requires |scores| == |positives| && FitGate(scores, positives).Some?
    requires t < FitGate(scores, positives).value
    requires Route(scores, At(t)) != Route(scores, At(FitGate(scores, positives).value))
    ensures Balanced(scores, positives, t) < Balanced(scores, positives, FitGate(scores, positives).value)
  {
    var c := Candidates(scores);
    var cuts := Cuts(c);
    var i := CutLike(scores, t);
    var p := BestIsFirst(scores, positives, cuts, 0);
    CandidatesClimb(scores);
    if i > p {
      CutSplits(c, i, p);
      CutSplits(c, p, p);
      CutBelow(scores, t, i, p);
    }
    assert Balanced(scores, positives, t) == Balanced(scores, positives, cuts[i]);
  }

  /** A threshold that decides as the `i`th cut is above the cuts before it. */
  lemma CutBelow(scores: seq<real>, t: real, i: nat, p: nat)
    requires p < i <= |Candidates(scores)|
    requires Route(scores, At(Cuts(Candidates(scores))[i])) == Route(scores, At(t))
    ensures Cuts(Candidates(scores))[p] < t
  {
    var c := Candidates(scores);
    CandidatesClimb(scores);
    CutSplits(c, i, p);
    CutSplits(c, p, p);
    assert c[p] in scores;
    var k :| 0 <= k < |scores| && scores[k] == c[p];
    assert Route(scores, At(Cuts(c)[i]))[k] == Route(scores, At(t))[k];
  }
}
