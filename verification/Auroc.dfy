/** The rank-sum AUROC of bench/reflexbench/rg_metrics.py. */
module Auroc {
  import opened Options

  // ------------------------------------------------------------ what it promises

  /** Twice what a pair counts for a positive's score against a negative's. */
  function Worth(s: real, q: real): nat {
    if q < s then 2 else if q == s then 1 else 0
  }

  function WorthOver(s: real, qs: seq<real>): nat {
    if qs == [] then 0 else Worth(s, qs[0]) + WorthOver(s, qs[1..])
  }

  /** Twice the pairs that `ps` win against `qs`, ties counting half. */
  function Wins(ps: seq<real>, qs: seq<real>): nat {
    if ps == [] then 0 else WorthOver(ps[0], qs) + Wins(ps[1..], qs)
  }

  /** The share of the pairs that `pos` win against `neg`, ties counting half. */
  function Share(pos: seq<real>, neg: seq<real>): real
    requires pos != [] && neg != []
  {
    assert |pos| * |neg| > 0;
    Wins(pos, neg) as real / (2 * (|pos| * |neg|)) as real
  }

  /** The scores of one class. */
  function Class(scores: seq<real>, positives: seq<bool>, side: bool): seq<real>
    requires |scores| == |positives|
  {
    if scores == [] then []
    else OfSide(scores[0], positives[0], side) + Class(scores[1..], positives[1..], side)
  }

  function OfSide(x: real, positive: bool, side: bool): seq<real> {
    if positive == side then [x] else []
  }

  /** One more case at the end. */
  lemma {:induction false} ClassNext(scores: seq<real>, positives: seq<bool>, side: bool, x: real, y: bool)
    requires |scores| == |positives|
    ensures Class(scores + [x], positives + [y], side) == Class(scores, positives, side) + OfSide(x, y, side)
  {
    var xs, ys := scores + [x], positives + [y];
    if scores == [] {
      assert xs[1..] == [] && ys[1..] == [];
    } else {
      var rest := Class(scores[1..], positives[1..], side);
      assert xs[1..] == scores[1..] + [x] && ys[1..] == positives[1..] + [y];
      ClassNext(scores[1..], positives[1..], side, x, y);
      Regroup(OfSide(scores[0], positives[0], side), rest, OfSide(x, y, side));
    }
  }

  lemma Regroup(a: seq<real>, b: seq<real>, c: seq<real>)
    ensures a + (b + c) == a + b + c
  {
  }

  /** The first `n` cases that are on a side and have the score `x`. */
  ghost function CasesAt(scores: seq<real>, positives: seq<bool>, side: bool, x: real, n: nat): set<nat>
    requires n <= |scores| == |positives|
  {
    set i: nat | i < n && positives[i] == side && scores[i] == x
  }

  lemma CasesNext(scores: seq<real>, positives: seq<bool>, side: bool, x: real, n: nat)
    requires n < |scores| == |positives|
    ensures |CasesAt(scores, positives, side, x, n + 1)| ==
      |CasesAt(scores, positives, side, x, n)| + if positives[n] == side && scores[n] == x then 1 else 0
  {
    var before := CasesAt(scores, positives, side, x, n);
    assert n !in before;
    assert CasesAt(scores, positives, side, x, n + 1) ==
      before + if positives[n] == side && scores[n] == x then {n} else {};
  }

  /** How often the class of the first `n` cases has `x`. */
  ghost function Times(scores: seq<real>, positives: seq<bool>, side: bool, x: real, n: nat): nat
    requires n <= |scores| == |positives|
  {
    multiset(Class(scores[..n], positives[..n], side))[x]
  }

  lemma TimesNext(scores: seq<real>, positives: seq<bool>, side: bool, x: real, n: nat)
    requires n < |scores| == |positives|
    ensures Times(scores, positives, side, x, n + 1) ==
      Times(scores, positives, side, x, n) + if positives[n] == side && scores[n] == x then 1 else 0
  {
    assert scores[..n + 1] == scores[..n] + [scores[n]] && positives[..n + 1] == positives[..n] + [positives[n]];
    ClassNext(scores[..n], positives[..n], side, scores[n], positives[n]);
    OneMoreTime(Class(scores[..n], positives[..n], side), scores[n], positives[n], side, x);
  }

  lemma OneMoreTime(before: seq<real>, s: real, positive: bool, side: bool, x: real)
    ensures multiset(before + OfSide(s, positive, side))[x] ==
      multiset(before)[x] + if positive == side && s == x then 1 else 0
  {
  }

  lemma {:induction false} ClassTo(scores: seq<real>, positives: seq<bool>, side: bool, x: real, n: nat)
    requires n <= |scores| == |positives|
    ensures Times(scores, positives, side, x, n) == |CasesAt(scores, positives, side, x, n)|
  {
    if n == 0 {
      assert CasesAt(scores, positives, side, x, 0) == {};
    } else {
      ClassTo(scores, positives, side, x, n - 1);
      TimesNext(scores, positives, side, x, n - 1);
      CasesNext(scores, positives, side, x, n - 1);
    }
  }

  /** A class has each score as often as a case of it has that score. */
  lemma ClassIs(scores: seq<real>, positives: seq<bool>, side: bool, x: real)
    requires |scores| == |positives|
    ensures multiset(Class(scores, positives, side))[x] == |CasesAt(scores, positives, side, x, |scores|)|
  {
    ClassTo(scores, positives, side, x, |scores|);
    assert scores[..|scores|] == scores && positives[..|scores|] == positives;
  }

  lemma {:induction false} WorthSplits(s: real, qs: seq<real>, rs: seq<real>)
    ensures WorthOver(s, qs + rs) == WorthOver(s, qs) + WorthOver(s, rs)
  {
    if qs == [] {
      assert qs + rs == rs;
    } else {
      assert (qs + rs)[1..] == qs[1..] + rs;
      WorthSplits(s, qs[1..], rs);
    }
  }

  lemma WorthOfOneMore(s: real, q: real, qs: seq<real>)
    ensures WorthOver(s, [q] + qs) == Worth(s, q) + WorthOver(s, qs)
  {
    assert ([q] + qs)[1..] == qs;
  }

  /** Each score is worth over all what it is over the two classes. */
  lemma {:induction false} WorthOfClasses(s: real, scores: seq<real>, positives: seq<bool>)
    requires |scores| == |positives|
    ensures WorthOver(s, scores) ==
        WorthOver(s, Class(scores, positives, true)) + WorthOver(s, Class(scores, positives, false))
  {
    if scores == [] {
    } else {
      var side := positives[0];
      WorthOfOneMore(s, scores[0], Class(scores[1..], positives[1..], side));
      assert Class(scores, positives, !side) == Class(scores[1..], positives[1..], !side);
      WorthOfClasses(s, scores[1..], positives[1..]);
    }
  }

  /** Between them, two sides win every pair. */
  lemma {:induction false} WinsOfBoth(ps: seq<real>, qs: seq<real>)
    ensures Wins(ps, qs) + Wins(qs, ps) == 2 * |ps| * |qs|
  {
    if ps == [] {
      NoOneToBeat(qs);
    } else {
      WinsOfBoth(ps[1..], qs);
      WinsAgainstOneMore(ps[0], ps[1..], qs);
      assert [ps[0]] + ps[1..] == ps;
    }
  }

  lemma WinsOfOwn(ps: seq<real>)
    ensures Wins(ps, ps) == |ps| * |ps|
  {
    WinsOfBoth(ps, ps);
    assert 2 * |ps| * |ps| == 2 * (|ps| * |ps|);
  }

  lemma {:induction false} NoOneToBeat(qs: seq<real>)
    ensures Wins(qs, []) == 0
  {
    if qs == [] {
    } else {
      NoOneToBeat(qs[1..]);
    }
  }

  lemma {:induction false} WinsAgainstOneMore(p: real, ps: seq<real>, qs: seq<real>)
    ensures Wins(qs, [p] + ps) + WorthOver(p, qs) == Wins(qs, ps) + 2 * |qs|
  {
    if qs == [] {
    } else {
      WorthOfOneMore(qs[0], p, ps);
      WinsAgainstOneMore(p, ps, qs[1..]);
    }
  }

  // ------------------------------------------------------------ ranks

  predicate Ascends(s: seq<real>) {
    forall i, j :: 0 <= i < j < |s| ==> s[i] <= s[j]
  }

  function Insert(x: real, s: seq<real>): seq<real> {
    if s == [] || x <= s[0] then [x] + s else [s[0]] + Insert(x, s[1..])
  }

  /** The scores in order, lowest first. */
  function Ranked(s: seq<real>): seq<real> {
    if s == [] then [] else Insert(s[0], Ranked(s[1..]))
  }

  lemma {:induction false} InsertAscends(x: real, s: seq<real>)
    requires Ascends(s)
    ensures Ascends(Insert(x, s)) && |Insert(x, s)| == |s| + 1
    ensures forall y :: y in Insert(x, s) <==> y == x || y in s
  {
    if s != [] && x > s[0] {
      InsertAscends(x, s[1..]);
      var r := Insert(x, s[1..]);
      forall i | 0 <= i < |r| ensures s[0] <= r[i] {
        assert r[i] in r;
      }
      assert forall y :: y in s <==> y == s[0] || y in s[1..];
    }
  }

  lemma {:induction false} RankedAscends(s: seq<real>)
    ensures Ascends(Ranked(s)) && |Ranked(s)| == |s|
    ensures forall y :: y in Ranked(s) <==> y in s
  {
    if s == [] {
    } else {
      RankedAscends(s[1..]);
      InsertAscends(s[0], Ranked(s[1..]));
    }
  }

  lemma {:induction false} InsertWorth(x: real, s: seq<real>, y: real)
    ensures WorthOver(y, Insert(x, s)) == Worth(y, x) + WorthOver(y, s)
  {
    if s != [] && x > s[0] {
      InsertWorth(x, s[1..], y);
    }
  }

  lemma {:induction false} RankedWorth(s: seq<real>, y: real)
    ensures WorthOver(y, Ranked(s)) == WorthOver(y, s)
  {
    if s == [] {
    } else {
      InsertWorth(s[0], Ranked(s[1..]), y);
      RankedWorth(s[1..], y);
    }
  }

  /** Below `i`, from `i` to `j`, and from `j` on: lower scores, ties and higher ones. */
  ghost predicate Tied(s: seq<real>, i: nat, j: nat) {
    && i < j <= |s|
    && (forall k :: 0 <= k < i ==> s[k] < s[i])
    && (forall k :: i <= k < j ==> s[k] == s[i])
    && (forall k :: j <= k < |s| ==> s[i] < s[k])
  }

  lemma {:induction false} WorthOfRange(s: seq<real>, y: real, w: nat)
    requires forall k :: 0 <= k < |s| ==> Worth(y, s[k]) == w
    ensures WorthOver(y, s) == w * |s|
  {
    if s == [] {
    } else {
      WorthOfRange(s[1..], y, w);
    }
  }

  /** The rank, averaged over ties, is half of what the score is worth and one. */
  lemma TiedWorth(s: seq<real>, i: nat, j: nat)
    requires Tied(s, i, j)
    ensures WorthOver(s[i], s) == i + j
  {
    assert s == s[..i] + s[i..j] + s[j..];
    WorthSplits(s[i], s[..i] + s[i..j], s[j..]);
    WorthSplits(s[i], s[..i], s[i..j]);
    WorthOfRange(s[..i], s[i], 2);
    WorthOfRange(s[i..j], s[i], 1);
    WorthOfRange(s[j..], s[i], 0);
  }

  // ------------------------------------------------------------ the statistic

  /** The rank of every score, the ties of a run of equal ones averaged. */
  method Ranks(ranked: seq<real>) returns (rank: map<real, real>)
    requires Ascends(ranked)
    ensures rank.Keys == set x | x in ranked
    ensures forall x :: x in ranked ==> rank[x] == (WorthOver(x, ranked) + 1) as real / 2.0
  {
    var i := 0;
    rank := map[];
    while i < |ranked|
      invariant i <= |ranked|
      invariant rank.Keys == set x | x in ranked[..i]
      invariant i < |ranked| ==> forall k :: 0 <= k < i ==> ranked[k] < ranked[i]
      invariant forall x :: x in rank ==> rank[x] == (WorthOver(x, ranked) + 1) as real / 2.0
    {
      var j := i;
      while j < |ranked| && ranked[j] == ranked[i]
        invariant i <= j <= |ranked|
        invariant forall k :: i <= k < j ==> ranked[k] == ranked[i]
      {
        j := j + 1;
      }
      TiedWorth(ranked, i, j);
      rank := rank[ranked[i] := (i + j + 1) as real / 2.0];
      assert ranked[..j] == ranked[..i] + ranked[i..j];
      assert ranked[i] in ranked[i..j];
      i := j;
    }
    assert ranked[..i] == ranked;
  }

  /** The chance that a positive scores above a negative, ties counting half;
      none when either class is empty. */
  method Compute(scores: seq<real>, positives: seq<bool>) returns (r: Option<real>)
    requires |scores| == |positives|
    ensures var pos, neg := Class(scores, positives, true), Class(scores, positives, false);
      if pos == [] || neg == [] then r == None
      else r == Some(Share(pos, neg))
  {
    var pos, neg := Class(scores, positives, true), Class(scores, positives, false);
    if pos == [] || neg == [] {
      return None;
    }
    RankedAscends(scores);
    var rank := Ranks(Ranked(scores));
    ClassOf(scores, positives, true);
    forall i | 0 <= i < |pos|
      ensures pos[i] in rank && rank[pos[i]] == (WorthOver(pos[i], scores) + 1) as real / 2.0
    {
      RankedWorth(scores, pos[i]);
    }
    var total := TotalRank(rank, pos);
    TotalIsWins(rank, pos, scores, positives);
    RankSum(total, pos, neg);
    r := Some(FromRanks(total, |pos|, |neg|));
  }

  function TotalRank(rank: map<real, real>, pos: seq<real>): real
    requires forall i :: 0 <= i < |pos| ==> pos[i] in rank
  {
    if pos == [] then 0.0 else rank[pos[0]] + TotalRank(rank, pos[1..])
  }

  /** The ranks of any scores add up to half of what these win against both
      classes, and one each. */
  lemma {:induction false} TotalIsWins(rank: map<real, real>, ps: seq<real>, scores: seq<real>, positives: seq<bool>)
    requires |scores| == |positives|
    requires forall i :: 0 <= i < |ps| ==> ps[i] in rank && rank[ps[i]] == (WorthOver(ps[i], scores) + 1) as real / 2.0
    ensures 2.0 * TotalRank(rank, ps)
         == (Wins(ps, Class(scores, positives, true)) + Wins(ps, Class(scores, positives, false)) + |ps|) as real
  {
    if ps == [] {
    } else {
      WorthOfClasses(ps[0], scores, positives);
      TotalIsWins(rank, ps[1..], scores, positives);
    }
  }

  lemma {:induction false} ClassOf(scores: seq<real>, positives: seq<bool>, side: bool)
    requires |scores| == |positives|
    ensures forall i :: 0 <= i < |Class(scores, positives, side)| ==> Class(scores, positives, side)[i] in scores
  {
    if scores == [] {
    } else {
      ClassOf(scores[1..], positives[1..], side);
    }
  }

  /** The rank sum less what it would be with no negatives, over the pairs. */
  function FromRanks(total: real, p: nat, n: nat): real
    requires p > 0 && n > 0
  {
    assert p * n > 0;
    (total - (p * (p + 1)) as real / 2.0) / (p * n) as real
  }

  lemma RankSum(total: real, pos: seq<real>, neg: seq<real>)
    requires pos != [] && neg != []
    requires 2.0 * total == (Wins(pos, pos) + Wins(pos, neg) + |pos|) as real
    ensures FromRanks(total, |pos|, |neg|) == Share(pos, neg)
  {
    WinsOfOwn(pos);
    var p, n, wins := |pos|, |neg|, Wins(pos, neg);
    assert p * (p + 1) == p * p + p;
    Halves(total - (p * (p + 1)) as real / 2.0, wins as real, p * n);
  }

  lemma Halves(a: real, b: real, d: nat)
    requires d > 0 && 2.0 * a == b
    ensures a / d as real == b / (2 * d) as real
  {
    var q := a / d as real;
    assert q * d as real == a;
    assert b == q * (2 * d) as real;
  }

  // ------------------------------------------------------------ what it says

  /** It is a share; of one class against the other it is what is left of 1 by
      that of the other way round; and it is 1 exactly when every positive
      scores above every negative. */
  lemma ShareOfPairs(pos: seq<real>, neg: seq<real>)
    requires pos != [] && neg != []
    ensures 0.0 <= Share(pos, neg) <= 1.0
    ensures Share(pos, neg) + Share(neg, pos) == 1.0
    ensures Share(pos, neg) == 1.0 <==> forall p, q :: p in pos && q in neg ==> p > q
  {
    WinsOfBoth(pos, neg);
    WinsNone(neg, pos);
    Shares(Wins(pos, neg), Wins(neg, pos), |pos|, |neg|);
  }

  lemma Shares(a: nat, b: nat, p: nat, n: nat)
    requires p > 0 && n > 0 && a + b == 2 * p * n
    ensures p * n > 0 && n * p == p * n
    ensures var x, y := a as real / (2 * (p * n)) as real, b as real / (2 * (n * p)) as real;
      0.0 <= x <= 1.0 && x + y == 1.0 && (x == 1.0 <==> b == 0)
  {
    assert n * p == p * n && p * n > 0 && 2 * p * n == 2 * (p * n);
    Parts(a as real, b as real, (2 * (p * n)) as real);
  }

  lemma Parts(a: real, b: real, d: real)
    requires a >= 0.0 && b >= 0.0 && d > 0.0 && a + b == d
    ensures 0.0 <= a / d <= 1.0 && a / d + b / d == 1.0 && (a / d == 1.0 <==> b == 0.0)
  {
    var x, y := a / d, b / d;
    assert x * d == a && y * d == b;
    assert (x + y) * d == x * d + y * d;
    assert x + y == 1.0;
  }

  lemma {:induction false} WinsNone(ps: seq<real>, qs: seq<real>)
    ensures Wins(ps, qs) == 0 <==> forall p, q :: p in ps && q in qs ==> p < q
  {
    if ps == [] {
    } else {
      BeatsNone(ps[0], qs);
      WinsNone(ps[1..], qs);
      assert ps[0] in ps && forall p :: p in ps <==> p == ps[0] || p in ps[1..];
    }
  }

  lemma {:induction false} BeatsNone(p: real, qs: seq<real>)
    ensures WorthOver(p, qs) == 0 <==> forall q :: q in qs ==> p < q
  {
    if qs == [] {
    } else {
      BeatsNone(p, qs[1..]);
      assert qs[0] in qs && forall q :: q in qs <==> q == qs[0] || q in qs[1..];
    }
  }
}
