/** Splitting tools over questions, and the requests ranking them sends
    (`split` and `Reflex.rank` in bench/reflexbench/rb_methods.py). */
module Reflex {
  import opened Slots

  const MOST_QUESTIONS: nat := 64

  // ------------------------------------------------------------ splitting

  /** The fewest parts of at most `size` that hold `n` tools. */
  function Parts(n: nat, size: nat): nat
    requires size >= 1
  {
    (n + size - 1) / size
  }

  lemma PartsAre(n: nat, size: nat)
    requires n >= 1 && size >= 1
    ensures var k := Parts(n, size);
      && k >= 1 && n <= k * size && (k - 1) * size < n
      && n / k >= 1 && n / k <= size && (n % k > 0 ==> n / k < size)
  {
    var k := Parts(n, size);
    Ceiling(n, size, k, (n + size - 1) % size);
    Whole(n, k, size);
  }

  lemma Ceiling(n: nat, size: nat, k: nat, r: nat)
    requires n >= 1 && r < size && n + size - 1 == k * size + r
    ensures 1 <= k <= n <= k * size && (k - 1) * size < n
  {
    if k > 0 {
      OneLess(k, size);
    }
  }

  lemma OneLess(k: nat, size: nat)
    requires k >= 1 && size >= 1
    ensures (k - 1) * size == k * size - size >= k - 1
  {
    var j: nat := k - 1;
    assert j * size >= j by {
      assert j * size == j + j * (size - 1);
    }
  }

  lemma Whole(n: nat, k: nat, size: nat)
    requires 1 <= k <= n <= k * size
    ensures n / k >= 1 && n / k <= size && (n % k > 0 ==> n / k < size)
  {
    var q, r := n / k, n % k;
    assert n == q * k + r;
    assert q == 0 ==> q * k == 0;
    assert q >= size ==> q * k >= size * k;
    assert q >= size + 1 ==> q * k >= (size + 1) * k;
    assert (size + 1) * k == size * k + k;
  }

  function Joined(parts: seq<seq<int>>): seq<int> {
    if parts == [] then [] else Joined(parts[..|parts| - 1]) + parts[|parts| - 1]
  }

  /** How many tools `k` parts of `size` hold. */
  function Room(k: nat, size: nat): nat {
    if k == 0 then 0 else Room(k - 1, size) + size
  }

  lemma {:induction false} RoomIs(k: nat, size: nat)
    ensures Room(k, size) == k * size
  {
    if k == 0 {
    } else {
      RoomIs(k - 1, size);
      assert k * size == (k - 1) * size + size;
    }
  }

  /** The tools in order, in the fewest parts of at most `size`, as even as they
      can be, the larger ones first. */
  ghost predicate EvenSplit(tools: seq<int>, size: nat, parts: seq<seq<int>>) {
    && Joined(parts) == tools
    && parts != [] && Room(|parts| - 1, size) < |tools| <= Room(|parts|, size)
    && (forall i :: 0 <= i < |parts| ==> 1 <= |parts[i]| <= size)
    && (forall i, j :: 0 <= i <= j < |parts| ==> |parts[j]| <= |parts[i]| <= |parts[j]| + 1)
  }

  /** How far the first `i` parts reach. */
  function Reach(each: nat, extra: nat, i: nat): nat {
    i * each + if i < extra then i else extra
  }

  lemma ReachNext(each: nat, extra: nat, i: nat)
    ensures Reach(each, extra, i + 1) == Reach(each, extra, i) + each + if i < extra then 1 else 0
  {
  }

  lemma ReachAll(n: nat, k: nat, i: nat)
    requires k >= 1 && i <= k
    ensures Reach(n / k, n % k, k) == n && Reach(n / k, n % k, i) <= n
  {
    assert n == (n / k) * k + n % k;
    assert i * (n / k) <= k * (n / k);
  }

  /** What lies between where two parts that follow each other begin. */
  function Piece(tools: seq<int>, each: nat, extra: nat, i: nat): seq<int>
    requires Reach(each, extra, i) <= Reach(each, extra, i + 1) <= |tools|
  {
    tools[Reach(each, extra, i)..Reach(each, extra, i + 1)]
  }

  lemma PieceSize(tools: seq<int>, each: nat, extra: nat, i: nat)
    requires Reach(each, extra, i) <= Reach(each, extra, i + 1) <= |tools|
    ensures |Piece(tools, each, extra, i)| == each + if i < extra then 1 else 0
  {
    ReachNext(each, extra, i);
  }

  lemma InReach(n: nat, k: nat, i: nat)
    requires i < k
    ensures Reach(n / k, n % k, i) <= Reach(n / k, n % k, i + 1) <= n
  {
    ReachAll(n, k, i + 1);
    ReachNext(n / k, n % k, i);
  }

  /** The `i`th of `n` parts. */
  function PartOf(tools: seq<int>, n: nat, i: nat): seq<int>
    requires i < n
  {
    InReach(|tools|, n, i);
    Piece(tools, |tools| / n, |tools| % n, i)
  }

  lemma PartSize(tools: seq<int>, n: nat, i: nat)
    requires i < n
    ensures |PartOf(tools, n, i)| == |tools| / n + if i < |tools| % n then 1 else 0
  {
    InReach(|tools|, n, i);
    PieceSize(tools, |tools| / n, |tools| % n, i);
  }

  function SplitOf(tools: seq<int>, size: nat): seq<seq<int>>
    requires size >= 1
  {
    var n := Parts(|tools|, size);
    seq(n, i requires 0 <= i < n => PartOf(tools, n, i))
  }

  lemma SplitAt(tools: seq<int>, size: nat)
    requires size >= 1
    ensures var parts := SplitOf(tools, size);
      && |parts| == Parts(|tools|, size)
      && forall i :: 0 <= i < |parts| ==> parts[i] == PartOf(tools, |parts|, i)
  {
  }

  /** Parts in order, the first `extra` of them one larger than the others. */
  lemma EvenParts(tools: seq<int>, size: nat, parts: seq<seq<int>>, each: nat, extra: nat)
    requires tools != [] && size >= 1 && parts != [] && Joined(parts) == tools
    requires |parts| == Parts(|tools|, size) && each == |tools| / |parts| && extra == |tools| % |parts|
    requires forall i :: 0 <= i < |parts| ==> |parts[i]| == each + if i < extra then 1 else 0
    ensures EvenSplit(tools, size, parts)
  {
    PartsAre(|tools|, size);
    RoomIs(|parts|, size);
    RoomIs(|parts| - 1, size);
  }

  lemma SplitIsEven(tools: seq<int>, size: nat)
    requires tools != [] && size >= 1
    ensures EvenSplit(tools, size, SplitOf(tools, size))
  {
    var n, parts := Parts(|tools|, size), SplitOf(tools, size);
    PartsAre(|tools|, size);
    SplitAt(tools, size);
    SplitJoins(tools, size, n);
    assert parts[..n] == parts;
    ReachAll(|tools|, n, n);
    assert tools[..|tools|] == tools;
    forall i | 0 <= i < n
      ensures |parts[i]| == |tools| / n + if i < |tools| % n then 1 else 0
    {
      PartSize(tools, n, i);
    }
    EvenParts(tools, size, parts, |tools| / n, |tools| % n);
  }

  lemma {:induction false} SplitJoins(tools: seq<int>, size: nat, i: nat)
    requires size >= 1 && i <= Parts(|tools|, size) && tools != []
    ensures var n := Parts(|tools|, size);
      n >= 1 && Reach(|tools| / n, |tools| % n, i) <= |tools|
      && Joined(SplitOf(tools, size)[..i]) == tools[..Reach(|tools| / n, |tools| % n, i)]
  {
    var n := Parts(|tools|, size);
    PartsAre(|tools|, size);
    var parts, each, extra := SplitOf(tools, size), |tools| / n, |tools| % n;
    ReachAll(|tools|, n, i);
    SplitAt(tools, size);
    if i == 0 {
    } else {
      SplitJoins(tools, size, i - 1);
      ReachNext(each, extra, i - 1);
      assert parts[..i][..i - 1] == parts[..i - 1] && parts[..i][i - 1] == PartOf(tools, n, i - 1);
      assert tools[..Reach(each, extra, i)] == tools[..Reach(each, extra, i - 1)] + parts[i - 1];
    }
  }

  method Split(tools: seq<int>, size: nat) returns (parts: seq<seq<int>>)
    requires tools != [] && size >= 1
    ensures parts == SplitOf(tools, size) && EvenSplit(tools, size, parts)
  {
    var n := Parts(|tools|, size);
    PartsAre(|tools|, size);
    var each, extra := |tools| / n, |tools| % n;
    var start := 0;
    parts := [];
    for i := 0 to n
      invariant start == Reach(each, extra, i) <= |tools| && |parts| == i
      invariant forall k :: 0 <= k < i ==> parts[k] == PartOf(tools, n, k)
    {
      var end := start + each + if i < extra then 1 else 0;
      ReachNext(each, extra, i);
      ReachAll(|tools|, n, i + 1);
      parts, start := parts + [tools[start..end]], end;
    }
    assert parts == SplitOf(tools, size);
    SplitIsEven(tools, size);
  }

  // ------------------------------------------------------------ ranking

  /** What the server does with a request: it answers, finds it too long for
      the model, or fails in another way. */
  datatype Reply = Answered | TooLong | Failed

  datatype Outcome = NothingToDecide | BadName | Ranked | Refused | Raised

  /** The most tools a question takes, and the fewest that questions shrink to:
      with "none" among the options one tool makes a question. */
  function Largest(abstain: bool): nat {
    if abstain then 254 else 255
  }

  function Fewest(abstain: bool): nat {
    if abstain then 1 else 3
  }

  /** The options of a question, by name: its tools, and "none" if it is offered. */
  function Options(part: seq<int>, abstain: bool, none: int): set<int> {
    Elems(part) + if abstain then {none} else {}
  }

  /** Not all of one name. */
  predicate Varied(part: seq<int>) {
    exists j :: 0 <= j < |part| && part[j] != part[0]
  }

  /** A question of at most 255 options, and of 2 or more exactly when "none" is
      offered or its tools are not all of one name. */
  ghost predicate GoodQuestion(part: seq<int>, abstain: bool, none: int) {
    && |Options(part, abstain, none)| <= 255
    && (2 <= |Options(part, abstain, none)| <==> abstain || Varied(part))
  }

  /** A request as sent: all the tools, over at most 64 questions as few and as
      even as `chunk` allows. */
  ghost predicate GoodRequest(names: seq<int>, abstain: bool, none: int, chunk: nat, parts: seq<seq<int>>) {
    && Fewest(abstain) <= chunk <= Largest(abstain)
    && EvenSplit(names, chunk, parts) && |parts| <= MOST_QUESTIONS
    && forall i :: 0 <= i < |parts| ==> GoodQuestion(parts[i], abstain, none)
  }

  /** Half as large, or as all the tools if that is less. */
  function Smaller(n: nat, abstain: bool, chunk: nat): (c: nat)
    ensures c >= Fewest(abstain) && (chunk > Fewest(abstain) ==> c < chunk)
  {
    var half := (if chunk < n then chunk else n) / 2;
    if half > Fewest(abstain) then half else Fewest(abstain)
  }

  /** Half as many tools as a question held, rounded down, unless that is too few. */
  lemma SmallerIs(n: nat, abstain: bool, chunk: nat)
    ensures var held, c := (if chunk < n then chunk else n), Smaller(n, abstain, chunk);
      if held < 2 * Fewest(abstain) + 2 then c == Fewest(abstain) else 2 * c <= held < 2 * c + 2
  {
  }

  /** A question of the largest size has 255 options, "none" included. */
  lemma LargestIs(part: seq<int>, abstain: bool, none: int)
    requires NoDup(part) && |part| == Largest(abstain) && (abstain ==> none !in part)
    ensures |Options(part, abstain, none)| == 255
  {
    NoDupCard(part);
    if abstain {
      assert none !in Elems(part);
    }
  }

  /** The size of the questions of the `r`th request. */
  function ChunkAt(n: nat, abstain: bool, r: nat): (c: nat)
    ensures Fewest(abstain) <= c <= Largest(abstain)
  {
    if r == 0 then Largest(abstain) else Smaller(n, abstain, ChunkAt(n, abstain, r - 1))
  }

  /** 255 halved `r` times. */
  function Halved(r: nat): nat {
    if r == 0 then 255 else Halved(r - 1) / 2
  }

  lemma {:induction false} HalvedAway(r: nat)
    requires r >= 7
    ensures Halved(r) <= 1
  {
    if r == 7 {
      assert Halved(3) == 31;
      assert Halved(6) == 3;
    } else {
      HalvedAway(r - 1);
    }
  }

  /** Questions that can still shrink have done so fewer than seven times. */
  lemma {:induction false} Shrinks(n: nat, abstain: bool, r: nat)
    requires ChunkAt(n, abstain, r) > Fewest(abstain)
    ensures ChunkAt(n, abstain, r) <= Halved(r) && r <= 6
  {
    if r == 0 {
    } else {
      Shrinks(n, abstain, r - 1);
    }
    if r >= 7 {
      HalvedAway(r);
    }
  }

  lemma {:induction false} PartsOfJoined(parts: seq<seq<int>>, i: nat)
    requires i < |parts| && NoDup(Joined(parts))
    ensures NoDup(parts[i]) && Elems(parts[i]) <= Elems(Joined(parts))
    decreases |parts|
  {
    var front, last := parts[..|parts| - 1], parts[|parts| - 1];
    var all := Joined(parts);
    assert all == Joined(front) + last;
    if i == |parts| - 1 {
      assert forall k :: 0 <= k < |last| ==> last[k] == all[|Joined(front)| + k];
    } else {
      assert forall k :: 0 <= k < |Joined(front)| ==> Joined(front)[k] == all[k];
      PartsOfJoined(front, i);
    }
  }

  lemma {:induction false} InJoined(parts: seq<seq<int>>, i: nat, x: int)
    requires i < |parts| && x !in Joined(parts)
    ensures x !in parts[i]
    decreases |parts|
  {
    if i < |parts| - 1 {
      InJoined(parts[..|parts| - 1], i, x);
    }
  }

  /** Without "none" no part is left with one tool. */
  lemma AtLeastTwo(names: seq<int>, chunk: nat, parts: seq<seq<int>>, i: nat)
    requires |names| >= 2 && chunk >= 3 && EvenSplit(names, chunk, parts) && i < |parts|
    ensures |parts[i]| >= 2
  {
    var k := |parts|;
    JoinedOne(parts);
    RoomIs(k - 1, chunk);
    if k >= 2 {
      Times(k - 1, 3, chunk);
    }
    if |parts[i]| == 1 {
      OneShort(parts, i);
    }
  }

  lemma Times(a: nat, b: nat, c: nat)
    requires b <= c
    ensures a * b <= a * c
  {
    assert a * c == a * b + a * (c - b);
  }

  lemma JoinedOne(parts: seq<seq<int>>)
    ensures |parts| == 1 ==> Joined(parts) == parts[0]
  {
    if |parts| == 1 {
      assert parts[..0] == [] && Joined(parts) == Joined(parts[..0]) + parts[0];
    }
  }

  lemma {:induction false} JoinedBound(parts: seq<seq<int>>, most: nat)
    ensures (forall i :: 0 <= i < |parts| ==> |parts[i]| <= most) ==> |Joined(parts)| <= most * |parts|
    decreases |parts|
  {
    if parts == [] {
    } else {
      JoinedBound(parts[..|parts| - 1], most);
    }
  }

  /** One part of one, the others of two at most. */
  lemma {:induction false} OneShort(parts: seq<seq<int>>, i: nat)
    requires i < |parts| && |parts[i]| == 1 && forall k :: 0 <= k < |parts| ==> |parts[k]| <= 2
    ensures |Joined(parts)| <= 2 * |parts| - 1
    decreases |parts|
  {
    var front := parts[..|parts| - 1];
    if i == |parts| - 1 {
      JoinedBound(front, 2);
    } else {
      OneShort(front, i);
    }
  }

  lemma {:induction false} FewElems(s: seq<int>)
    ensures |Elems(s)| <= |s| && (s != [] ==> |Elems(s)| >= 1)
  {
    if s == [] {
    } else {
      FewElems(s[1..]);
      assert s == [s[0]] + s[1..];
      assert Elems(s) == {s[0]} + Elems(s[1..]);
    }
  }

  /** Tools make two options exactly when they are not all of one name. */
  lemma TwoNames(part: seq<int>)
    requires part != []
    ensures |Elems(part)| >= 2 <==> Varied(part)
  {
    if Varied(part) {
      var j :| 0 <= j < |part| && part[j] != part[0];
      SubsetCard({part[0], part[j]}, Elems(part));
    } else {
      assert Elems(part) == {part[0]};
    }
  }

  lemma QuestionIsGood(names: seq<int>, abstain: bool, none: int, chunk: nat, parts: seq<seq<int>>, i: nat)
    requires abstain ==> none !in names
    requires Fewest(abstain) <= chunk <= Largest(abstain) && EvenSplit(names, chunk, parts) && i < |parts|
    ensures GoodQuestion(parts[i], abstain, none)
  {
    FewElems(parts[i]);
    if abstain {
      InJoined(parts, i, none);
    } else {
      TwoNames(parts[i]);
    }
  }

  lemma RequestIsGood(names: seq<int>, abstain: bool, none: int, chunk: nat, parts: seq<seq<int>>)
    requires names != [] && (abstain ==> none !in names)
    requires Fewest(abstain) <= chunk <= Largest(abstain)
    requires EvenSplit(names, chunk, parts) && |parts| <= MOST_QUESTIONS
    ensures GoodRequest(names, abstain, none, chunk, parts)
  {
    forall i | 0 <= i < |parts| ensures GoodQuestion(parts[i], abstain, none) {
      QuestionIsGood(names, abstain, none, chunk, parts, i);
    }
  }

  // ------------------------------------------------------------ the requests

  /** The questions of the `r`th request. */
  function Request(names: seq<int>, abstain: bool, r: nat): seq<seq<int>> {
    SplitOf(names, ChunkAt(|names|, abstain, r))
  }

  predicate CanShrink(n: nat, abstain: bool, r: nat) {
    ChunkAt(n, abstain, r) > Fewest(abstain)
  }

  predicate FewEnough(n: nat, abstain: bool, r: nat) {
    Parts(n, ChunkAt(n, abstain, r)) <= MOST_QUESTIONS
  }

  /** The requests from the `r`th on: until one is not too long, or its questions
      are as small as they get, or are too many to be sent. */
  function Requests(names: seq<int>, abstain: bool, replies: nat -> Reply, r: nat): seq<seq<seq<int>>>
    decreases ChunkAt(|names|, abstain, r)
  {
    if !FewEnough(|names|, abstain, r) then []
    else if replies(r) != TooLong || !CanShrink(|names|, abstain, r) then [Request(names, abstain, r)]
    else [Request(names, abstain, r)] + Requests(names, abstain, replies, r + 1)
  }

  /** The requests of a ranking. */
  function Ranking(names: seq<int>, abstain: bool, none: int, replies: nat -> Reply): seq<seq<seq<int>>> {
    if (abstain && none in names) || (!abstain && |names| == 1) then [] else Requests(names, abstain, replies, 0)
  }

  /** The `r`th request can come to be sent: those before it were, and could still
      shrink. */
  predicate CanSend(n: nat, abstain: bool, r: nat) {
    CanReach(n, abstain, r) && FewEnough(n, abstain, r)
  }

  predicate CanReach(n: nat, abstain: bool, r: nat)
    decreases r
  {
    r == 0 || (CanReach(n, abstain, r - 1) && FewEnough(n, abstain, r - 1) && CanShrink(n, abstain, r - 1))
  }

  /** A request that is the `r`th of those sent. */
  ghost predicate RequestIs(names: seq<int>, abstain: bool, r: nat, parts: seq<seq<int>>) {
    CanSend(|names|, abstain, r) && parts == Request(names, abstain, r)
  }

  /** The first of the requests, and what there is after it. */
  lemma FirstRequest(names: seq<int>, abstain: bool, replies: nat -> Reply, r: nat)
    requires Requests(names, abstain, replies, r) != []
    ensures FewEnough(|names|, abstain, r) && Requests(names, abstain, replies, r)[0] == Request(names, abstain, r)
    ensures |Requests(names, abstain, replies, r)| > 1 ==>
      && replies(r) == TooLong && CanShrink(|names|, abstain, r)
      && Requests(names, abstain, replies, r)[1..] == Requests(names, abstain, replies, r + 1)
  {
  }

  /** `rs` are the requests sent from the `r`th on. */
  ghost predicate AreSent(names: seq<int>, abstain: bool, replies: nat -> Reply, r: nat, rs: seq<seq<seq<int>>>) {
    forall i {:trigger rs[i]} :: 0 <= i < |rs| ==>
      RequestIs(names, abstain, r + i, rs[i]) && (i + 1 < |rs| ==> replies(r + i) == TooLong)
  }

  lemma {:induction false} RequestsAre(names: seq<int>, abstain: bool, replies: nat -> Reply, r: nat)
    requires CanReach(|names|, abstain, r)
    ensures AreSent(names, abstain, replies, r, Requests(names, abstain, replies, r))
    decreases ChunkAt(|names|, abstain, r)
  {
    var rs := Requests(names, abstain, replies, r);
    if rs == [] {
    } else {
      FirstRequest(names, abstain, replies, r);
      if |rs| > 1 {
        RequestsAre(names, abstain, replies, r + 1);
        MoreAreSent(names, abstain, replies, r, rs);
      }
    }
  }

  lemma MoreAreSent(names: seq<int>, abstain: bool, replies: nat -> Reply, r: nat, rs: seq<seq<seq<int>>>)
    requires rs != [] && RequestIs(names, abstain, r, rs[0]) && (|rs| > 1 ==> replies(r) == TooLong)
    requires AreSent(names, abstain, replies, r + 1, rs[1..])
    ensures AreSent(names, abstain, replies, r, rs)
  {
    forall i | 0 <= i < |rs|
      ensures RequestIs(names, abstain, r + i, rs[i]) && (i + 1 < |rs| ==> replies(r + i) == TooLong)
    {
      if i > 0 {
        assert rs[1..][i - 1] == rs[i] && r + 1 + (i - 1) == r + i;
      }
    }
  }

  lemma RequestAt(names: seq<int>, abstain: bool, replies: nat -> Reply, i: nat)
    requires i < |Requests(names, abstain, replies, 0)|
    ensures RequestIs(names, abstain, i, Requests(names, abstain, replies, 0)[i])
    ensures i + 1 < |Requests(names, abstain, replies, 0)| ==> replies(i) == TooLong
  {
    RequestsAre(names, abstain, replies, 0);
  }

  /** When every request that can be sent is too long, all of them are sent. */
  lemma {:induction false} AllAreSent(names: seq<int>, abstain: bool, replies: nat -> Reply, r: nat, i: nat)
    requires forall k: nat :: replies(k) == TooLong
    requires CanSend(|names|, abstain, r + i)
    ensures i < |Requests(names, abstain, replies, r)|
    decreases i
  {
    if i == 0 {
    } else {
      EarlierCanSend(|names|, abstain, r, r + i);
      AllAreSent(names, abstain, replies, r + 1, i - 1);
    }
  }

  lemma {:induction false} EarlierCanSend(n: nat, abstain: bool, r: nat, later: nat)
    requires r < later && CanReach(n, abstain, later)
    ensures CanSend(n, abstain, r) && CanShrink(n, abstain, r)
    decreases later
  {
    if r == later - 1 {
    } else {
      EarlierCanSend(n, abstain, r, later - 1);
    }
  }

  /** At most eight. */
  lemma FewCanSend(n: nat, abstain: bool, r: nat)
    requires CanSend(n, abstain, r)
    ensures r <= 7
  {
    if r > 0 {
      Shrinks(n, abstain, r - 1);
    }
  }

  // ------------------------------------------------------------ two options

  ghost predicate AllVaried(parts: seq<seq<int>>) {
    forall i :: 0 <= i < |parts| ==> Varied(parts[i])
  }

  /** In no request that can be sent are a question's tools all of one name. */
  ghost predicate NamesVary(names: seq<int>) {
    forall r :: 0 <= r <= 7 && CanSend(|names|, false, r) ==> AllVaried(Request(names, false, r))
  }

  /** Every question has 2 to 255 options. */
  ghost predicate Askable(abstain: bool, none: int, parts: seq<seq<int>>) {
    forall i :: 0 <= i < |parts| ==> 2 <= |Options(parts[i], abstain, none)| <= 255
  }

  ghost predicate AllAskable(abstain: bool, none: int, sent: seq<seq<seq<int>>>) {
    forall r :: 0 <= r < |sent| ==> Askable(abstain, none, sent[r])
  }

  ghost predicate AlwaysAskable(names: seq<int>, abstain: bool, none: int) {
    forall replies: nat -> Reply :: AllAskable(abstain, none, Ranking(names, abstain, none, replies))
  }

  lemma AskableExactly(names: seq<int>, abstain: bool, none: int, r: nat, parts: seq<seq<int>>)
    requires names != [] && (abstain ==> none !in names) && RequestIs(names, abstain, r, parts)
    ensures Askable(abstain, none, parts) <==> abstain || AllVaried(parts)
  {
    EvenRequest(names, abstain, none, r, parts);
    assert forall i :: 0 <= i < |parts| ==> GoodQuestion(parts[i], abstain, none);
  }

  /** Whatever the replies, every question sent has 2 to 255 options exactly when
      "none" is offered, or there is nothing to decide, or the names vary within
      every question that can be sent. */
  lemma TwoOptionsExactly(names: seq<int>, abstain: bool, none: int)
    requires names != []
    ensures AlwaysAskable(names, abstain, none) <==> abstain || |names| == 1 || NamesVary(names)
  {
    if abstain || |names| == 1 || NamesVary(names) {
      forall replies: nat -> Reply ensures AllAskable(abstain, none, Ranking(names, abstain, none, replies)) {
        if Ranking(names, abstain, none, replies) != [] {
          VariedAskable(names, abstain, none, replies);
        }
      }
    } else {
      UnvariedSent(names, none, _ => TooLong);
    }
  }

  /** A server that finds all requests too long is sent a question of one name. */
  lemma UnvariedSent(names: seq<int>, none: int, replies: nat -> Reply)
    requires |names| >= 2 && !NamesVary(names) && forall k: nat :: replies(k) == TooLong
    ensures !AllAskable(false, none, Ranking(names, false, none, replies))
  {
    var r :| 0 <= r <= 7 && CanSend(|names|, false, r) && !AllVaried(Request(names, false, r));
    AllAreSent(names, false, replies, 0, r);
    NotAskableAt(names, none, replies, r, Requests(names, false, replies, 0));
  }

  lemma NotAskableAt(names: seq<int>, none: int, replies: nat -> Reply, r: nat, sent: seq<seq<seq<int>>>)
    requires names != [] && sent == Requests(names, false, replies, 0) && r < |sent|
    requires !AllVaried(Request(names, false, r))
    ensures !AllAskable(false, none, sent)
  {
    RequestAt(names, false, replies, r);
    AskableExactly(names, false, none, r, sent[r]);
    assert !Askable(false, none, sent[r]);
  }

  lemma VariedAskable(names: seq<int>, abstain: bool, none: int, replies: nat -> Reply)
    requires names != [] && (abstain ==> none !in names) && (abstain || NamesVary(names))
    ensures AllAskable(abstain, none, Requests(names, abstain, replies, 0))
  {
    var sent := Requests(names, abstain, replies, 0);
    forall r | 0 <= r < |sent| ensures Askable(abstain, none, sent[r]) {
      RequestAt(names, abstain, replies, r);
      FewCanSend(|names|, abstain, r);
      AskableExactly(names, abstain, none, r, sent[r]);
    }
  }

  /** Two or more tools of different names do. */
  lemma DistinctNamesVary(names: seq<int>)
    requires |names| >= 2 && NoDup(names)
    ensures NamesVary(names)
  {
    forall r | 0 <= r <= 7 && CanSend(|names|, false, r)
      ensures AllVaried(Request(names, false, r))
    {
      var chunk := ChunkAt(|names|, false, r);
      var parts := SplitOf(names, chunk);
      SplitIsEven(names, chunk);
      forall i | 0 <= i < |parts| ensures Varied(parts[i]) {
        PartsOfJoined(parts, i);
        AtLeastTwo(names, chunk, parts, i);
        assert parts[i][1] != parts[i][0];
      }
    }
  }

  /** Three tools of one name: whatever the replies, the first request of their
      ranking is a question of one option. */
  lemma OneNameOneOption(name: int, none: int, replies: nat -> Reply)
    ensures var names, sent := [name, name, name], Ranking([name, name, name], false, none, replies);
      sent != [] && sent[0] == [names] && Options(names, false, none) == {name}
  {
    var names := [name, name, name];
    assert Parts(3, 255) == 1 && Reach(3, 0, 0) == 0 && Reach(3, 0, 1) == 3;
    assert PartOf(names, 1, 0) == names;
    assert SplitOf(names, 255) == [names];
    assert ChunkAt(3, false, 0) == 255;
  }

  /** Names that vary need not differ. */
  lemma NotOnlyDistinct()
    ensures NamesVary([1, 2, 1]) && !NoDup([1, 2, 1])
  {
    var names := [1, 2, 1];
    assert names[0] == names[2];
    forall r | 0 <= r <= 7 && CanSend(3, false, r) ensures AllVaried(Request(names, false, r)) {
      var chunk := ChunkAt(3, false, r);
      assert Parts(3, chunk) == 1 by {
        Ceiling(3, chunk, (3 + chunk - 1) / chunk, (3 + chunk - 1) % chunk);
        OnlyOnePart(3, chunk);
      }
      assert Reach(3, 0, 0) == 0 && Reach(3, 0, 1) == 3;
      assert PartOf(names, 1, 0) == names;
      assert names[1] != names[0];
    }
  }

  lemma OnlyOnePart(n: nat, size: nat)
    requires 1 <= n <= size
    ensures Parts(n, size) == 1
  {
    PartsAre(n, size);
    var k := Parts(n, size);
    if k >= 2 {
      Times(size, 1, k - 1);
    }
  }

  // ------------------------------------------------------------ asking

  /** Every request is good, the `r`th with questions of the `r`th size. */
  ghost predicate AllGood(names: seq<int>, abstain: bool, none: int, sent: seq<seq<seq<int>>>) {
    forall r :: 0 <= r < |sent| ==> GoodRequest(names, abstain, none, ChunkAt(|names|, abstain, r), sent[r])
  }

  ghost predicate AllTooLong(replies: nat -> Reply, n: nat) {
    forall r: nat :: r < n ==> replies(r) == TooLong
  }

  /** The `r`th of the requests is good, and too long unless it is the last. */
  ghost predicate SentIs(names: seq<int>, abstain: bool, none: int, replies: nat -> Reply, sent: seq<seq<seq<int>>>,
                         r: nat) {
    && r < |sent| && r <= 7 && GoodRequest(names, abstain, none, ChunkAt(|names|, abstain, r), sent[r])
    && (r + 1 < |sent| ==> replies(r) == TooLong)
  }

  lemma EvenRequest(names: seq<int>, abstain: bool, none: int, r: nat, parts: seq<seq<int>>)
    requires names != [] && (abstain ==> none !in names) && RequestIs(names, abstain, r, parts)
    ensures GoodRequest(names, abstain, none, ChunkAt(|names|, abstain, r), parts)
  {
    SplitIsEven(names, ChunkAt(|names|, abstain, r));
    SplitAt(names, ChunkAt(|names|, abstain, r));
    RequestIsGood(names, abstain, none, ChunkAt(|names|, abstain, r), parts);
  }

  lemma SentAt(names: seq<int>, abstain: bool, none: int, replies: nat -> Reply, sent: seq<seq<seq<int>>>, r: nat)
    requires names != [] && (abstain ==> none !in names)
    requires sent == Requests(names, abstain, replies, 0) && r < |sent|
    ensures SentIs(names, abstain, none, replies, sent, r)
  {
    RequestAt(names, abstain, replies, r);
    FewCanSend(|names|, abstain, r);
    EvenRequest(names, abstain, none, r, sent[r]);
  }

  lemma AllSent(names: seq<int>, abstain: bool, none: int, replies: nat -> Reply, sent: seq<seq<seq<int>>>)
    requires forall r :: 0 <= r < |sent| ==> SentIs(names, abstain, none, replies, sent, r)
    ensures Sent(names, abstain, none, replies, sent)
  {
    forall r | 0 <= r < |sent|
      ensures GoodRequest(names, abstain, none, ChunkAt(|names|, abstain, r), sent[r])
      ensures r <= 7 && (r + 1 < |sent| ==> replies(r) == TooLong)
    {
      assert SentIs(names, abstain, none, replies, sent, r);
    }
    if sent != [] {
      assert SentIs(names, abstain, none, replies, sent, |sent| - 1);
    }
  }

  lemma RequestsAreSent(names: seq<int>, abstain: bool, none: int, replies: nat -> Reply)
    requires names != [] && (abstain ==> none !in names)
    ensures Sent(names, abstain, none, replies, Requests(names, abstain, replies, 0))
  {
    var sent := Requests(names, abstain, replies, 0);
    forall r | 0 <= r < |sent| ensures SentIs(names, abstain, none, replies, sent, r) {
      SentAt(names, abstain, none, replies, sent, r);
    }
    AllSent(names, abstain, none, replies, sent);
  }

  lemma TooLongOn(replies: nat -> Reply, n: nat)
    requires AllTooLong(replies, n) && replies(n) == TooLong
    ensures AllTooLong(replies, n + 1)
  {
  }

  /** `sent` are good requests, all of which but perhaps the last were too long. */
  ghost predicate Sent(names: seq<int>, abstain: bool, none: int, replies: nat -> Reply, sent: seq<seq<seq<int>>>) {
    AllGood(names, abstain, none, sent) && |sent| <= 8 && (sent != [] ==> AllTooLong(replies, |sent| - 1))
  }

  /** The questions get smaller after a request that was too long, at most
      seven times. */
  lemma NextSize(names: seq<int>, abstain: bool, replies: nat -> Reply, tries: nat, chunk: nat)
    requires Trying(names, abstain, replies, tries, chunk) && replies(tries) == TooLong && chunk > Fewest(abstain)
    ensures Trying(names, abstain, replies, tries + 1, Smaller(|names|, abstain, chunk))
  {
    Shrinks(|names|, abstain, tries);
    TooLongOn(replies, tries);
  }

  /** Before the attempt `tries`: all before it were too long. */
  ghost predicate Trying(names: seq<int>, abstain: bool, replies: nat -> Reply, tries: nat, chunk: nat) {
    tries <= 7 && chunk == ChunkAt(|names|, abstain, tries) && AllTooLong(replies, tries)
  }

  /** What is sent from the attempt `tries` on, after `sent`. */
  ghost predicate Remain(names: seq<int>, abstain: bool, replies: nat -> Reply, tries: nat, sent: seq<seq<seq<int>>>) {
    sent + Requests(names, abstain, replies, tries) == Requests(names, abstain, replies, 0)
  }

  lemma NextRequests(names: seq<int>, abstain: bool, replies: nat -> Reply, tries: nat, sent: seq<seq<seq<int>>>,
                     chunk: nat, parts: seq<seq<int>>)
    requires chunk == ChunkAt(|names|, abstain, tries) && parts == SplitOf(names, chunk)
    requires Remain(names, abstain, replies, tries, sent)
    ensures |parts| > MOST_QUESTIONS ==> Requests(names, abstain, replies, 0) == sent
    ensures |parts| <= MOST_QUESTIONS && (replies(tries) != TooLong || chunk <= Fewest(abstain)) ==>
      Requests(names, abstain, replies, 0) == sent + [parts]
    ensures |parts| <= MOST_QUESTIONS && replies(tries) == TooLong && chunk > Fewest(abstain) ==>
      Remain(names, abstain, replies, tries + 1, sent + [parts])
  {
    SplitAt(names, chunk);
    var left := Requests(names, abstain, replies, tries);
    if |parts| <= MOST_QUESTIONS {
      assert parts == Request(names, abstain, tries) && left[0] == parts;
      assert sent + left == sent + [parts] + left[1..];
    } else {
      assert left == [];
    }
  }

  lemma ManyQuestions(names: seq<int>, abstain: bool, chunk: nat, parts: seq<seq<int>>)
    requires names != [] && chunk >= Fewest(abstain) && parts == SplitOf(names, chunk) && |parts| > MOST_QUESTIONS
    ensures |names| > MOST_QUESTIONS * chunk
  {
    SplitIsEven(names, chunk);
    ManyParts(names, chunk, chunk, parts);
  }

  /** Sends requests, with questions half as large each time the server finds
      one too long, until they are as small as they get or, not sent, too many. */
  method Ask(names: seq<int>, abstain: bool, none: int, replies: nat -> Reply)
    returns (fits: bool, sent: seq<seq<seq<int>>>, chunk: nat)
    requires names != [] && (abstain ==> none !in names) && (!abstain ==> |names| >= 2)
    ensures sent == Requests(names, abstain, replies, 0)
    ensures fits ==> sent != [] && chunk == ChunkAt(|names|, abstain, |sent| - 1)
    ensures fits && replies(|sent| - 1) == TooLong ==> chunk == Fewest(abstain)
    ensures !fits ==> AllTooLong(replies, |sent|) && |names| > MOST_QUESTIONS * ChunkAt(|names|, abstain, |sent|)
  {
    sent, chunk := [], Largest(abstain);
    var tries := 0;
    while true
      invariant tries == |sent| && Trying(names, abstain, replies, tries, chunk)
      invariant Remain(names, abstain, replies, tries, sent)
      decreases chunk
    {
      var parts := Split(names, chunk);
      NextRequests(names, abstain, replies, tries, sent, chunk, parts);
      if |parts| > MOST_QUESTIONS {
        ManyQuestions(names, abstain, chunk, parts);
        return false, sent, chunk;
      }
      sent := sent + [parts];
      if replies(tries) != TooLong || chunk <= Fewest(abstain) {
        return true, sent, chunk;
      }
      NextSize(names, abstain, replies, tries, chunk);
      chunk, tries := Smaller(|names|, abstain, chunk), tries + 1;
    }
  }

  /** For any replies at all (`replies` says what the server does with each
      attempt) ranking ends, after at most eight requests, all of them good;
      with few enough tools it is refused only once the smallest questions were
      too long. */
  method Rank(names: seq<int>, abstain: bool, none: int, replies: nat -> Reply)
    returns (outcome: Outcome, sent: seq<seq<seq<int>>>, chunk: nat)
    requires names != []
    ensures outcome == BadName <==> abstain && none in names
    ensures outcome == NothingToDecide <==> !abstain && |names| == 1
    ensures sent == Ranking(names, abstain, none, replies)
    ensures Sent(names, abstain, none, replies, sent)
    ensures outcome == Ranked <==> sent != [] && replies(|sent| - 1) == Answered
    ensures outcome == Raised <==> sent != [] && replies(|sent| - 1) == Failed
    ensures outcome == Ranked || outcome == Raised ==> chunk == ChunkAt(|names|, abstain, |sent| - 1)
    ensures outcome == Refused ==>
      || (sent != [] && replies(|sent| - 1) == TooLong && ChunkAt(|names|, abstain, |sent| - 1) == Fewest(abstain))
      || MOST_QUESTIONS * ChunkAt(|names|, abstain, |sent|) < |names|
    ensures outcome == Refused && |names| <= MOST_QUESTIONS * Fewest(abstain) ==>
      sent != [] && replies(|sent| - 1) == TooLong && ChunkAt(|names|, abstain, |sent| - 1) == Fewest(abstain)
  {
    sent, chunk := [], Largest(abstain);
    if abstain && none in names {
      return BadName, sent, chunk;
    }
    if |names| == 1 && !abstain {
      return NothingToDecide, sent, chunk;
    }
    var fits;
    fits, sent, chunk := Ask(names, abstain, none, replies);
    RequestsAreSent(names, abstain, none, replies);
    outcome :=
      if !fits then Refused
      else match replies(|sent| - 1)
        case Answered => Ranked
        case Failed => Raised
        case TooLong => Refused;
  }

  /** Over 64 parts are needed only for more tools than 64 of the smallest hold. */
  lemma ManyParts(names: seq<int>, fewest: nat, chunk: nat, parts: seq<seq<int>>)
    requires EvenSplit(names, chunk, parts) && chunk >= fewest && |parts| > MOST_QUESTIONS
    ensures |names| > MOST_QUESTIONS * fewest
  {
    ManyRoom(|parts| - 1, chunk, fewest);
  }

  lemma {:induction false} ManyRoom(k: nat, chunk: nat, fewest: nat)
    requires k >= MOST_QUESTIONS && chunk >= fewest
    ensures Room(k, chunk) >= MOST_QUESTIONS * fewest
  {
    if k == MOST_QUESTIONS {
      RoomIs(k, chunk);
    } else {
      ManyRoom(k - 1, chunk, fewest);
    }
  }
}
