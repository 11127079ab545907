/** What planning the next point on a node is to come to: the first point that may
    start, on its first free block, for as long as it may (`plan_next` and
    `duration_for` in bench/campaign/campaign.py). */
module Planning {
  import opened Options
  import opened Devices
  import opened Scheduler

  // ------------------------------------------------------------ what is meant

  /** A workload that says how long it may or must run. */
  predicate Stretches(p: Point) {
    p.workload && !(p.minDurationS == 0.0 && p.maxDurationS == 0.0)
  }

  /** It may run for `x` seconds: its least, and a minute, at least, and no more
      than its most, if it has one. */
  predicate Suits(p: Point, x: real) {
    x >= p.minDurationS && x >= 60.0 && (p.maxDurationS != 0.0 ==> x <= p.maxDurationS)
  }

  /** When `x` seconds of work that begin at `now`, its servers loaded first, end. */
  function EndAfter(now: real, x: real): real {
    now + LOAD_ALLOWANCE_S + x
  }

  predicate Whole(x: real) {
    x.Floor as real == x
  }

  /** Some aligned block of its width has no device given up on. */
  ghost predicate CanEver(n: Node, p: Point)
    requires n.Fits(p)
  {
    HasBlock(Devs(n.devices) - n.lost, n.devices, n.Width(p))
  }

  ghost predicate HasRoom(n: Node, p: Point)
    requires n.Fits(p)
  {
    HasBlock(n.free, n.devices, n.Width(p))
  }

  /** Started at `now`, it can end by `till`. */
  ghost predicate CanEndBy(p: Point, now: real, till: real) {
    if Stretches(p) then exists x :: Suits(p, x) && EndAfter(now, x) <= till
    else now + p.estS <= till
  }

  /** It waits for devices, and for nothing else. */
  ghost predicate Waits(n: Node, now: real, p: Point)
    requires n.Fits(p)
  {
    CanEver(n, p) && !HasRoom(n, p) && CanEndBy(p, now, n.deadline - n.marginS)
  }

  /** The node is kept for `todo[j]`. */
  ghost predicate WaitsFirst(n: Node, now: real, todo: seq<Point>, j: nat)
    requires TodoOk(n, todo)
  {
    j < |todo| && Waits(n, now, todo[j]) && forall i :: 0 <= i < j ==> !Waits(n, now, todo[i])
  }

  /** An end at `e` is before the deadline less the margin and, past the point the
      node is kept for, before that point's devices are free. */
  ghost predicate InTime(n: Node, now: real, todo: seq<Point>, i: nat, e: real)
    requires TodoOk(n, todo) && i <= |todo|
  {
    && e <= n.deadline - n.marginS
    && forall j: nat :: j < i && WaitsFirst(n, now, todo, j) ==> e <= WhenFree(n, n.Width(todo[j]), now)
  }

  ghost predicate CanFinish(n: Node, now: real, todo: seq<Point>, i: nat)
    requires TodoOk(n, todo) && i < |todo|
  {
    var p := todo[i];
    if Stretches(p) then exists x :: Suits(p, x) && InTime(n, now, todo, i, EndAfter(now, x))
    else InTime(n, now, todo, i, now + p.estS)
  }

  /** The node ever fits it, has room for it now, and it can end in time. */
  ghost predicate MayStart(n: Node, now: real, todo: seq<Point>, i: nat)
    requires TodoOk(n, todo) && i < |todo|
  {
    CanEver(n, todo[i]) && HasRoom(n, todo[i]) && CanFinish(n, now, todo, i)
  }

  /** As long as it may run, in whole seconds; 0 for a point of fixed length. */
  ghost predicate Longest(n: Node, now: real, todo: seq<Point>, i: nat, d: real)
    requires TodoOk(n, todo) && i < |todo|
  {
    var p := todo[i];
    && InTime(n, now, todo, i, ExpectedEnd(p, d, now))
    && if Stretches(p) then
         && d >= 60.0 && Whole(d) && ExpectedEnd(p, d, now) == EndAfter(now, d)
         && (p.maxDurationS != 0.0 ==> d <= p.maxDurationS)
         && forall x :: x > d && Whole(x) && Suits(p, x) ==>
              !InTime(n, now, todo, i, EndAfter(now, x))
       else d == 0.0 && ExpectedEnd(p, d, now) == now + p.estS
  }

  /** The devices of a start: of the first free block of as many as the point
      keeps to itself, the first that it uses. */
  ghost predicate OnFirstBlock(n: Node, c: Choice) {
    var w := if c.p.exclusive then |n.devices| else c.p.gcds;
    && w >= 1 && |c.block| == w
    && (exists k: nat :: FirstFree(n.free, n.devices, w, k) && c.block == Blocks(n.devices, w)[k])
    && |c.used| == (if c.p.gcds <= w then c.p.gcds else w) && c.used == c.block[..|c.used|]
  }

  /** The first point that may start, if one may, as it should be started. */
  ghost predicate IsPlan(n: Node, now: real, todo: seq<Point>, plan: Plan)
    requires TodoOk(n, todo)
  {
    match plan
    case Nothing => forall i :: 0 <= i < |todo| ==> !MayStart(n, now, todo, i)
    case Start(c, at, ahead) =>
      && at < |todo| && c.p == todo[at] && MayStart(n, now, todo, at)
      && (forall i :: 0 <= i < at ==> !MayStart(n, now, todo, i))
      && OnFirstBlock(n, c) && Longest(n, now, todo, at, c.duration)
      && (ahead.Some? ==> ahead.value < at && WaitsFirst(n, now, todo, ahead.value))
      && (ahead.None? ==> forall j :: 0 <= j < at ==> !WaitsFirst(n, now, todo, j))
  }

  // ------------------------------------------------------------ durations

  lemma DurationExactly(p: Point, limit: real, now: real)
    ensures DurationFor(p, limit).Some? <==> CanEndBy(p, now, now + limit)
  {
    if Stretches(p) {
      var avail := limit - LOAD_ALLOWANCE_S;
      var d := if p.maxDurationS != 0.0 then Min(p.maxDurationS, avail) else avail;
      assert Suits(p, d) && EndAfter(now, d) <= now + limit <==> d >= Max(p.minDurationS, 60.0);
    }
  }

  /** The duration is the longest that ends within the limit. */
  lemma DurationIsLongest(p: Point, limit: real, now: real)
    requires DurationFor(p, limit).Some?
    ensures var d := DurationFor(p, limit).value;
      && ExpectedEnd(p, d, now) <= now + limit
      && if Stretches(p) then
           && d >= 60.0 && Whole(d) && ExpectedEnd(p, d, now) == EndAfter(now, d)
           && (p.maxDurationS != 0.0 ==> d <= p.maxDurationS)
           && forall x :: x > d && Whole(x) && Suits(p, x) ==> EndAfter(now, x) > now + limit
         else d == 0.0 && ExpectedEnd(p, d, now) == now + p.estS
  {
  }

  // ------------------------------------------------------------ one look

  lemma WaitsExactly(n: Node, now: real, p: Point)
    requires n.Fits(p)
    ensures Blocked(n, now, p) <==> Waits(n, now, p)
  {
    GroupIsBlock(Devs(n.devices) - n.lost, n.devices, n.Width(p));
    GroupIsBlock(n.free, n.devices, n.Width(p));
    DurationExactly(p, TimeLeft(n, now), now);
  }

  /** The first blocked point is the one the node is kept for. */
  lemma KeptExactly(n: Node, now: real, todo: seq<Point>, i: nat, ahead: Option<nat>)
    requires TodoOk(n, todo) && i <= |todo| && FirstBlocked(n, now, todo, i, ahead)
    ensures ahead.Some? ==> ahead.value < i && WaitsFirst(n, now, todo, ahead.value)
    ensures forall j: nat :: j < i && WaitsFirst(n, now, todo, j) ==> ahead == Some(j)
  {
    forall j | 0 <= j < i ensures Blocked(n, now, todo[j]) <==> Waits(n, now, todo[j]) {
      WaitsExactly(n, now, todo[j]);
    }
  }

  lemma InTimeExactly(n: Node, now: real, todo: seq<Point>, i: nat, ahead: Option<nat>, e: real)
    requires TodoOk(n, todo) && i <= |todo| && FirstBlocked(n, now, todo, i, ahead)
    ensures InTime(n, now, todo, i, e) <==> e <= now + Limit(n, now, todo, ahead)
  {
    KeptExactly(n, now, todo, i, ahead);
  }

  lemma FinishExactly(n: Node, now: real, todo: seq<Point>, i: nat, ahead: Option<nat>)
    requires TodoOk(n, todo) && i < |todo| && FirstBlocked(n, now, todo, i, ahead)
    ensures CanFinish(n, now, todo, i) <==> CanEndBy(todo[i], now, now + Limit(n, now, todo, ahead))
  {
    var p, limit := todo[i], Limit(n, now, todo, ahead);
    if Stretches(p) {
      forall x | Suits(p, x) ensures InTime(n, now, todo, i, EndAfter(now, x)) <==> EndAfter(now, x) <= now + limit {
        InTimeExactly(n, now, todo, i, ahead, EndAfter(now, x));
      }
    } else {
      InTimeExactly(n, now, todo, i, ahead, now + p.estS);
    }
  }

  /** A look starts a point exactly when it may start. */
  lemma LookExactly(n: Node, now: real, todo: seq<Point>, i: nat, ahead: Option<nat>)
    requires TodoOk(n, todo) && i < |todo| && FirstBlocked(n, now, todo, i, ahead)
    ensures LookAt(n, todo[i], Limit(n, now, todo, ahead)).Go? <==> MayStart(n, now, todo, i)
  {
    var p, limit := todo[i], Limit(n, now, todo, ahead);
    FinishExactly(n, now, todo, i, ahead);
    DurationExactly(p, limit, now);
    GroupIsBlock(Devs(n.devices) - n.lost, n.devices, n.Width(p));
    GroupIsBlock(n.free, n.devices, n.Width(p));
  }

  lemma LongestInTime(n: Node, now: real, todo: seq<Point>, i: nat, ahead: Option<nat>)
    requires TodoOk(n, todo) && i < |todo| && FirstBlocked(n, now, todo, i, ahead)
    requires DurationFor(todo[i], Limit(n, now, todo, ahead)).Some?
    ensures Longest(n, now, todo, i, DurationFor(todo[i], Limit(n, now, todo, ahead)).value)
  {
    var p, limit := todo[i], Limit(n, now, todo, ahead);
    var d := DurationFor(p, limit).value;
    DurationIsLongest(p, limit, now);
    InTimeExactly(n, now, todo, i, ahead, ExpectedEnd(p, d, now));
    forall x | x > d && Whole(x) && Suits(p, x)
      ensures Stretches(p) ==> !InTime(n, now, todo, i, EndAfter(now, x))
    {
      InTimeExactly(n, now, todo, i, ahead, EndAfter(now, x));
    }
  }

  lemma LookOnFirstBlock(n: Node, p: Point, limit: real)
    requires n.Fits(p) && LookAt(n, p, limit).Go?
    ensures OnFirstBlock(n, LookAt(n, p, limit).c)
  {
    var w := n.Width(p);
    var k := GroupIsFirst(n.free, n.devices, w);
    BlockDevices(n.devices, w, Blocks(n.devices, w)[k]);
  }

  // ------------------------------------------------------------ the plan

  /** The same of the points from the `i`th on. */
  ghost predicate IsPlanFrom(n: Node, now: real, todo: seq<Point>, i: nat, plan: Plan)
    requires TodoOk(n, todo) && i <= |todo|
  {
    match plan
    case Nothing => forall k :: i <= k < |todo| ==> !MayStart(n, now, todo, k)
    case Start(c, at, ahead) =>
      && i <= at < |todo| && c.p == todo[at] && MayStart(n, now, todo, at)
      && (forall k :: i <= k < at ==> !MayStart(n, now, todo, k))
      && OnFirstBlock(n, c) && Longest(n, now, todo, at, c.duration) && FirstBlocked(n, now, todo, at, ahead)
  }

  lemma StartIsPlan(n: Node, now: real, todo: seq<Point>, i: nat, ahead: Option<nat>, c: Choice)
    requires TodoOk(n, todo) && i < |todo| && FirstBlocked(n, now, todo, i, ahead)
    requires LookAt(n, todo[i], Limit(n, now, todo, ahead)) == Go(c)
    ensures IsPlanFrom(n, now, todo, i, Start(c, i, ahead))
  {
    LookExactly(n, now, todo, i, ahead);
    LookOnFirstBlock(n, todo[i], Limit(n, now, todo, ahead));
    LongestInTime(n, now, todo, i, ahead);
  }

  lemma SkipIsPlan(n: Node, now: real, todo: seq<Point>, i: nat, rest: Plan)
    requires TodoOk(n, todo) && i < |todo| && !MayStart(n, now, todo, i) && IsPlanFrom(n, now, todo, i + 1, rest)
    ensures IsPlanFrom(n, now, todo, i, rest)
  {
  }

  lemma {:induction false} PlanFromExactly(n: Node, now: real, todo: seq<Point>, i: nat, ahead: Option<nat>, plan: Plan)
    requires TodoOk(n, todo) && i <= |todo| && FirstBlocked(n, now, todo, i, ahead)
    requires plan == PlanFrom(n, now, todo, i, ahead)
    ensures IsPlanFrom(n, now, todo, i, plan)
    decreases |todo| - i
  {
    if i == |todo| {
    } else {
      var look := LookAt(n, todo[i], Limit(n, now, todo, ahead));
      PlanLook(n, now, todo, i, ahead);
      if look.Go? {
        StartIsPlan(n, now, todo, i, ahead, look.c);
      } else {
        NextAhead(n, now, todo, i, ahead);
        LookExactly(n, now, todo, i, ahead);
        PlanFromExactly(n, now, todo, i + 1, Ahead(look, ahead, i), plan);
        SkipIsPlan(n, now, todo, i, plan);
      }
    }
  }

  /** Planning starts the first point that may start, and nothing only when none
      may: on the first free block of its width, for as long as it may run. */
  lemma PlanExactly(n: Node, now: real, todo: seq<Point>)
    requires TodoOk(n, todo)
    ensures IsPlan(n, now, todo, PlanFrom(n, now, todo, 0, None))
  {
    var plan := PlanFrom(n, now, todo, 0, None);
    PlanFromExactly(n, now, todo, 0, None, plan);
    if plan.Start? {
      KeptExactly(n, now, todo, plan.at, plan.ahead);
    }
  }

  // ------------------------------------------------------------ ends

  /** A running point is expected to end when it should; one past that is given
      at least five minutes and a quarter of its estimate more. */
  lemma ExpectedToEnd(r: Run, now: real)
    ensures r.expectedEnd > now ==> EndOf(r, now) == r.expectedEnd
    ensures r.expectedEnd <= now ==>
      var more, quarter := EndOf(r, now) - now, (r.expectedEnd - r.started) / 4.0;
      more >= 300.0 && more >= quarter && (more == 300.0 || more == quarter)
  {
  }
}
