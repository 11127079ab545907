/** Planning the next point on a node: EASY backfill over aligned blocks
    (`Runner` in bench/campaign/campaign.py). */
module Scheduler {
  import opened Options
  import opened Devices

  const LOAD_ALLOWANCE_S: real := 1200.0

  /** What planning reads of a point. `workload` is whether it has a stretchable
      duration; otherwise `estS` is its estimate. */
  datatype Point = Point(id: int, gcds: nat, exclusive: bool, workload: bool,
                         minDurationS: real, maxDurationS: real, estS: real)

  /** A point under way. */
  datatype Run = Run(id: int, reserved: seq<int>, started: real, expectedEnd: real)

  /** A node: its devices in order, those free and those given up on, and its
      running points in the order they started. */
  datatype Node = Node(devices: seq<int>, free: set<int>, lost: set<int>, running: seq<Run>,
                       deadline: real, marginS: real)
  {
    function Width(p: Point): nat {
      if p.exclusive then |devices| else p.gcds
    }

    /** A node has devices, and a point uses at least one. */
    predicate Fits(p: Point) {
      devices != [] && p.gcds >= 1
    }

    /** The node once `c` was started on it at `now`. */
    function After(c: Choice, now: real): Node {
      this.(free := free - Devs(c.block),
            running := running + [Run(c.p.id, c.block, now, ExpectedEnd(c.p, c.duration, now))])
    }
  }

  datatype Choice = Choice(p: Point, used: seq<int>, block: seq<int>, duration: real)

  function Max(a: real, b: real): real { if a >= b then a else b }
  function Min(a: real, b: real): real { if a <= b then a else b }

  /** How long `p` will run with `limit` seconds to spare: None if it cannot
      fit, zero for a point with a fixed length. */
  function DurationFor(p: Point, limit: real): Option<real> {
    if p.workload && (p.minDurationS != 0.0 || p.maxDurationS != 0.0) then
      var avail := limit - LOAD_ALLOWANCE_S;
      var d := if p.maxDurationS != 0.0 then Min(p.maxDurationS, avail) else avail;
      if d >= Max(p.minDurationS, 60.0) then Some(d.Floor as real) else None
    else if p.estS <= limit then Some(0.0) else None
  }

  function ExpectedEnd(p: Point, duration: real, t: real): real {
    t + if duration != 0.0 then duration + LOAD_ALLOWANCE_S else p.estS
  }

  /** When a running point is expected to give its devices back: past its
      estimate it is given a quarter of it again. */
  function EndOf(r: Run, now: real): real {
    if r.expectedEnd <= now then now + Max(300.0, 0.25 * (r.expectedEnd - r.started)) else r.expectedEnd
  }

  // ------------------------------------------------------------ when_free

  datatype End = End(at: real, reserved: seq<int>)

  function Ends(running: seq<Run>, now: real): (e: seq<End>)
    ensures |e| == |running|
  {
    seq(|running|, i requires 0 <= i < |running| => End(EndOf(running[i], now), running[i].reserved))
  }

  /** The devices free once the points that end by `t` have ended. */
  function FreeBy(free: set<int>, ends: seq<End>, t: real): set<int> {
    if ends == [] then free
    else FreeBy(free, ends[..|ends| - 1], t) +
         if ends[|ends| - 1].at <= t then Devs(ends[|ends| - 1].reserved) else {}
  }

  lemma {:induction false} FreeByHas(free: set<int>, ends: seq<End>, t: real, d: int)
    ensures d in FreeBy(free, ends, t) <==>
      d in free || exists i :: 0 <= i < |ends| && ends[i].at <= t && d in ends[i].reserved
  {
    if ends == [] {
    } else {
      var n := |ends| - 1;
      FreeByHas(free, ends[..n], t, d);
      assert forall i :: 0 <= i < n ==> ends[..n][i] == ends[i];
    }
  }

  /** The latest of the ends, `now` if there are none. */
  function LastEnd(ends: seq<End>, now: real): (m: real)
    ensures forall i :: 0 <= i < |ends| ==> ends[i].at <= m
    ensures if ends == [] then m == now else exists i :: 0 <= i < |ends| && ends[i].at == m
  {
    if ends == [] then now
    else if |ends| == 1 then ends[0].at
    else Max(LastEnd(ends[..|ends| - 1], now), ends[|ends| - 1].at)
  }

  /** `t` is when an aligned block of `w` devices will be free: the first end
      by which one is, or the last end if none ever is. */
  ghost predicate IsWhenFree(free: set<int>, ends: seq<End>, devices: seq<int>, w: nat, now: real, t: real)
    requires w >= 1
  {
    if exists i :: 0 <= i < |ends| && HasBlock(FreeBy(free, ends, ends[i].at), devices, w) then
      && (exists i :: 0 <= i < |ends| && ends[i].at == t)
      && HasBlock(FreeBy(free, ends, t), devices, w)
      && forall i :: 0 <= i < |ends| && ends[i].at < t ==> !HasBlock(FreeBy(free, ends, ends[i].at), devices, w)
    else
      t == LastEnd(ends, now)
  }

  lemma WhenFreeUnique(free: set<int>, ends: seq<End>, devices: seq<int>, w: nat, now: real, t: real, t': real)
    requires w >= 1
    requires IsWhenFree(free, ends, devices, w, now, t) && IsWhenFree(free, ends, devices, w, now, t')
    ensures t == t'
  {
  }

  /** A block is free by the time the `i`th point ends. */
  predicate FreeAtEnd(free: set<int>, ends: seq<End>, devices: seq<int>, w: nat, i: nat)
    requires w >= 1 && i < |ends|
    ensures FreeAtEnd(free, ends, devices, w, i) <==> HasBlock(FreeBy(free, ends, ends[i].at), devices, w)
  {
    GroupIsBlock(FreeBy(free, ends, ends[i].at), devices, w);
    AlignedGroup(FreeBy(free, ends, ends[i].at), devices, w).Some?
  }

  /** The soonest of the first `i` ends by which a block is free. */
  function Soonest(free: set<int>, ends: seq<End>, devices: seq<int>, w: nat, i: nat): (r: Option<nat>)
    requires w >= 1 && i <= |ends|
    ensures r.None? ==> forall j :: 0 <= j < i ==> !FreeAtEnd(free, ends, devices, w, j)
    ensures r.Some? ==> r.value < i && FreeAtEnd(free, ends, devices, w, r.value)
    ensures r.Some? ==> forall j :: 0 <= j < i && ends[j].at < ends[r.value].at ==>
        !FreeAtEnd(free, ends, devices, w, j)
  {
    if i == 0 then None
    else
      var r := Soonest(free, ends, devices, w, i - 1);
      if FreeAtEnd(free, ends, devices, w, i - 1) && (r.None? || ends[i - 1].at < ends[r.value].at) then Some(i - 1)
      else r
  }

  function WhenFree(n: Node, w: nat, now: real): real
    requires w >= 1
  {
    var ends := Ends(n.running, now);
    var r := Soonest(n.free, ends, n.devices, w, |ends|);
    if r.Some? then ends[r.value].at else LastEnd(ends, now)
  }

  lemma SoonestIs(free: set<int>, ends: seq<End>, devices: seq<int>, w: nat, now: real, i: nat)
    requires w >= 1 && i < |ends| && FreeAtEnd(free, ends, devices, w, i)
    requires forall j :: 0 <= j < |ends| && ends[j].at < ends[i].at ==> !FreeAtEnd(free, ends, devices, w, j)
    ensures IsWhenFree(free, ends, devices, w, now, ends[i].at)
  {
    forall j | 0 <= j < |ends| && ends[j].at < ends[i].at
      ensures !HasBlock(FreeBy(free, ends, ends[j].at), devices, w)
    {
      assert !FreeAtEnd(free, ends, devices, w, j);
    }
  }

  lemma NeverFree(free: set<int>, ends: seq<End>, devices: seq<int>, w: nat, now: real)
    requires w >= 1 && forall j :: 0 <= j < |ends| ==> !FreeAtEnd(free, ends, devices, w, j)
    ensures IsWhenFree(free, ends, devices, w, now, LastEnd(ends, now))
  {
    forall j | 0 <= j < |ends| ensures !HasBlock(FreeBy(free, ends, ends[j].at), devices, w) {
      assert !FreeAtEnd(free, ends, devices, w, j);
    }
  }

  lemma WhenFreeIs(n: Node, w: nat, now: real)
    requires w >= 1
    ensures IsWhenFree(n.free, Ends(n.running, now), n.devices, w, now, WhenFree(n, w, now))
  {
    var ends := Ends(n.running, now);
    var r := Soonest(n.free, ends, n.devices, w, |ends|);
    if r.Some? {
      SoonestIs(n.free, ends, n.devices, w, now, r.value);
    } else {
      NeverFree(n.free, ends, n.devices, w, now);
    }
  }

  /** Taking a block out of the free devices until `e` delays no block that
      was to be free at `t` or later, `e` being no later than `t`. */
  lemma NoLater(free: set<int>, ends: seq<End>, devices: seq<int>, w: nat, now: real, block: seq<int>, e: real,
                t: real, t': real)
    requires w >= 1 && e <= t
    requires IsWhenFree(free, ends, devices, w, now, t)
    requires IsWhenFree(free - Devs(block), ends + [End(e, block)], devices, w, now, t')
    ensures t' <= t
  {
    var ends', free' := ends + [End(e, block)], free - Devs(block);
    var n := |ends|;
    assert ends'[n] == End(e, block) && forall i :: 0 <= i < n ==> ends'[i] == ends[i];
    forall d | d in FreeBy(free, ends, t) ensures d in FreeBy(free', ends', t) {
      FreeByHas(free, ends, t, d);
      FreeByHas(free', ends', t, d);
      if d in Devs(block) {
        assert ends'[n].at <= t && d in ends'[n].reserved;
      } else if d !in free {
        var i :| 0 <= i < n && ends[i].at <= t && d in ends[i].reserved;
        assert ends'[i].at <= t && d in ends'[i].reserved;
      }
    }
    if exists i :: 0 <= i < n && HasBlock(FreeBy(free, ends, ends[i].at), devices, w) {
      MoreFree(FreeBy(free, ends, t), FreeBy(free', ends', t), devices, w);
      var i :| 0 <= i < n && ends[i].at == t;
      assert ends'[i].at == t;
    }
  }

  // ------------------------------------------------------------ plan_next

  /** Can ever run here: a device given up on keeps its place in the list. */
  predicate EverFits(n: Node, p: Point)
    requires n.Fits(p)
  {
    AlignedGroup(Devs(n.devices) - n.lost, n.devices, n.Width(p)).Some?
  }

  function TimeLeft(n: Node, now: real): real {
    n.deadline - now - n.marginS
  }

  /** Would be started now but for the devices. */
  predicate Blocked(n: Node, now: real, p: Point)
    requires n.Fits(p)
  {
    EverFits(n, p) && DurationFor(p, TimeLeft(n, now)).Some? && AlignedGroup(n.free, n.devices, n.Width(p)).None?
  }

  /** What to start: the choice, its place in `todo`, and the place of the
      point ahead of it that the node is reserved for, if any. */
  datatype Plan = Start(c: Choice, at: nat, ahead: Option<nat>) | Nothing

  predicate TodoOk(n: Node, todo: seq<Point>) {
    forall i :: 0 <= i < |todo| ==> n.Fits(todo[i])
  }

  /** The seconds `todo[i]` may take when `todo[ahead]` waits for devices. */
  function Limit(n: Node, now: real, todo: seq<Point>, ahead: Option<nat>): real
    requires TodoOk(n, todo) && (ahead.Some? ==> ahead.value < |todo|)
  {
    if ahead.None? then TimeLeft(n, now)
    else Min(TimeLeft(n, now), WhenFree(n, n.Width(todo[ahead.value]), now) - now)
  }

  /** A look at one point: it does not fit in the node or the time, or waits
      for devices, or can start. */
  datatype Look = Skip | Wait | Go(c: Choice)

  function LookAt(n: Node, p: Point, limit: real): Look
    requires n.Fits(p)
  {
    var duration := DurationFor(p, limit);
    if !EverFits(n, p) || duration.None? then Skip
    else
      var block := AlignedGroup(n.free, n.devices, n.Width(p));
      if block.None? then Wait
      else
        var used := if p.gcds <= |block.value| then block.value[..p.gcds] else block.value;
        Go(Choice(p, used, block.value, duration.value))
  }

  /** The node is reserved for the first point that waits. */
  function Ahead(look: Look, ahead: Option<nat>, i: nat): Option<nat> {
    if look.Wait? && ahead.None? then Some(i) else ahead
  }

  /** The first of `todo` from `i` on that can start. */
  function PlanFrom(n: Node, now: real, todo: seq<Point>, i: nat, ahead: Option<nat>): (plan: Plan)
    requires TodoOk(n, todo) && i <= |todo| && (ahead.Some? ==> ahead.value < i)
    ensures plan.Start? ==> i <= plan.at < |todo|
    decreases |todo| - i
  {
    if i == |todo| then Nothing
    else
      var look := LookAt(n, todo[i], Limit(n, now, todo, ahead));
      if look.Go? then Start(look.c, i, ahead)
      else PlanFrom(n, now, todo, i + 1, Ahead(look, ahead, i))
  }

  /** `ahead` is the first point before `i` that is blocked, if one is. */
  ghost predicate FirstBlocked(n: Node, now: real, todo: seq<Point>, i: nat, ahead: Option<nat>)
    requires TodoOk(n, todo) && i <= |todo|
  {
    if ahead.Some? then
      ahead.value < i && Blocked(n, now, todo[ahead.value]) &&
          forall j :: 0 <= j < ahead.value ==> !Blocked(n, now, todo[j])
    else
      forall j :: 0 <= j < i ==> !Blocked(n, now, todo[j])
  }

  /** A started point is one that ever fits, on the first free aligned block of
      its width, within the limit the first blocked point ahead of it sets. */
  ghost predicate GoodStart(n: Node, now: real, todo: seq<Point>, plan: Plan)
    requires TodoOk(n, todo) && plan.Start? && plan.at < |todo|
  {
    && FirstBlocked(n, now, todo, plan.at, plan.ahead)
    && plan.c.p == todo[plan.at] && EverFits(n, plan.c.p)
    && Some(plan.c.block) == AlignedGroup(n.free, n.devices, n.Width(plan.c.p))
    && plan.c.used <= plan.c.block
    && Some(plan.c.duration) == DurationFor(plan.c.p, Limit(n, now, todo, plan.ahead))
  }

  /** With no point waiting yet, a look waits exactly at a blocked point. */
  lemma LookWaits(n: Node, now: real, p: Point)
    requires n.Fits(p)
    ensures LookAt(n, p, TimeLeft(n, now)).Wait? <==> Blocked(n, now, p)
  {
  }

  lemma LookStarts(n: Node, now: real, todo: seq<Point>, i: nat, ahead: Option<nat>)
    requires TodoOk(n, todo) && i < |todo| && FirstBlocked(n, now, todo, i, ahead)
    ensures var look := LookAt(n, todo[i], Limit(n, now, todo, ahead));
      look.Go? ==> GoodStart(n, now, todo, Start(look.c, i, ahead))
  {
  }

  lemma NextBlocked(n: Node, now: real, todo: seq<Point>, i: nat, ahead: Option<nat>)
    requires TodoOk(n, todo) && i < |todo| && FirstBlocked(n, now, todo, i, ahead)
    ensures FirstBlocked(n, now, todo, i + 1, if ahead.None? && Blocked(n, now, todo[i]) then Some(i) else ahead)
  {
  }

  /** One look of the plan. */
  lemma PlanLook(n: Node, now: real, todo: seq<Point>, i: nat, ahead: Option<nat>)
    requires TodoOk(n, todo) && i < |todo| && (ahead.Some? ==> ahead.value < i)
    ensures var look := LookAt(n, todo[i], Limit(n, now, todo, ahead));
      PlanFrom(n, now, todo, i, ahead) ==
      if look.Go? then Start(look.c, i, ahead) else PlanFrom(n, now, todo, i + 1, Ahead(look, ahead, i))
  {
  }

  /** What is planned from `i` on is a good start, if it is one. */
  ghost predicate GoodFrom(n: Node, now: real, todo: seq<Point>, i: nat, plan: Plan)
    requires TodoOk(n, todo)
  {
    plan.Start? ==> i <= plan.at < |todo| && GoodStart(n, now, todo, plan)
  }

  lemma GoodEarlier(n: Node, now: real, todo: seq<Point>, i: nat, plan: Plan)
    requires TodoOk(n, todo) && GoodFrom(n, now, todo, i + 1, plan)
    ensures GoodFrom(n, now, todo, i, plan)
  {
  }

  lemma {:induction false} PlanIsGood(n: Node, now: real, todo: seq<Point>, i: nat, ahead: Option<nat>)
    requires TodoOk(n, todo) && i <= |todo| && FirstBlocked(n, now, todo, i, ahead)
    ensures GoodFrom(n, now, todo, i, PlanFrom(n, now, todo, i, ahead))
    decreases |todo| - i
  {
    if i == |todo| {
    } else {
      var look := LookAt(n, todo[i], Limit(n, now, todo, ahead));
      PlanLook(n, now, todo, i, ahead);
      LookStarts(n, now, todo, i, ahead);
      NextAhead(n, now, todo, i, ahead);
      if !look.Go? {
        var next := Ahead(look, ahead, i);
        PlanIsGood(n, now, todo, i + 1, next);
        GoodEarlier(n, now, todo, i, PlanFrom(n, now, todo, i + 1, next));
      }
    }
  }

  lemma NextAhead(n: Node, now: real, todo: seq<Point>, i: nat, ahead: Option<nat>)
    requires TodoOk(n, todo) && i < |todo| && FirstBlocked(n, now, todo, i, ahead)
    ensures var look := LookAt(n, todo[i], Limit(n, now, todo, ahead));
      !look.Go? ==> FirstBlocked(n, now, todo, i + 1, Ahead(look, ahead, i))
  {
    LookWaits(n, now, todo[i]);
    NextBlocked(n, now, todo, i, ahead);
  }

  /** Points have a positive estimate where it is their estimate that counts. */
  predicate PositiveEstimate(p: Point) {
    (p.workload && (p.minDurationS != 0.0 || p.maxDurationS != 0.0)) || p.estS > 0.0
  }

  /** A point that fits in `limit` seconds is expected to end after now and
      within them. */
  lemma EndsWithin(p: Point, limit: real, now: real)
    requires PositiveEstimate(p) && DurationFor(p, limit).Some?
    ensures now < ExpectedEnd(p, DurationFor(p, limit).value, now) <= now + limit
  {
  }

  /** A start past the blocked point `ahead` leaves the time at which that
      point's block will be free no later than it was. */
  lemma StartKeepsReservation(n: Node, now: real, todo: seq<Point>, plan: Plan)
    requires TodoOk(n, todo) && plan.Start? && plan.at < |todo| && GoodStart(n, now, todo, plan)
    requires PositiveEstimate(plan.c.p) && plan.ahead.Some?
    ensures var w := n.Width(todo[plan.ahead.value]);
      WhenFree(n.After(plan.c, now), w, now) <= WhenFree(n, w, now)
  {
    var c, w := plan.c, n.Width(todo[plan.ahead.value]);
    var after, e := n.After(c, now), ExpectedEnd(c.p, c.duration, now);
    EndsWithin(c.p, Limit(n, now, todo, plan.ahead), now);
    WhenFreeIs(n, w, now);
    WhenFreeIs(after, w, now);
    assert Ends(after.running, now) == Ends(n.running, now) + [End(e, c.block)];
    NoLater(n.free, Ends(n.running, now), n.devices, w, now, c.block, e, WhenFree(n, w, now), WhenFree(after, w, now));
  }

  /** Backfill never delays the reservation: a point started past a blocked one
      leaves the time at which the blocked one's block will be free no later
      than it was, and is expected to end before the deadline less the margin. */
  lemma BackfillKeepsReservation(n: Node, now: real, todo: seq<Point>)
    requires TodoOk(n, todo) && forall i :: 0 <= i < |todo| ==> PositiveEstimate(todo[i])
    ensures var plan := PlanFrom(n, now, todo, 0, None);
      plan.Start? ==>
        && plan.at < |todo| && GoodStart(n, now, todo, plan)
        && ExpectedEnd(plan.c.p, plan.c.duration, now) <= n.deadline - n.marginS
        && (plan.ahead.Some? ==>
             var w := n.Width(todo[plan.ahead.value]);
             WhenFree(n.After(plan.c, now), w, now) <= WhenFree(n, w, now))
  {
    PlanIsGood(n, now, todo, 0, None);
    var plan := PlanFrom(n, now, todo, 0, None);
    if plan.Start? {
      EndsWithin(plan.c.p, Limit(n, now, todo, plan.ahead), now);
      if plan.ahead.Some? {
        StartKeepsReservation(n, now, todo, plan);
      }
    }
  }

  // ------------------------------------------------------------ the loops

  function InsertEnd(e: End, s: seq<End>): (r: seq<End>)
    ensures multiset(r) == multiset(s) + multiset{e}
  {
    if s == [] || e.at < s[0].at then [e] + s
    else assert s == [s[0]] + s[1..]; [s[0]] + InsertEnd(e, s[1..])
  }

  /** `sorted` by the time of each end; equal times keep their order. */
  function SortEnds(s: seq<End>): (r: seq<End>)
    ensures multiset(r) == multiset(s)
  {
    if s == [] then [] else
      assert s == s[..|s| - 1] + [s[|s| - 1]];
      InsertEnd(s[|s| - 1], SortEnds(s[..|s| - 1]))
  }

  ghost predicate InOrder(s: seq<End>) {
    forall i, j :: 0 <= i < j < |s| ==> s[i].at <= s[j].at
  }

  lemma InsertHas(e: End, s: seq<End>, x: End)
    ensures x in InsertEnd(e, s) <==> x == e || x in s
  {
    assert x in InsertEnd(e, s) <==> x in multiset(InsertEnd(e, s));
    assert x in s <==> x in multiset(s);
  }

  lemma {:induction false} InsertInOrder(e: End, s: seq<End>)
    requires InOrder(s)
    ensures InOrder(InsertEnd(e, s))
  {
    if s == [] || e.at < s[0].at {
    } else {
      var r := InsertEnd(e, s[1..]);
      InsertInOrder(e, s[1..]);
      forall i | 0 <= i < |r| ensures s[0].at <= r[i].at {
        InsertHas(e, s[1..], r[i]);
      }
    }
  }

  lemma {:induction false} SortInOrder(s: seq<End>)
    ensures InOrder(SortEnds(s))
  {
    if s == [] {
    } else {
      SortInOrder(s[..|s| - 1]);
      InsertInOrder(s[|s| - 1], SortEnds(s[..|s| - 1]));
    }
  }

  /** The devices free once the first `i` of the ends gave theirs back. */
  ghost predicate Given(free: set<int>, ends: seq<End>, i: nat, acc: set<int>)
    requires i <= |ends|
  {
    forall d :: d in acc <==> d in free || exists j :: 0 <= j < i && d in ends[j].reserved
  }

  /** `sorted` are `ends` in the order of their times. */
  ghost predicate SortedOf(ends: seq<End>, sorted: seq<End>) {
    multiset(sorted) == multiset(ends) && InOrder(sorted)
  }

  lemma SortedHas(ends: seq<End>, sorted: seq<End>, e: End)
    requires SortedOf(ends, sorted)
    ensures e in ends <==> e in sorted
  {
    assert e in ends <==> e in multiset(ends);
    assert e in sorted <==> e in multiset(sorted);
  }

  /** What ends before the `i`th has been given back by then. */
  lemma FreeByWithin(free: set<int>, ends: seq<End>, sorted: seq<End>, i: nat, acc: set<int>, t: real)
    requires SortedOf(ends, sorted) && i <= |sorted| && Given(free, sorted, i, acc)
    requires i < |sorted| ==> t < sorted[i].at
    ensures FreeBy(free, ends, t) <= acc
  {
    forall d | d in FreeBy(free, ends, t) ensures d in acc {
      FreeByHas(free, ends, t, d);
      if d !in free {
        var k :| 0 <= k < |ends| && ends[k].at <= t && d in ends[k].reserved;
        SortedHas(ends, sorted, ends[k]);
        var j :| 0 <= j < |sorted| && sorted[j] == ends[k];
        assert j < i;
      }
    }
  }

  /** What the `i`th gave back and those before it is free by its time. */
  lemma GivenWithin(free: set<int>, ends: seq<End>, sorted: seq<End>, i: nat, acc: set<int>)
    requires SortedOf(ends, sorted) && i < |sorted| && Given(free, sorted, i + 1, acc)
    ensures acc <= FreeBy(free, ends, sorted[i].at)
  {
    forall d | d in acc ensures d in FreeBy(free, ends, sorted[i].at) {
      FreeByHas(free, ends, sorted[i].at, d);
      if d !in free {
        var j :| 0 <= j < i + 1 && d in sorted[j].reserved;
        SortedHas(ends, sorted, sorted[j]);
        var k :| 0 <= k < |ends| && ends[k] == sorted[j];
      }
    }
  }

  /** No block is free by any time before the `i`th end, nor ever when all were
      given back, if none is among what was given back so far. */
  lemma NoneBefore(free: set<int>, ends: seq<End>, sorted: seq<End>, devices: seq<int>, w: nat, i: nat, acc: set<int>)
    requires w >= 1 && SortedOf(ends, sorted) && i <= |sorted| && Given(free, sorted, i, acc)
    requires i > 0 ==> !HasBlock(acc, devices, w)
    ensures forall k :: 0 <= k < |ends| && (i < |sorted| ==> ends[k].at < sorted[i].at) ==>
      !HasBlock(FreeBy(free, ends, ends[k].at), devices, w)
  {
    forall k | 0 <= k < |ends| && (i < |sorted| ==> ends[k].at < sorted[i].at)
      ensures !HasBlock(FreeBy(free, ends, ends[k].at), devices, w)
    {
      SortedHas(ends, sorted, ends[k]);
      var j :| 0 <= j < |sorted| && sorted[j] == ends[k];
      assert i > 0;
      FreeByWithin(free, ends, sorted, i, acc, ends[k].at);
      if HasBlock(FreeBy(free, ends, ends[k].at), devices, w) {
        MoreFree(FreeBy(free, ends, ends[k].at), acc, devices, w);
      }
    }
  }

  /** The time at which the scan of the sorted ends stops is the one meant. */
  lemma StopsRight(free: set<int>, ends: seq<End>, sorted: seq<End>, devices: seq<int>, w: nat, now: real, i: nat,
                   before: set<int>, acc: set<int>)
    requires w >= 1 && SortedOf(ends, sorted) && i < |sorted|
    requires Given(free, sorted, i, before) && (i > 0 ==> !HasBlock(before, devices, w))
    requires Given(free, sorted, i + 1, acc) && HasBlock(acc, devices, w)
    ensures IsWhenFree(free, ends, devices, w, now, sorted[i].at)
  {
    var t := sorted[i].at;
    GivenWithin(free, ends, sorted, i, acc);
    MoreFree(acc, FreeBy(free, ends, t), devices, w);
    NoneBefore(free, ends, sorted, devices, w, i, before);
    SortedHas(ends, sorted, sorted[i]);
    var k :| 0 <= k < |ends| && ends[k] == sorted[i];
    assert HasBlock(FreeBy(free, ends, ends[k].at), devices, w);
  }

  /** The loop of `when_free`: the running points in the order they end, giving
      their devices back until a block is free. */
  method FindWhenFree(n: Node, w: nat, now: real) returns (t: real)
    requires w >= 1
    ensures t == WhenFree(n, w, now)
  {
    ghost var ends := Ends(n.running, now);
    var sorted := SortEnds(Ends(n.running, now));
    SortInOrder(ends);
    WhenFreeIs(n, w, now);
    var free := n.free;
    var i := 0;
    while i < |sorted|
      invariant 0 <= i <= |sorted|
      invariant Given(n.free, sorted, i, free)
      invariant i > 0 ==> !HasBlock(free, n.devices, w)
    {
      ghost var before := free;
      free := free + Devs(sorted[i].reserved);
      var block := FindGroup(free, n.devices, w);
      GroupIsBlock(free, n.devices, w);
      if block.Some? {
        StopsRight(n.free, ends, sorted, n.devices, w, now, i, before, free);
        WhenFreeUnique(n.free, ends, n.devices, w, now, sorted[i].at, WhenFree(n, w, now));
        return sorted[i].at;
      }
      i := i + 1;
    }
    NoneBefore(n.free, ends, sorted, n.devices, w, i, free);
    t := LastEnd(Ends(n.running, now), now);
    WhenFreeUnique(n.free, ends, n.devices, w, now, t, WhenFree(n, w, now));
  }

  /** The time the node is reserved from, if it is. */
  ghost predicate ReservedAt(n: Node, now: real, todo: seq<Point>, ahead: Option<nat>, reserveAt: Option<real>)
    requires TodoOk(n, todo) && (ahead.Some? ==> ahead.value < |todo|)
  {
    reserveAt == if ahead.None? then None else Some(WhenFree(n, n.Width(todo[ahead.value]), now))
  }

  function LimitOf(timeLeft: real, now: real, reserveAt: Option<real>): real {
    if reserveAt.None? then timeLeft else Min(timeLeft, reserveAt.value - now)
  }

  lemma LimitIs(n: Node, now: real, todo: seq<Point>, ahead: Option<nat>, reserveAt: Option<real>)
    requires TodoOk(n, todo) && (ahead.Some? ==> ahead.value < |todo|) && ReservedAt(n, now, todo, ahead, reserveAt)
    ensures LimitOf(TimeLeft(n, now), now, reserveAt) == Limit(n, now, todo, ahead)
  {
  }

  /** The loop of `plan_next` over the points in order. */
  method PlanNext(n: Node, now: real, todo: seq<Point>) returns (plan: Plan)
    requires TodoOk(n, todo)
    ensures plan == PlanFrom(n, now, todo, 0, None)
  {
    var timeLeft := TimeLeft(n, now);
    var reserveAt: Option<real> := None;
    var ahead: Option<nat> := None;
    var i := 0;
    while i < |todo|
      invariant 0 <= i <= |todo| && (ahead.Some? ==> ahead.value < i)
      invariant ReservedAt(n, now, todo, ahead, reserveAt)
      invariant PlanLeft(n, now, todo, i, ahead)
    {
      LimitIs(n, now, todo, ahead, reserveAt);
      PlanLeftNext(n, now, todo, i, ahead);
      var look := LookAt(n, todo[i], LimitOf(timeLeft, now, reserveAt));
      if look.Go? {
        return Start(look.c, i, ahead);
      }
      if look.Wait? && reserveAt.None? {
        var t := FindWhenFree(n, n.Width(todo[i]), now);
        reserveAt, ahead := Some(t), Some(i);
      }
      i := i + 1;
    }
    plan := Nothing;
  }

  /** The plan is what is left to plan from `i` on. */
  ghost predicate PlanLeft(n: Node, now: real, todo: seq<Point>, i: nat, ahead: Option<nat>)
    requires TodoOk(n, todo) && i <= |todo| && (ahead.Some? ==> ahead.value < i)
  {
    PlanFrom(n, now, todo, 0, None) == PlanFrom(n, now, todo, i, ahead)
  }

  lemma PlanLeftNext(n: Node, now: real, todo: seq<Point>, i: nat, ahead: Option<nat>)
    requires TodoOk(n, todo) && i < |todo| && (ahead.Some? ==> ahead.value < i) && PlanLeft(n, now, todo, i, ahead)
    ensures var look := LookAt(n, todo[i], Limit(n, now, todo, ahead));
      && (look.Go? ==> PlanFrom(n, now, todo, 0, None) == Start(look.c, i, ahead))
      && (!look.Go? ==> PlanLeft(n, now, todo, i + 1, Ahead(look, ahead, i)))
  {
    PlanLook(n, now, todo, i, ahead);
  }
}
