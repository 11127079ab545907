/** The points started one after the other at one time, until nothing more can
    start (the inner loop of `Runner.loop` in bench/campaign/campaign.py). */
module Reservation {
  import opened Options
  import opened Devices
  import opened Scheduler

  function Without(todo: seq<Point>, i: nat): (r: seq<Point>)
    requires i < |todo|
    ensures |r| == |todo| - 1 && forall j :: 0 <= j < i ==> r[j] == todo[j]
    ensures forall p :: p in r ==> p in todo
  {
    todo[..i] + todo[i + 1..]
  }

  /** A node and what it has left to do. */
  datatype Round = Round(n: Node, todo: seq<Point>)
  {
    predicate Ok() {
      TodoOk(n, todo) && forall i :: 0 <= i < |todo| ==> PositiveEstimate(todo[i])
    }

    function Plan(now: real): (plan: Plan)
      requires Ok()
      ensures plan.Start? ==> plan.at < |todo|
    {
      PlanFrom(n, now, todo, 0, None)
    }

    /** The planned point leaves the list, and starts if its claim is `won`. */
    function Next(now: real, won: bool): (r: Round)
      requires Ok()
      ensures r.Ok() && r.n.free <= n.free && r.n.(free := n.free, running := n.running) == n
    {
      var plan := Plan(now);
      if plan.Nothing? then this
      else Round(if won then n.After(plan.c, now) else n, Without(todo, plan.at))
    }

    /** After as many plans as there are claims in `won`. */
    function After(now: real, won: seq<bool>): (r: Round)
      requires Ok()
      ensures r.Ok()
      decreases won
    {
      if won == [] then this else Next(now, won[0]).After(now, won[1..])
    }

    /** Too wide for the node as it is, or too long for the time left. */
    predicate Skipped(now: real, j: nat)
      requires Ok() && j < |todo|
    {
      !EverFits(n, todo[j]) || DurationFor(todo[j], TimeLeft(n, now)).None?
    }

    /** The node is kept for `todo[k]`: it waits for devices, and no point ahead
        of it could start on any. */
    predicate KeptFor(now: real, k: nat)
      requires Ok()
    {
      k < |todo| && Blocked(n, now, todo[k]) && forall j :: 0 <= j < k ==> Skipped(now, j)
    }

    /** When the block `todo[k]` waits for will be free. */
    function FreeAt(now: real, k: nat): real
      requires Ok() && k < |todo|
    {
      WhenFree(n, n.Width(todo[k]), now)
    }
  }

  /** If a plan goes past a point that waits, it is one the node is kept for. */
  ghost predicate PastKept(r: Round, now: real, plan: Plan)
    requires r.Ok()
  {
    plan.Start? && plan.ahead.Some? ==> r.KeptFor(now, plan.ahead.value)
  }

  /** All points before `i` are skipped, or the node is kept for `ahead`. */
  predicate KeptBefore(r: Round, now: real, i: nat, ahead: Option<nat>)
    requires r.Ok() && i <= |r.todo|
  {
    if ahead.Some? then ahead.value < i && r.KeptFor(now, ahead.value)
    else forall j :: 0 <= j < i ==> r.Skipped(now, j)
  }

  lemma LookKeeps(r: Round, now: real, i: nat, ahead: Option<nat>)
    requires r.Ok() && i < |r.todo| && KeptBefore(r, now, i, ahead)
    ensures var look := LookAt(r.n, r.todo[i], Limit(r.n, now, r.todo, ahead));
      !look.Go? ==> KeptBefore(r, now, i + 1, Ahead(look, ahead, i))
  {
  }

  lemma {:induction false} PlanPast(r: Round, now: real, i: nat, ahead: Option<nat>)
    requires r.Ok() && i <= |r.todo| && KeptBefore(r, now, i, ahead)
    ensures PastKept(r, now, PlanFrom(r.n, now, r.todo, i, ahead))
    decreases |r.todo| - i
  {
    if i == |r.todo| {
    } else {
      var look := LookAt(r.n, r.todo[i], Limit(r.n, now, r.todo, ahead));
      PlanLook(r.n, now, r.todo, i, ahead);
      if !look.Go? {
        LookKeeps(r, now, i, ahead);
        PlanPast(r, now, i + 1, Ahead(look, ahead, i));
      }
    }
  }

  lemma SkippedIsNot(r: Round, now: real, j: nat)
    requires r.Ok() && j < |r.todo| && r.Skipped(now, j)
    ensures !Blocked(r.n, now, r.todo[j])
  {
  }

  /** What starts with nothing ahead of it is neither skipped nor blocked. */
  lemma StartsItself(r: Round, now: real, plan: Plan)
    requires r.Ok() && plan.Start? && plan.at < |r.todo| && plan.ahead.None? && GoodStart(r.n, now, r.todo, plan)
    ensures !r.Skipped(now, plan.at) && !Blocked(r.n, now, r.todo[plan.at])
  {
  }

  /** A good start on a node kept for a point goes past that point. */
  lemma StartGoesPast(r: Round, now: real, k: nat, plan: Plan)
    requires r.Ok() && r.KeptFor(now, k)
    requires plan.Start? && plan.at < |r.todo| && GoodStart(r.n, now, r.todo, plan)
    ensures plan.ahead == Some(k) && k < plan.at
  {
    if plan.ahead.None? {
      StartsItself(r, now, plan);
    } else if plan.ahead.value < k {
      SkippedIsNot(r, now, plan.ahead.value);
    }
  }

  /** A point that waits for devices waits for them when fewer are free. */
  lemma StaysBlocked(n: Node, n': Node, now: real, p: Point)
    requires n.Fits(p) && n'.Fits(p) && Blocked(n, now, p)
    requires n'.free <= n.free && n'.(free := n.free, running := n.running) == n
    ensures Blocked(n', now, p)
  {
    GroupIsBlock(n.free, n.devices, n.Width(p));
    GroupIsBlock(n'.free, n'.devices, n'.Width(p));
    if HasBlock(n'.free, n'.devices, n'.Width(p)) {
      MoreFree(n'.free, n.free, n.devices, n.Width(p));
    }
  }

  /** `r'` is kept for the point that `r` was kept for, and no longer than it. */
  ghost predicate StillKept(r: Round, r': Round, now: real, k: nat)
    requires r.Ok() && r'.Ok()
  {
    && k < |r.todo| && r'.KeptFor(now, k) && r'.todo[k] == r.todo[k]
    && r'.FreeAt(now, k) <= r.FreeAt(now, k)
  }

  lemma StartKept(r: Round, r': Round, now: real, plan: Plan, k: nat)
    requires r.Ok() && r.KeptFor(now, k) && r'.Ok()
    requires plan.Start? && plan.at < |r.todo| && GoodStart(r.n, now, r.todo, plan)
    requires r' == Round(r.n.After(plan.c, now), Without(r.todo, plan.at)) || r' == Round(r.n, Without(r.todo, plan.at))
    ensures StillKept(r, r', now, k)
  {
    StartGoesPast(r, now, k, plan);
    StaysBlocked(r.n, r'.n, now, r.todo[k]);
    assert forall j :: 0 <= j < k ==> r.Skipped(now, j) ==> r'.Skipped(now, j);
    StartKeepsReservation(r.n, now, r.todo, plan);
  }

  lemma NextKept(r: Round, now: real, won: bool, k: nat)
    requires r.Ok() && r.KeptFor(now, k)
    ensures StillKept(r, r.Next(now, won), now, k)
  {
    PlanIsGood(r.n, now, r.todo, 0, None);
    if r.Plan(now).Start? {
      StartKept(r, r.Next(now, won), now, r.Plan(now), k);
    }
  }

  /** Over any points started at one time, whichever claims are won, the node
      stays kept for the same point, and the time at which that point's block
      will be free never gets later. */
  lemma {:induction false} StartsKeepReservation(r: Round, now: real, won: seq<bool>, k: nat)
    requires r.Ok() && r.KeptFor(now, k)
    ensures StillKept(r, r.After(now, won), now, k)
    decreases won
  {
    if won == [] {
    } else {
      NextKept(r, now, won[0], k);
      StartsKeepReservation(r.Next(now, won[0]), now, won[1..], k);
    }
  }

  lemma KeptIsFirstBlocked(r: Round, now: real, k: nat)
    requires r.Ok() && r.KeptFor(now, k)
    ensures FirstBlocked(r.n, now, r.todo, |r.todo|, Some(k))
  {
    forall j | 0 <= j < k ensures !Blocked(r.n, now, r.todo[j]) {
      assert r.Skipped(now, j);
    }
  }

  /** From the first plan that goes past a point on, that point is the first
      blocked one, and it waits no longer than it was to wait then. */
  lemma FirstBlockedStays(r: Round, now: real, won: seq<bool>)
    requires r.Ok() && r.Plan(now).Start? && r.Plan(now).ahead.Some?
    ensures var ahead, r' := r.Plan(now).ahead, r.After(now, won);
      && FirstBlocked(r.n, now, r.todo, |r.todo|, ahead) && FirstBlocked(r'.n, now, r'.todo, |r'.todo|, ahead)
      && StillKept(r, r', now, ahead.value)
  {
    var k := r.Plan(now).ahead.value;
    PlanPast(r, now, 0, None);
    StartsKeepReservation(r, now, won, k);
    KeptIsFirstBlocked(r, now, k);
    KeptIsFirstBlocked(r.After(now, won), now, k);
  }
}
