/** Where each device goes: which `reap` frees, keeps and gives up, and how long one
    waits for the servers that hold it (`Runner.reap` in
    bench/campaign/campaign.py). */
module DevicePlaces {
  import opened Devices
  import opened DevicePool

  // ------------------------------------------------------------ one reap

  /** A quarantined device that now reads as holding 2048 MiB at most. */
  predicate ReadsClean(p: Pool, held: map<int, int>, d: int) {
    d in p.quarantined && d in held && held[d] <= 2048
  }

  predicate SetAsideTooLong(p: Pool, now: real, giveUpS: real, d: int) {
    d in p.quarantined && now - p.quarantined[d] > giveUpS
  }

  /** Some server of it still runs. */
  ghost predicate StillHeld(s: Straggler, exited: set<int>) {
    exists x :: x in s.servers && x !in exited
  }

  lemma AllGone(s: Straggler, exited: set<int>)
    ensures s.servers <= exited <==> !StillHeld(s, exited)
  {
    if !StillHeld(s, exited) {
      forall x | x in s.servers ensures x in exited {
      }
    }
  }

  /** It drained behind servers that have all exited. */
  ghost predicate LetGo(draining: seq<Straggler>, exited: set<int>, d: int) {
    exists s :: s in draining && d in s.devices && !StillHeld(s, exited)
  }

  /** It is in the block of the point that finished. */
  ghost predicate InBlockOf(running: seq<Running>, f: Finished, d: int) {
    exists r :: r in running && r.id == f.id && d in r.block
  }

  /** It is in the block of a point that finished and left no server behind. */
  ghost predicate GivenBack(running: seq<Running>, fs: seq<Finished>, d: int) {
    exists f :: f in fs && f.stragglers == {} && InBlockOf(running, f, d)
  }

  /** The block of a point that finished, behind the servers it left. */
  ghost predicate LeftBehind(running: seq<Running>, fs: seq<Finished>, s: Straggler) {
    s.servers != {} && exists f, r :: f in fs && r in running && LeftBy(f, r, s)
  }

  predicate LeftBy(f: Finished, r: Running, s: Straggler) {
    r.id == f.id && s == Straggler(f.stragglers, Devs(r.block))
  }

  ghost predicate HasFinished(fs: seq<Finished>, r: Running) {
    exists f :: f in fs && f.id == r.id
  }

  lemma {:induction false} DrainExactly(draining: seq<Straggler>, exited: set<int>)
    ensures forall s :: s in Drain(draining, exited).0 <==> s in draining && StillHeld(s, exited)
    ensures forall d :: d in Drain(draining, exited).1 <==> LetGo(draining, exited, d)
  {
    if draining == [] {
    } else {
      var first, rest := draining[0], draining[1..];
      DrainExactly(rest, exited);
      AllGone(first, exited);
      forall d ensures LetGo(draining, exited, d) <==>
        (d in first.devices && !StillHeld(first, exited)) || LetGo(rest, exited, d)
      {
        LetGoNext(draining, exited, d);
      }
    }
  }

  lemma LetGoNext(draining: seq<Straggler>, exited: set<int>, d: int)
    requires draining != []
    ensures LetGo(draining, exited, d) <==>
      (d in draining[0].devices && !StillHeld(draining[0], exited)) || LetGo(draining[1..], exited, d)
  {
    assert forall s :: s in draining <==> s == draining[0] || s in draining[1..];
  }

  // ------------------------------------------------------------ settling

  /** Settling takes one point out of those running. */
  lemma SettledRunning(p: Pool, f: Finished, r: Running)
    requires DistinctIds(p.running)
    ensures r in Settle(p, f).running <==> r in p.running && r.id != f.id
  {
    var i := IndexOf(p.running, f.id);
    if i < |p.running| {
      var rest := p.running[..i] + p.running[i + 1..];
      assert forall j :: 0 <= j < |rest| ==> rest[j] == p.running[if j < i then j else j + 1];
      if r in p.running && r.id != f.id {
        var k :| 0 <= k < |p.running| && p.running[k] == r;
        assert rest[if k < i then k else k - 1] == r;
      }
    }
  }

  /** Its block is freed, or goes behind the servers it left. */
  lemma SettledBlock(p: Pool, f: Finished)
    requires DistinctIds(p.running)
    ensures forall d :: d in Settle(p, f).free <==>
      d in p.free || (f.stragglers == {} && InBlockOf(p.running, f, d))
    ensures forall s :: s in Settle(p, f).draining <==> s in p.draining || LeftBehind(p.running, [f], s)
  {
    var i := IndexOf(p.running, f.id);
    if i < |p.running| {
      var own := p.running[i];
      assert forall r :: r in p.running && r.id == f.id ==> r == own;
      forall s ensures LeftBehind(p.running, [f], s) <==> s.servers != {} && LeftBy(f, own, s) {
        if s.servers != {} && LeftBy(f, own, s) {
          assert f in [f] && own in p.running;
        }
      }
      assert own in p.running;
    }
  }

  ghost predicate DistinctEnds(fs: seq<Finished>) {
    forall i, j :: 0 <= i < j < |fs| ==> fs[i].id != fs[j].id
  }

  /** What settling all of `fs` leaves of `p`. */
  ghost predicate Settled(p: Pool, fs: seq<Finished>, q: Pool) {
    && (forall r :: r in q.running <==> r in p.running && !HasFinished(fs, r))
    && (forall d :: d in q.free <==> d in p.free || GivenBack(p.running, fs, d))
    && (forall s :: s in q.draining <==> s in p.draining || LeftBehind(p.running, fs, s))
    && q.quarantined == p.quarantined && q.lost == p.lost
  }

  /** One more point settled first. */
  lemma SettledNext(p: Pool, f: Finished, fs: seq<Finished>, q: Pool)
    requires DistinctIds(p.running) && DistinctEnds([f] + fs) && Settled(Settle(p, f), fs, q)
    ensures Settled(p, [f] + fs, q)
  {
    var m, all := Settle(p, f), [f] + fs;
    assert forall g :: g in all <==> g == f || g in fs;
    assert forall g :: g in fs ==> g.id != f.id by {
      forall g | g in fs ensures g.id != f.id {
        var j :| 0 <= j < |fs| && fs[j] == g;
        assert all[j + 1] == g && all[0] == f;
      }
    }
    SettledBlock(p, f);
    forall r ensures r in m.running <==> r in p.running && r.id != f.id {
      SettledRunning(p, f, r);
    }
    forall d ensures GivenBack(p.running, all, d) <==>
      (f.stragglers == {} && InBlockOf(p.running, f, d)) || GivenBack(m.running, fs, d)
    {
      GivenBackNext(p.running, m.running, f, fs, d);
    }
    forall s ensures LeftBehind(p.running, all, s) <==> LeftBehind(p.running, [f], s) || LeftBehind(m.running, fs, s) {
      LeftBehindNext(p.running, m.running, f, fs, s);
    }
  }

  lemma GivenBackNext(running: seq<Running>, rest: seq<Running>, f: Finished, fs: seq<Finished>, d: int)
    requires forall r :: r in rest <==> r in running && r.id != f.id
    requires forall g :: g in fs ==> g.id != f.id
    ensures GivenBack(running, [f] + fs, d) <==>
      (f.stragglers == {} && InBlockOf(running, f, d)) || GivenBack(rest, fs, d)
  {
    assert forall g :: g in [f] + fs <==> g == f || g in fs;
    assert forall g :: g in fs ==> (InBlockOf(running, g, d) <==> InBlockOf(rest, g, d));
  }

  lemma LeftBehindNext(running: seq<Running>, rest: seq<Running>, f: Finished, fs: seq<Finished>, s: Straggler)
    requires forall r :: r in rest <==> r in running && r.id != f.id
    requires forall g :: g in fs ==> g.id != f.id
    ensures LeftBehind(running, [f] + fs, s) <==> LeftBehind(running, [f], s) || LeftBehind(rest, fs, s)
  {
    assert forall g :: g in [f] + fs <==> g == f || g in fs;
    if LeftBehind(running, [f] + fs, s) {
      var g, r :| g in [f] + fs && r in running && LeftBy(g, r, s);
      assert g == f ==> g in [f];
      assert g != f ==> r in rest;
    }
    if LeftBehind(rest, fs, s) {
      var g, r :| g in fs && r in rest && LeftBy(g, r, s);
      assert g in [f] + fs && r in running;
    }
  }

  lemma {:induction false} SettleAllExactly(p: Pool, fs: seq<Finished>, k: nat)
    requires k <= |fs| && DistinctIds(p.running) && DistinctEnds(fs)
    ensures Settled(p, fs[k..], SettleAll(p, fs, k))
    decreases |fs| - k
  {
    if k == |fs| {
      assert fs[k..] == [];
    } else {
      SettleRemoves(p, fs[k], 0);
      SettleAllExactly(Settle(p, fs[k]), fs, k + 1);
      assert fs[k..] == [fs[k]] + fs[k + 1..];
      SettledNext(p, fs[k], fs[k + 1..], SettleAll(p, fs, k));
    }
  }

  // ------------------------------------------------------------ where each goes

  /** `q` is what a reap makes of `p`, device by device. */
  ghost predicate Reaps(p: Pool, held: map<int, int>, now: real, giveUpS: real, exited: set<int>, q: Pool) {
    // free again: clean ones, those of servers that exited, those of points that left no server
    && (forall d :: d in q.free <==>
          d in p.free || ReadsClean(p, held, d) || LetGo(p.draining, exited, d) || GivenBack(p.running, p.finished, d))
    // quarantined still, since when they were
    && (forall d :: d in q.quarantined <==>
          d in p.quarantined && !ReadsClean(p, held, d) && !SetAsideTooLong(p, now, giveUpS, d))
    && (forall d :: d in q.quarantined ==> q.quarantined[d] == p.quarantined[d])
    // given up on
    && (forall d :: d in q.lost <==> d in p.lost || (!ReadsClean(p, held, d) && SetAsideTooLong(p, now, giveUpS, d)))
    // behind servers that still run, or that a point that finished left
    && (forall s :: s in q.draining <==>
          (s in p.draining && StillHeld(s, exited)) || LeftBehind(p.running, p.finished, s))
    && (forall r :: r in q.running <==> r in p.running && !HasFinished(p.finished, r))
    && q.finished == []
  }

  lemma ReapExactly(p: Pool, held: map<int, int>, now: real, giveUpS: real, exited: set<int>)
    requires p.Conserved()
    ensures Reaps(p, held, now, giveUpS, exited, Reap(p, held, now, giveUpS, exited))
  {
    var a := Sorted(p, held, now, giveUpS);
    var b := DrainAll(a, exited);
    SortedExactly(p, held, now, giveUpS);
    DrainExactly(p.draining, exited);
    SettleAllExactly(b, p.finished, 0);
    assert p.finished[0..] == p.finished;
    ReapConserves(p, held, now, giveUpS, exited);
  }

  /** What a reap starts from once the quarantined devices are sorted out. */
  function Sorted(p: Pool, held: map<int, int>, now: real, giveUpS: real): Pool {
    GiveUp(Clean(p.(finished := []), held), now, giveUpS)
  }

  lemma SortedExactly(p: Pool, held: map<int, int>, now: real, giveUpS: real)
    requires p.Conserved()
    ensures var q := Sorted(p, held, now, giveUpS);
      && q.draining == p.draining && q.running == p.running
      && (forall d :: d in q.free <==> d in p.free || ReadsClean(p, held, d))
      && (forall d :: d in q.quarantined <==>
            d in p.quarantined && !ReadsClean(p, held, d) && !SetAsideTooLong(p, now, giveUpS, d))
      && (forall d :: d in q.quarantined ==> q.quarantined[d] == p.quarantined[d])
      && (forall d :: d in q.lost <==> d in p.lost || (!ReadsClean(p, held, d) && SetAsideTooLong(p, now, giveUpS, d)))
  {
    forall d | d in p.quarantined ensures d !in p.free {
      assert p.Places(d) <= 1;
    }
  }

  /** Setting devices aside notes when, and a launch takes its block, no more. */
  lemma SetAsideExactly(p: Pool, dirty: set<int>, at: real)
    requires p.Conserved() && dirty <= p.free
    ensures var q := Quarantine(p, dirty, at);
      && q.free == p.free - dirty && q.quarantined.Keys == p.quarantined.Keys + dirty
      && (forall d :: d in q.quarantined ==> q.quarantined[d] == if d in dirty then at else p.quarantined[d])
  {
    forall d | d in dirty ensures d !in p.quarantined {
      assert p.Places(d) <= 1;
    }
  }

  // ------------------------------------------------------------ over every run

  /** `d` waits for `servers`: its point ended and left them, or it drains behind
      them. */
  ghost predicate WaitsFor(p: Pool, d: int, servers: set<int>) {
    || (exists f :: f in p.finished && f.stragglers == servers && InBlockOf(p.running, f, d))
    || (exists s :: s in p.draining && s.servers == servers && d in s.devices)
  }

  lemma {:induction false} ReservedOf(running: seq<Running>, r: Running, d: int)
    requires r in running && d in r.block
    ensures Reserved(running, d) >= 1
  {
    if running[0] == r {
    } else {
      ReservedOf(running[1..], r, d);
    }
  }

  lemma {:induction false} DrainedOf(draining: seq<Straggler>, s: Straggler, d: int)
    requires s in draining && d in s.devices
    ensures Drained(draining, d) >= 1
  {
    if draining[0] == s {
    } else {
      DrainedOf(draining[1..], s, d);
    }
  }

  lemma WaitingIsNotFree(p: Pool, d: int, servers: set<int>)
    requires p.Conserved() && WaitsFor(p, d, servers)
    ensures d !in p.free
  {
    assert p.Places(d) <= 1;
    if f :| f in p.finished && f.stragglers == servers && InBlockOf(p.running, f, d) {
      var r :| r in p.running && r.id == f.id && d in r.block;
      ReservedOf(p.running, r, d);
    } else {
      var s :| s in p.draining && s.servers == servers && d in s.devices;
      DrainedOf(p.draining, s, d);
    }
  }

  /** It waits until a reap finds that all of them have exited. */
  lemma KeepsWaiting(p: Pool, e: Event, d: int, servers: set<int>)
    requires p.Conserved() && Enabled(p, e) && servers != {} && WaitsFor(p, d, servers)
    ensures WaitsFor(Step(p, e), d, servers) || (e.Reaped? && servers <= e.exited)
  {
    match e
    case Launched(id, w) => LaunchKeepsWaiting(p, id, AlignedGroup(p.free, p.devices, w).value, d, servers);
    case Ended(id, stragglers) =>
    case SetAside(dirty, at) =>
    case Reaped(held, now, giveUpS, exited) => ReapKeepsWaiting(p, held, now, giveUpS, exited, d, servers);
  }

  lemma LaunchKeepsWaiting(p: Pool, id: int, block: seq<int>, d: int, servers: set<int>)
    requires WaitsFor(p, d, servers)
    ensures WaitsFor(Launch(p, id, block), d, servers)
  {
    var q := Launch(p, id, block);
    if f :| f in p.finished && f.stragglers == servers && InBlockOf(p.running, f, d) {
      var r :| r in p.running && r.id == f.id && d in r.block;
      assert r in q.running;
    }
  }

  lemma ReapKeepsWaiting(p: Pool, held: map<int, int>, now: real, giveUpS: real, exited: set<int>, d: int,
                         servers: set<int>)
    requires p.Conserved() && servers != {} && WaitsFor(p, d, servers)
    ensures WaitsFor(Reap(p, held, now, giveUpS, exited), d, servers) || servers <= exited
  {
    ReapExactly(p, held, now, giveUpS, exited);
    var q := Reap(p, held, now, giveUpS, exited);
    if f :| f in p.finished && f.stragglers == servers && InBlockOf(p.running, f, d) {
      var r :| r in p.running && r.id == f.id && d in r.block;
      var s := Straggler(servers, Devs(r.block));
      assert LeftBy(f, r, s) && LeftBehind(p.running, p.finished, s);
      assert s in q.draining && d in s.devices;
    } else {
      var s :| s in p.draining && s.servers == servers && d in s.devices;
      AllGone(s, exited);
    }
  }

  ghost predicate AllExited(es: seq<Event>, i: nat, j: nat, servers: set<int>) {
    exists k :: i <= k < j && k < |es| && es[k].Reaped? && servers <= es[k].exited
  }

  lemma WaitsOneMore(devices: seq<int>, ps: seq<Pool>, es: seq<Event>, i: nat, j: nat, d: int, servers: set<int>)
    requires IsRun(devices, ps, es) && i <= j < |es| && servers != {}
    requires WaitsFor(ps[j], d, servers) || AllExited(es, i, j, servers)
    ensures WaitsFor(ps[j + 1], d, servers) || AllExited(es, i, j + 1, servers)
  {
    if WaitsFor(ps[j], d, servers) {
      RunsConserve(devices, ps, es, j);
      assert Enabled(ps[j], es[j]);
      KeepsWaiting(ps[j], es[j], d, servers);
    }
  }

  lemma {:induction false} WaitsUntil(devices: seq<int>, ps: seq<Pool>, es: seq<Event>, i: nat, j: nat, d: int,
                                      servers: set<int>)
    requires IsRun(devices, ps, es) && i <= j <= |es| && servers != {} && WaitsFor(ps[i], d, servers)
    ensures WaitsFor(ps[j], d, servers) || AllExited(es, i, j, servers)
    decreases j
  {
    if i == j {
    } else {
      WaitsUntil(devices, ps, es, i, j - 1, d, servers);
      WaitsOneMore(devices, ps, es, i, j - 1, d, servers);
    }
  }

  /** On every run, a device of a point that ended and left servers behind is not
      free again before a reap has found that all of them have exited. */
  lemma HeldUntilExited(devices: seq<int>, ps: seq<Pool>, es: seq<Event>, i: nat, j: nat, d: int, r: Running)
    requires IsRun(devices, ps, es) && i < j <= |es| && es[i].Ended? && es[i].stragglers != {}
    requires r in ps[i].running && r.id == es[i].id && d in r.block && d in ps[j].free
    ensures AllExited(es, i + 1, j, es[i].stragglers)
  {
    assert ps[i + 1] == Step(ps[i], es[i]) && Enabled(ps[i], es[i]);
    var f := Finished(es[i].id, es[i].stragglers);
    assert f in ps[i + 1].finished && InBlockOf(ps[i + 1].running, f, d);
    WaitsUntil(devices, ps, es, i + 1, j, d, es[i].stragglers);
    RunsConserve(devices, ps, es, j);
    if WaitsFor(ps[j], d, es[i].stragglers) {
      WaitingIsNotFree(ps[j], d, es[i].stragglers);
    }
  }
}
