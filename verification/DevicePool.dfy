/** The life of a node's devices: free, reserved by a running point, draining
    behind a server that outlived its kill, quarantined, or lost
    (`Runner.launch`, `quarantine` and `reap` in bench/campaign/campaign.py). */
module DevicePool {
  import opened Options
  import opened Devices

  const DIRTY_MIB: int := 2048

  /** A running point and the block it keeps to itself. */
  datatype Running = Running(id: int, block: seq<int>)

  /** A point whose thread has ended, and the servers it could not kill. */
  datatype Finished = Finished(id: int, stragglers: set<int>)

  /** Servers that outlived their kill, and the devices they hold. */
  datatype Straggler = Straggler(servers: set<int>, devices: set<int>)

  /** A node. `quarantined` gives the time each device was set aside. */
  datatype Pool = Pool(devices: seq<int>, free: set<int>, running: seq<Running>, finished: seq<Finished>,
                       draining: seq<Straggler>, quarantined: map<int, real>, lost: set<int>)
  {
    /** In how many places the node has device `d`. */
    ghost function Places(d: int): nat {
      In(d, free) + Reserved(running, d) + Drained(draining, d) + In(d, quarantined.Keys) + In(d, lost)
    }

    /** Each of the node's devices is in exactly one place, and no other in any.
        Points under way have names of their own and aligned blocks, and those
        that finished are among them. */
    ghost predicate Conserved() {
      && (forall d :: Places(d) == if d in devices then 1 else 0)
      && DistinctIds(running) && AllAligned(devices, running)
      && (forall i, j :: 0 <= i < j < |finished| ==> finished[i].id != finished[j].id)
      && (forall i :: 0 <= i < |finished| ==> HasId(running, finished[i].id))
    }
  }

  function In(d: int, s: set<int>): nat {
    if d in s then 1 else 0
  }

  ghost predicate DistinctIds(running: seq<Running>) {
    forall i, j :: 0 <= i < j < |running| ==> running[i].id != running[j].id
  }

  /** The block is one of those of its width that the node's list is cut up into. */
  ghost predicate IsAligned(devices: seq<int>, block: seq<int>) {
    |block| >= 1 && block in Blocks(devices, |block|)
  }

  ghost predicate AllAligned(devices: seq<int>, running: seq<Running>) {
    forall r :: r in running ==> IsAligned(devices, r.block)
  }

  ghost predicate HasId(running: seq<Running>, id: int) {
    exists i :: 0 <= i < |running| && running[i].id == id
  }

  /** How many running points have `d` in their block. */
  ghost function Reserved(running: seq<Running>, d: int): nat {
    if running == [] then 0 else (if d in running[0].block then 1 else 0) + Reserved(running[1..], d)
  }

  ghost function Drained(draining: seq<Straggler>, d: int): nat {
    if draining == [] then 0 else In(d, draining[0].devices) + Drained(draining[1..], d)
  }

  /** A node at the start: every device free. */
  function Idle(devices: seq<int>): Pool {
    Pool(devices, Devs(devices), [], [], [], map[], {})
  }

  // ------------------------------------------------------------ steps

  /** A point starts on the first free aligned block of its width. */
  function Launch(p: Pool, id: int, block: seq<int>): Pool {
    p.(free := p.free - Devs(block), running := p.running + [Running(id, block)])
  }

  /** A point's thread ends. */
  function Finish(p: Pool, id: int, stragglers: set<int>): Pool {
    p.(finished := p.finished + [Finished(id, stragglers)])
  }

  /** Free devices that hold memory with no point on them are set aside. */
  function Quarantine(p: Pool, dirty: set<int>, now: real): Pool {
    p.(free := p.free - dirty,
       quarantined := map d | d in p.quarantined.Keys + dirty :: if d in p.quarantined then p.quarantined[d] else now)
  }

  /** Quarantined devices that now read clean are free again. */
  function Cleaned(p: Pool, held: map<int, int>): set<int> {
    set d | d in p.quarantined && d in held && held[d] <= DIRTY_MIB
  }

  function Clean(p: Pool, held: map<int, int>): Pool {
    var c := Cleaned(p, held);
    p.(free := p.free + c, quarantined := p.quarantined - c)
  }

  /** Devices set aside for too long are left out of the job. */
  function Hopeless(p: Pool, now: real, giveUpS: real): set<int> {
    set d | d in p.quarantined && now - p.quarantined[d] > giveUpS
  }

  function GiveUp(p: Pool, now: real, giveUpS: real): Pool {
    var h := Hopeless(p, now, giveUpS);
    p.(free := p.free - h, quarantined := p.quarantined - h, lost := p.lost + h)
  }

  /** Devices whose servers have all exited come back. */
  function Drain(draining: seq<Straggler>, exited: set<int>): (seq<Straggler>, set<int>) {
    if draining == [] then ([], {})
    else
      var (kept, back) := Drain(draining[1..], exited);
      if draining[0].servers <= exited then (kept, draining[0].devices + back) else ([draining[0]] + kept, back)
  }

  function DrainAll(p: Pool, exited: set<int>): Pool {
    var (kept, back) := Drain(p.draining, exited);
    p.(draining := kept, free := p.free + back)
  }

  function IndexOf(running: seq<Running>, id: int): (i: nat)
    ensures i <= |running|
    ensures i < |running| ==> running[i].id == id
    ensures i < |running| <==> HasId(running, id)
  {
    if running == [] then 0 else if running[0].id == id then 0
    else
      assert forall i :: 0 < i < |running| ==> running[i] == running[1..][i - 1];
      assert forall i :: 0 <= i < |running| - 1 ==> running[1..][i] == running[i + 1];
      1 + IndexOf(running[1..], id)
  }

  /** A finished point gives its block back, or leaves it to its stragglers. */
  function Settle(p: Pool, f: Finished): Pool {
    var i := IndexOf(p.running, f.id);
    if i == |p.running| then p
    else
      var block := p.running[i].block;
      var rest := p.(running := p.running[..i] + p.running[i + 1..]);
      if f.stragglers != {} then rest.(draining := rest.draining + [Straggler(f.stragglers, Devs(block))])
      else rest.(free := rest.free + Devs(block))
  }

  function SettleAll(p: Pool, fs: seq<Finished>, k: nat): Pool
    requires k <= |fs|
    decreases |fs| - k
  {
    if k == |fs| then p else SettleAll(Settle(p, fs[k]), fs, k + 1)
  }

  /** What `reap` does, given the memory the devices hold, the time, and the
      servers that have exited. */
  function Reap(p: Pool, held: map<int, int>, now: real, giveUpS: real, exited: set<int>): Pool {
    var q := DrainAll(GiveUp(Clean(p.(finished := []), held), now, giveUpS), exited);
    SettleAll(q, p.finished, 0)
  }

  // ------------------------------------------------------------ conservation

  lemma {:induction false} ReservedSplit(running: seq<Running>, i: nat, d: int)
    requires i < |running|
    ensures Reserved(running, d) ==
      Reserved(running[..i] + running[i + 1..], d) + if d in running[i].block then 1 else 0
  {
    if i == 0 {
      assert running[..0] + running[1..] == running[1..];
    } else {
      ReservedSplit(running[1..], i - 1, d);
      var rest := running[..i] + running[i + 1..];
      assert rest[1..] == running[1..][..i - 1] + running[1..][i..];
    }
  }

  lemma ReservedAppend(running: seq<Running>, r: Running, d: int)
    ensures Reserved(running + [r], d) == Reserved(running, d) + if d in r.block then 1 else 0
  {
    var i := |running|;
    assert (running + [r])[..i] + (running + [r])[i + 1..] == running;
    ReservedSplit(running + [r], i, d);
  }

  lemma {:induction false} DrainedAppend(draining: seq<Straggler>, s: Straggler, d: int)
    ensures Drained(draining + [s], d) == Drained(draining, d) + In(d, s.devices)
  {
    if draining == [] {
      assert draining + [s] == [s];
    } else {
      assert (draining + [s])[1..] == draining[1..] + [s];
      DrainedAppend(draining[1..], s, d);
    }
  }

  /** At the start every device is free. */
  lemma IdleConserved(devices: seq<int>)
    ensures Idle(devices).Conserved()
  {
  }

  /** A launch takes an aligned block no running point has. */
  lemma LaunchConserves(p: Pool, id: int, w: nat, block: seq<int>)
    requires p.Conserved() && w >= 1 && AlignedGroup(p.free, p.devices, w) == Some(block)
    requires !HasId(p.running, id)
    ensures Launch(p, id, block).Conserved()
    ensures block in Blocks(p.devices, w)
    ensures forall i :: 0 <= i < |p.running| ==> Devs(block) !! Devs(p.running[i].block)
  {
    var q := Launch(p, id, block);
    GroupIsBlock(p.free, p.devices, w);
    BlockDevices(p.devices, w, block);
    forall d ensures q.Places(d) == p.Places(d) {
      ReservedAppend(p.running, Running(id, block), d);
      assert d in block ==> d in p.free;
    }
    forall i | 0 <= i < |p.running| ensures Devs(block) !! Devs(p.running[i].block) {
      forall d | d in p.running[i].block ensures d !in block {
        ReservedSplit(p.running, i, d);
        assert p.Places(d) <= 1;
      }
    }
    forall i | 0 <= i < |q.finished| ensures HasId(q.running, q.finished[i].id) {
      var j :| 0 <= j < |p.running| && p.running[j].id == p.finished[i].id;
      assert q.running[j] == p.running[j];
    }
  }

  lemma FinishConserves(p: Pool, id: int, stragglers: set<int>)
    requires p.Conserved() && HasId(p.running, id)
    requires forall i :: 0 <= i < |p.finished| ==> p.finished[i].id != id
    ensures Finish(p, id, stragglers).Conserved()
  {
    var q := Finish(p, id, stragglers);
    assert forall d :: q.Places(d) == p.Places(d);
  }

  lemma QuarantineConserves(p: Pool, dirty: set<int>, now: real)
    requires p.Conserved() && dirty <= p.free
    ensures Quarantine(p, dirty, now).Conserved()
  {
    var q := Quarantine(p, dirty, now);
    forall d ensures q.Places(d) == p.Places(d) {
      assert p.Places(d) <= 1;
    }
  }

  lemma CleanConserves(p: Pool, held: map<int, int>)
    requires p.Conserved()
    ensures Clean(p, held).Conserved()
  {
    var q := Clean(p, held);
    forall d ensures q.Places(d) == p.Places(d) {
      assert p.Places(d) <= 1;
    }
  }

  lemma GiveUpConserves(p: Pool, now: real, giveUpS: real)
    requires p.Conserved()
    ensures GiveUp(p, now, giveUpS).Conserved()
  {
    var q := GiveUp(p, now, giveUpS);
    forall d ensures q.Places(d) == p.Places(d) {
      assert p.Places(d) <= 1;
    }
  }

  /** What comes back and what stays are all that was draining. */
  lemma {:induction false} DrainSplits(draining: seq<Straggler>, exited: set<int>, d: int)
    requires Drained(draining, d) <= 1
    ensures var (kept, back) := Drain(draining, exited);
      Drained(kept, d) + In(d, back) == Drained(draining, d)
  {
    if draining == [] {
    } else {
      DrainSplits(draining[1..], exited, d);
      var (kept, back) := Drain(draining[1..], exited);
      assert ([draining[0]] + kept)[1..] == kept;
    }
  }

  lemma DrainConserves(p: Pool, exited: set<int>)
    requires p.Conserved()
    ensures DrainAll(p, exited).Conserved()
  {
    var q := DrainAll(p, exited);
    forall d ensures q.Places(d) == p.Places(d) {
      assert p.Places(d) <= 1;
      DrainSplits(p.draining, exited, d);
    }
  }

  lemma SettlePlaces(p: Pool, f: Finished, d: int)
    requires p.Conserved() && IndexOf(p.running, f.id) < |p.running|
    ensures Settle(p, f).Places(d) == p.Places(d)
  {
    var i := IndexOf(p.running, f.id);
    assert p.Places(d) <= 1;
    ReservedSplit(p.running, i, d);
    DrainedAppend(p.draining, Straggler(f.stragglers, Devs(p.running[i].block)), d);
  }

  /** One point less: those left keep their names and their blocks. */
  lemma OneLess(devices: seq<int>, running: seq<Running>, i: nat)
    requires i < |running| && DistinctIds(running) && AllAligned(devices, running)
    ensures var rest := running[..i] + running[i + 1..];
      DistinctIds(rest) && AllAligned(devices, rest)
  {
    var rest := running[..i] + running[i + 1..];
    assert forall j :: 0 <= j < |rest| ==> rest[j] == running[if j < i then j else j + 1];
    forall r | r in rest ensures r in running {
    }
  }

  lemma SettleConserves(p: Pool, f: Finished)
    requires p.Conserved() && p.finished == []
    ensures Settle(p, f).Conserved()
  {
    var i := IndexOf(p.running, f.id);
    if i < |p.running| {
      OneLess(p.devices, p.running, i);
      forall d ensures Settle(p, f).Places(d) == p.Places(d) {
        SettlePlaces(p, f, d);
      }
    }
  }

  lemma {:induction false} SettleAllConserves(p: Pool, fs: seq<Finished>, k: nat)
    requires k <= |fs| && p.Conserved() && p.finished == []
    ensures var q := SettleAll(p, fs, k);
      q.Conserved() && q.finished == [] && q.lost == p.lost && q.devices == p.devices
    decreases |fs| - k
  {
    if k == |fs| {
    } else {
      SettleConserves(p, fs[k]);
      SettleAllConserves(Settle(p, fs[k]), fs, k + 1);
    }
  }

  lemma ReapConserves(p: Pool, held: map<int, int>, now: real, giveUpS: real, exited: set<int>)
    requires p.Conserved()
    ensures var q := Reap(p, held, now, giveUpS, exited);
      q.Conserved() && q.finished == [] && p.lost <= q.lost && q.devices == p.devices
  {
    var a := p.(finished := []);
    assert forall d :: a.Places(d) == p.Places(d);
    CleanConserves(a, held);
    var b := Clean(a, held);
    GiveUpConserves(b, now, giveUpS);
    var c := GiveUp(b, now, giveUpS);
    DrainConserves(c, exited);
    SettleAllConserves(DrainAll(c, exited), p.finished, 0);
  }

  /** A settled point no longer runs, and no other point is touched. */
  lemma SettleRemoves(p: Pool, f: Finished, id: int)
    requires DistinctIds(p.running)
    ensures DistinctIds(Settle(p, f).running)
    ensures HasId(Settle(p, f).running, id) <==> HasId(p.running, id) && id != f.id
  {
    var i := IndexOf(p.running, f.id);
    if i < |p.running| {
      OthersKept(p.running, i, id);
    }
  }

  lemma OthersKept(running: seq<Running>, i: nat, id: int)
    requires i < |running| && DistinctIds(running)
    ensures var rest := running[..i] + running[i + 1..];
      DistinctIds(rest) && (HasId(rest, id) <==> HasId(running, id) && id != running[i].id)
  {
    var rest := running[..i] + running[i + 1..];
    assert forall j :: 0 <= j < |rest| ==> rest[j] == running[if j < i then j else j + 1];
    if HasId(running, id) && id != running[i].id {
      var k :| 0 <= k < |running| && running[k].id == id;
      assert rest[if k < i then k else k - 1] == running[k];
    }
  }

  /** `reap` takes exactly the finished points out of those running. */
  lemma {:induction false} SettleAllRemoves(p: Pool, fs: seq<Finished>, k: nat, id: int)
    requires k <= |fs| && DistinctIds(p.running)
    ensures HasId(SettleAll(p, fs, k).running, id) <==>
      HasId(p.running, id) && forall j :: k <= j < |fs| ==> fs[j].id != id
    decreases |fs| - k
  {
    if k == |fs| {
    } else {
      SettleRemoves(p, fs[k], id);
      SettleAllRemoves(Settle(p, fs[k]), fs, k + 1, id);
    }
  }

  // ------------------------------------------------------------ whole runs

  datatype Event =
    | Launched(id: int, w: nat)
    | Ended(id: int, stragglers: set<int>)
    | SetAside(dirty: set<int>, at: real)
    | Reaped(held: map<int, int>, now: real, giveUpS: real, exited: set<int>)

  /** When the runner does this: it launches a point it has just claimed on a
      block it found free, and sets aside devices of such a block. */
  ghost predicate Enabled(p: Pool, e: Event) {
    match e
    case Launched(id, w) => w >= 1 && !HasId(p.running, id) && AlignedGroup(p.free, p.devices, w).Some?
    case Ended(id, _) => HasId(p.running, id) && forall i :: 0 <= i < |p.finished| ==> p.finished[i].id != id
    case SetAside(dirty, _) => dirty <= p.free
    case Reaped(_, _, _, _) => true
  }

  function Step(p: Pool, e: Event): Pool
    requires Enabled(p, e)
  {
    match e
    case Launched(id, w) => Launch(p, id, AlignedGroup(p.free, p.devices, w).value)
    case Ended(id, stragglers) => Finish(p, id, stragglers)
    case SetAside(dirty, at) => Quarantine(p, dirty, at)
    case Reaped(held, now, giveUpS, exited) => Reap(p, held, now, giveUpS, exited)
  }

  lemma StepConserves(p: Pool, e: Event)
    requires p.Conserved() && Enabled(p, e)
    ensures Step(p, e).Conserved() && Step(p, e).devices == p.devices && p.lost <= Step(p, e).lost
  {
    match e
    case Launched(id, w) => LaunchConserves(p, id, w, AlignedGroup(p.free, p.devices, w).value);
    case Ended(id, stragglers) => FinishConserves(p, id, stragglers);
    case SetAside(dirty, at) => QuarantineConserves(p, dirty, at);
    case Reaped(held, now, giveUpS, exited) => ReapConserves(p, held, now, giveUpS, exited);
  }

  /** The states a node passes through. */
  ghost predicate IsRun(devices: seq<int>, ps: seq<Pool>, es: seq<Event>) {
    && |ps| == |es| + 1 && ps[0] == Idle(devices)
    && forall i :: 0 <= i < |es| ==> Enabled(ps[i], es[i]) && ps[i + 1] == Step(ps[i], es[i])
  }

  /** At every point of every run each device is in exactly one place. */
  lemma {:induction false} RunsConserve(devices: seq<int>, ps: seq<Pool>, es: seq<Event>, i: nat)
    requires IsRun(devices, ps, es) && i <= |es|
    ensures ps[i].Conserved() && ps[i].devices == devices
  {
    if i == 0 {
      IdleConserved(devices);
    } else {
      RunsConserve(devices, ps, es, i - 1);
      assert Enabled(ps[i - 1], es[i - 1]);
      StepConserves(ps[i - 1], es[i - 1]);
    }
  }

  /** A lost device never comes back: it stays lost, and no later state has it
      free, in a block, draining or quarantined. */
  lemma LostForGood(devices: seq<int>, ps: seq<Pool>, es: seq<Event>, i: nat, j: nat, d: int)
    requires IsRun(devices, ps, es) && i <= j <= |es| && d in ps[i].lost
    ensures d in ps[j].lost && d !in ps[j].free && d !in ps[j].quarantined
    ensures Reserved(ps[j].running, d) == 0 && Drained(ps[j].draining, d) == 0
  {
    LostStays(devices, ps, es, i, j, d);
    RunsConserve(devices, ps, es, j);
    assert ps[j].Places(d) <= 1;
  }

  lemma {:induction false} LostStays(devices: seq<int>, ps: seq<Pool>, es: seq<Event>, i: nat, j: nat, d: int)
    requires IsRun(devices, ps, es) && i <= j <= |es| && d in ps[i].lost
    ensures d in ps[j].lost
    decreases j
  {
    if i == j {
    } else {
      LostStays(devices, ps, es, i, j - 1, d);
      RunsConserve(devices, ps, es, j - 1);
      assert Enabled(ps[j - 1], es[j - 1]);
      StepConserves(ps[j - 1], es[j - 1]);
    }
  }

  /** At every point of every run the block of a running point is aligned: it
      starts at a multiple of its width in the node's list. */
  lemma BlocksAligned(devices: seq<int>, ps: seq<Pool>, es: seq<Event>, i: nat, a: nat) returns (k: nat)
    requires IsRun(devices, ps, es) && i <= |es| && a < |ps[i].running|
    ensures var block := ps[i].running[a].block;
      && IsAligned(devices, block)
      && k * |block| + |block| <= |devices| && block == devices[k * |block|..k * |block| + |block|]
  {
    RunsConserve(devices, ps, es, i);
    var block := ps[i].running[a].block;
    assert ps[i].running[a] in ps[i].running;
    k :| 0 <= k < |Blocks(devices, |block|)| && Blocks(devices, |block|)[k] == block;
    BlockAt(devices, |block|, k);
  }

  /** At no point of any run do two running points share a device, and all their
      blocks are aligned. */
  lemma BlocksDisjoint(devices: seq<int>, ps: seq<Pool>, es: seq<Event>, i: nat, a: nat, b: nat)
    requires IsRun(devices, ps, es) && i <= |es| && a < b < |ps[i].running|
    ensures Devs(ps[i].running[a].block) !! Devs(ps[i].running[b].block)
    ensures AllAligned(devices, ps[i].running)
  {
    RunsConserve(devices, ps, es, i);
    var running := ps[i].running;
    forall d | d in running[a].block ensures d !in running[b].block {
      ReservedSplit(running, b, d);
      var rest := running[..b] + running[b + 1..];
      assert rest[a] == running[a];
      ReservedSplit(rest, a, d);
      assert ps[i].Places(d) <= 1;
    }
  }

  // ------------------------------------------------------------ the class

  class Runner {
    const devices: seq<int>
    var free: set<int>
    var running: seq<Running>          // in the order they started
    var finished: seq<Finished>
    var draining: seq<Straggler>
    var quarantined: map<int, real>
    var lost: set<int>

    ghost function State(): Pool
      reads this
    {
      Pool(devices, free, running, finished, draining, quarantined, lost)
    }

    constructor (devices: seq<int>)
      ensures State() == Idle(devices) && State().Conserved()
    {
      this.devices := devices;
      free, running, finished, draining, quarantined, lost := Devs(devices), [], [], [], map[], {};
      new;
      IdleConserved(devices);
    }

    method LaunchPoint(id: int, w: nat) returns (block: Option<seq<int>>)
      requires State().Conserved() && w >= 1 && !HasId(running, id)
      modifies this
      ensures State().Conserved() && block == AlignedGroup(old(free), devices, w)
      ensures State() == if block.Some? then Launch(old(State()), id, block.value) else old(State())
    {
      block := FindGroup(free, devices, w);
      if block.Some? {
        LaunchConserves(State(), id, w, block.value);
        free := free - Devs(block.value);
        running := running + [Running(id, block.value)];
      }
    }

    method FinishPoint(id: int, stragglers: set<int>)
      requires State().Conserved() && Enabled(State(), Ended(id, stragglers))
      modifies this
      ensures State().Conserved() && State() == Finish(old(State()), id, stragglers)
    {
      FinishConserves(State(), id, stragglers);
      finished := finished + [Finished(id, stragglers)];
    }

    method SetDevicesAside(dirty: set<int>, now: real)
      requires State().Conserved() && dirty <= free
      modifies this
      ensures State().Conserved() && State() == Quarantine(old(State()), dirty, now)
    {
      QuarantineConserves(State(), dirty, now);
      free := free - dirty;
      quarantined := map d | d in quarantined.Keys + dirty :: if d in quarantined then quarantined[d] else now;
    }

    method DrainStragglers(exited: set<int>)
      modifies this
      ensures State() == DrainAll(old(State()), exited)
    {
      var left := draining;
      var i, kept, back := 0, [], {};
      assert left[0..] == left;
      while i < |left|
        invariant 0 <= i <= |left| && State() == old(State())
        invariant Drain(left, exited).0 == kept + Drain(left[i..], exited).0
        invariant Drain(left, exited).1 == back + Drain(left[i..], exited).1
      {
        assert left[i..][1..] == left[i + 1..];
        if left[i].servers <= exited {
          back := back + left[i].devices;
        } else {
          kept := kept + [left[i]];
        }
        i := i + 1;
      }
      draining := kept;
      free := free + back;
    }

    method SettlePoint(f: Finished)
      modifies this
      ensures State() == Settle(old(State()), f)
    {
      var i := 0;
      while i < |running| && running[i].id != f.id
        invariant 0 <= i <= |running| && State() == old(State())
        invariant i + IndexOf(running[i..], f.id) == IndexOf(running, f.id)
      {
        assert running[i..][1..] == running[i + 1..];
        i := i + 1;
      }
      if i < |running| {
        var block := running[i].block;
        running := running[..i] + running[i + 1..];
        if f.stragglers != {} {
          draining := draining + [Straggler(f.stragglers, Devs(block))];
        } else {
          free := free + Devs(block);
        }
      }
    }

    /** One pass over what has changed: clean devices, hopeless ones, servers
        that exited, points that finished. */
    method ReapAll(held: map<int, int>, now: real, giveUpS: real, exited: set<int>)
      requires State().Conserved()
      modifies this
      ensures State().Conserved() && State() == Reap(old(State()), held, now, giveUpS, exited)
    {
      ReapConserves(State(), held, now, giveUpS, exited);
      var done := finished;
      finished := [];
      SortQuarantined(held, now, giveUpS);
      DrainStragglers(exited);
      SettlePoints(done);
    }

    /** Quarantined devices that are clean again are free; those set aside for too
        long are lost. */
    method SortQuarantined(held: map<int, int>, now: real, giveUpS: real)
      modifies this
      ensures State() == GiveUp(Clean(old(State()), held), now, giveUpS)
    {
      var clean := set d | d in quarantined && d in held && held[d] <= DIRTY_MIB;
      quarantined := quarantined - clean;
      free := free + clean;
      var hopeless := set d | d in quarantined && now - quarantined[d] > giveUpS;
      quarantined := quarantined - hopeless;
      free := free - hopeless;
      lost := lost + hopeless;
    }

    method SettlePoints(done: seq<Finished>)
      modifies this
      ensures State() == SettleAll(old(State()), done, 0)
    {
      ghost var q := State();
      var k := 0;
      while k < |done|
        invariant 0 <= k <= |done|
        invariant SettleAll(State(), done, k) == SettleAll(q, done, 0)
      {
        SettlePoint(done[k]);
        k := k + 1;
      }
    }
  }
}
