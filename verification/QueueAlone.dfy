/** One job or operator at a time on the queue, stopping wherever it may
    (bench/campaign/fsqueue.py). */
module QueueAlone {
  import opened FsQueue
  import opened QueueSafety

  /** Nobody is at anything. */
  predicate Idle(s: State) {
    s.claims == map[] && s.moving == map[] && s.adding == map[]
  }

  predicate Begins(op: Op) {
    op.BeginAdd? || op.Rename? || op.Requeue? || op.Unblock? || op.Retry?
  }

  ghost predicate AllAlone(ops: seq<Op>)
    requires Legal(ops)
  {
    ops == [] ||
      (AllAlone(ops[..|ops| - 1]) && (Begins(ops[|ops| - 1]) ==> Idle(After(ops[..|ops| - 1]))))
  }

  /** What was written is there, apart from the file still to be removed. */
  ghost predicate Kept(s: State) {
    && (forall c :: c in s.claims && s.claims[c].Leaving? ==> !s.claims[c].dir.Running?)
    && (forall c :: c in s.claims && s.claims[c].Wrote? ==>
          !s.claims[c].dir.Running? && Loc(s.claims[c].dir, c.pid) in s.files)
    && (forall c :: c in s.claims && s.claims[c].Put? ==> Loc(Todo, c.pid) in s.files)
    && (forall l :: l in s.moving ==> l.dir.Blocked? || l.dir.Failed?)
    && (forall l :: l in s.moving && s.moving[l].Placed? ==> Loc(Todo, l.pid) in s.files)
  }

  ghost predicate Single(s: State) {
    && (forall x, y :: x in s.claims && y in s.claims ==> x == y)
    && (forall l, m :: l in s.moving && m in s.moving ==> l == m)
    && (s.claims == map[] || s.moving == map[])
  }

  ghost predicate NoneLost(s: State) {
    forall pid :: pid in s.known ==> Somewhere(s, pid)
  }

  ghost predicate AloneInv(s: State) {
    NoneLost(s) && Single(s) && Kept(s)
  }

  lemma AloneKeeps(s: State, op: Op)
    requires Single(s) && Kept(s) && Enabled(s, op) && (Begins(op) ==> Idle(s))
    ensures Single(Apply(s, op)) && Kept(Apply(s, op))
  {
    match op
    case Rename(c) => RenameAlone(s, c);
    case WriteNew(c) => WriteNewAlone(s, c);
    case WriteOut(c) => WriteOutAlone(s, c);
    case Drop(c) => DropAlone(s, c);
    case PutBack(l) => PutBackAlone(s, l);
    case TakeAway(l) => TakeAwayAlone(s, l);
    case Crash(job) => CrashAlone(s, job);
    case WriteOwner(_) => OwnerAlone(s, op);
    case Load(_) => OwnerAlone(s, op);
    case Finish(_, _) => ClaimAlone(s, op);
    case Release(_) => ClaimAlone(s, op);
    case Requeue(_, _) => ClaimAlone(s, op);
    case Disown(_) => OwnerAlone(s, op);
    case BeginAdd(c) => BeginAddAlone(s, c);
    case Look(c) => LookAlone(s, c);
    case _ => MoveAlone(s, op);
  }

  lemma RenameAlone(s: State, c: Claim)
    requires Enabled(s, Rename(c)) && Idle(s)
    ensures Single(Apply(s, Rename(c))) && Kept(Apply(s, Rename(c)))
  {
  }

  lemma WriteNewAlone(s: State, c: Claim)
    requires Single(s) && Kept(s) && Enabled(s, WriteNew(c))
    ensures Single(Apply(s, WriteNew(c))) && Kept(Apply(s, WriteNew(c)))
  {
  }

  lemma WriteOutAlone(s: State, c: Claim)
    requires Single(s) && Kept(s) && Enabled(s, WriteOut(c))
    ensures Single(Apply(s, WriteOut(c))) && Kept(Apply(s, WriteOut(c)))
  {
    match s.claims[c]
    case Leaving(dir, attempts) => WriteAlone(s, c, Loc(dir, c.pid), attempts, Wrote(dir));
    case Taken(attempts) => WriteAlone(s, c, Loc(Todo, c.pid), attempts, Put);
  }

  lemma WriteAlone(s: State, c: Claim, l: Loc, attempts: nat, phase: Phase)
    requires Single(s) && Kept(s) && c in s.claims && l.pid == c.pid && !l.dir.Running?
    requires phase == Wrote(l.dir) || (phase.Put? && l.dir.Todo?)
    ensures Single(At(Written(s, l, attempts), c, phase)) && Kept(At(Written(s, l, attempts), c, phase))
  {
  }

  lemma DropAlone(s: State, c: Claim)
    requires Single(s) && Kept(s) && Enabled(s, Drop(c))
    ensures Single(Apply(s, Drop(c))) && Kept(Apply(s, Drop(c)))
  {
  }

  lemma PutBackAlone(s: State, l: Loc)
    requires Single(s) && Kept(s) && Enabled(s, PutBack(l))
    ensures Single(Apply(s, PutBack(l))) && Kept(Apply(s, PutBack(l)))
  {
  }

  lemma TakeAwayAlone(s: State, l: Loc)
    requires Single(s) && Kept(s) && Enabled(s, TakeAway(l))
    ensures Single(Apply(s, TakeAway(l))) && Kept(Apply(s, TakeAway(l)))
  {
  }

  lemma CrashAlone(s: State, job: int)
    requires Single(s) && Kept(s) && Enabled(s, Crash(job))
    ensures Single(Apply(s, Crash(job))) && Kept(Apply(s, Crash(job)))
  {
  }

  lemma OwnerAlone(s: State, op: Op)
    requires op.WriteOwner? || op.Load? || op.Disown?
    requires Single(s) && Kept(s) && Enabled(s, op)
    ensures Single(Apply(s, op)) && Kept(Apply(s, op))
  {
  }

  lemma ClaimAlone(s: State, op: Op)
    requires op.Finish? || op.Release? || op.Requeue?
    requires Single(s) && Kept(s) && Enabled(s, op) && (op.Requeue? ==> Idle(s))
    ensures Single(Apply(s, op)) && Kept(Apply(s, op))
  {
  }

  lemma BeginAddAlone(s: State, c: Claim)
    requires Enabled(s, BeginAdd(c)) && Idle(s)
    ensures Single(Apply(s, BeginAdd(c))) && Kept(Apply(s, BeginAdd(c)))
  {
  }

  lemma LookAlone(s: State, c: Claim)
    requires Single(s) && Kept(s) && Enabled(s, Look(c))
    ensures Single(Apply(s, Look(c))) && Kept(Apply(s, Look(c)))
  {
  }

  lemma MoveAlone(s: State, op: Op)
    requires op.Unblock? || op.Retry? || op.Stop?
    requires Single(s) && Kept(s) && Enabled(s, op) && (Begins(op) ==> Idle(s))
    ensures Single(Apply(s, op)) && Kept(Apply(s, op))
  {
  }

  /** No point is lost by a step that leaves one of its files. */
  lemma AloneNoneLost(s: State, op: Op)
    requires AloneInv(s) && Enabled(s, op)
    ensures NoneLost(Apply(s, op))
  {
    var s' := Apply(s, op);
    forall pid | pid in s'.known ensures Somewhere(s', pid) {
      if !TouchesFiles(op) {
        FilesStay(s, op);
        KnownStay(s, op);
        SameSomewhere(s, s', pid);
      } else if pid == PointOf(op) {
        LeftSomewhere(s, op);
      } else {
        OthersSame(s, op, pid);
        SameSomewhere(s, s', pid);
      }
    }
  }

  lemma KnownStay(s: State, op: Op)
    requires Enabled(s, op) && !TouchesFiles(op)
    ensures Apply(s, op).known == s.known
  {
  }

  lemma LeftSomewhere(s: State, op: Op)
    requires Kept(s) && Enabled(s, op) && TouchesFiles(op)
    ensures Somewhere(Apply(s, op), PointOf(op))
  {
    var s' := Apply(s, op);
    match op
    case WriteNew(c) => assert Loc(Todo, c.pid) in s'.files;
    case Rename(c) => assert Loc(Running, c.pid) in s'.files;
    case WriteOut(c) => assert Loc(if s.claims[c].Leaving? then s.claims[c].dir else Todo, c.pid) in s'.files;
    case Drop(c) => assert Loc(if s.claims[c].Wrote? then s.claims[c].dir else Todo, c.pid) in s'.files;
    case PutBack(l) => assert Loc(Todo, l.pid) in s'.files;
    case TakeAway(l) => assert Loc(Todo, l.pid) in s'.files;
  }

  lemma {:induction false} AloneRunKeeps(ops: seq<Op>)
    requires Legal(ops) && AllAlone(ops)
    ensures AloneInv(After(ops))
  {
    if ops == [] {
    } else {
      var s, op := After(ops[..|ops| - 1]), ops[|ops| - 1];
      AloneRunKeeps(ops[..|ops| - 1]);
      AloneKeeps(s, op);
      AloneNoneLost(s, op);
    }
  }

  /** When one job or operator at a time works on the queue, stopping between any
      two of its file operations, those of a return to todo/, of `unblock`, of
      `retry` and of `add` included, leaves every point in some directory. */
  lemma CrashLosesNothing(ops: seq<Op>, stop: Op, pid: int)
    requires Legal(ops) && AllAlone(ops) && Enabled(After(ops), stop) && (stop.Crash? || stop.Stop?)
    requires pid in After(ops).known
    ensures exists d: Dir :: Loc(d, pid) in Apply(After(ops), stop).files
  {
    AloneRunKeeps(ops);
    FilesStay(After(ops), stop);
    assert Somewhere(After(ops), pid);
  }
}
