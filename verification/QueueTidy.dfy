/** Where a point of the queue is, and when it is there for good
    (bench/campaign/fsqueue.py). */
module QueueTidy {
  import opened FsQueue
  import opened QueueSafety

  // ------------------------------------------------------------ one directory

  /** A point is in two directories only while its holder has still to remove it
      from running/, or an operator from where it was moved back. */
  ghost predicate OnlyTwo(s: State, pid: int, d: Dir, d': Dir) {
    || (d.Running? && Leaves(s, pid, d'))
    || (d'.Running? && Leaves(s, pid, d))
    || (d.Todo? && Loc(d', pid) in s.moving && s.moving[Loc(d', pid)].Placed?)
    || (d'.Todo? && Loc(d, pid) in s.moving && s.moving[Loc(d, pid)].Placed?)
  }

  ghost predicate Leaves(s: State, pid: int, d: Dir) {
    exists c :: c in s.claims && c.pid == pid && IsLeaving(s.claims[c], d)
  }

  /** Written to `d`, and still to be removed from running/. */
  predicate IsLeaving(phase: Phase, d: Dir) {
    phase == Wrote(d) || (phase.Put? && d.Todo?)
  }

  ghost predicate Tidy(s: State, pid: int) {
    && (forall d: Dir, d': Dir ::
          Loc(d, pid) in s.files && Loc(d', pid) in s.files && d != d' ==> OnlyTwo(s, pid, d, d'))
    && (forall d: Dir :: Loc(d, pid) in s.moving ==> Loc(Running, pid) !in s.files)
  }

  /** What keeps a point in one place: it is added only when it is in none, and
      moved back only when it is not running. Jobs and operators do not stop
      between a write and the remove that follows it. */
  ghost predicate Neat(s: State, op: Op) {
    match op
    case WriteNew(c) => forall d: Dir :: Loc(d, c.pid) !in s.files
    case Unblock(pid) => Loc(Running, pid) !in s.files
    case Retry(pid) => Loc(Running, pid) !in s.files
    case Stop(l) => l in s.moving && s.moving[l].Loaded?
    case Crash(job) => NothingWritten(s, job)
    case _ => true
  }

  /** The job has no point written elsewhere and still to be removed from running/. */
  ghost predicate NothingWritten(s: State, job: int) {
    forall c :: c in s.claims && c.job == job ==> !s.claims[c].Wrote? && !s.claims[c].Put?
  }

  ghost predicate AllNeat(ops: seq<Op>)
    requires Legal(ops)
  {
    ops == [] || (AllNeat(ops[..|ops| - 1]) && Neat(After(ops[..|ops| - 1]), ops[|ops| - 1]))
  }

  lemma TidyStays(s: State, s': State, pid: int)
    requires Tidy(s, pid) && SameAt(s, s', pid)
    ensures Tidy(s', pid)
  {
    forall d: Dir, d': Dir | Loc(d, pid) in s'.files && Loc(d', pid) in s'.files && d != d'
      ensures OnlyTwo(s', pid, d, d')
    {
      assert OnlyTwo(s, pid, d, d');
      LeavesStays(s, s', pid, d);
      LeavesStays(s, s', pid, d');
    }
  }

  lemma LeavesStays(s: State, s': State, pid: int, d: Dir)
    requires forall c: Claim :: c.pid == pid && c in s.claims && IsLeaving(s.claims[c], d) ==>
      c in s'.claims && IsLeaving(s'.claims[c], d)
    ensures Leaves(s, pid, d) ==> Leaves(s', pid, d)
  {
    if Leaves(s, pid, d) {
      var c :| c in s.claims && c.pid == pid && IsLeaving(s.claims[c], d);
      assert c in s'.claims && IsLeaving(s'.claims[c], d);
    }
  }

  // ------------------------------------------------------------ step by step

  /** A step that leaves the files of the point, and what is under way with them. */
  lemma ClaimStepTidy(s: State, op: Op, pid: int)
    requires Tidy(s, pid) && Enabled(s, op)
    requires op.WriteOwner? || op.Load? || op.Finish? || op.Release? || op.Requeue? || op.Disown?
      || op.BeginAdd? || op.Look?
    ensures Tidy(Apply(s, op), pid)
  {
    var s' := Apply(s, op);
    SameFiles(s, op);
    forall d: Dir, d': Dir | Loc(d, pid) in s'.files && Loc(d', pid) in s'.files && d != d'
      ensures OnlyTwo(s', pid, d, d')
    {
      assert OnlyTwo(s, pid, d, d');
      StillLeaving(s, op, pid, d);
      StillLeaving(s, op, pid, d');
    }
  }

  lemma SameFiles(s: State, op: Op)
    requires Enabled(s, op)
    requires op.WriteOwner? || op.Load? || op.Finish? || op.Release? || op.Requeue? || op.Disown?
      || op.BeginAdd? || op.Look?
    ensures Apply(s, op).files == s.files && Apply(s, op).moving == s.moving
  {
  }

  lemma StillLeaving(s: State, op: Op, pid: int, d: Dir)
    requires Enabled(s, op)
    requires op.WriteOwner? || op.Load? || op.Finish? || op.Release? || op.Requeue? || op.Disown?
      || op.BeginAdd? || op.Look?
    ensures Leaves(s, pid, d) ==> Leaves(Apply(s, op), pid, d)
  {
    LeavesStays(s, Apply(s, op), pid, d);
  }

  lemma WriteNewTidy(s: State, c: Claim)
    requires PointOk(s, c.pid) && Enabled(s, WriteNew(c)) && Neat(s, WriteNew(c))
    ensures Tidy(Apply(s, WriteNew(c)), c.pid)
  {
    forall d: Dir ensures Loc(d, c.pid) in s.moving ==> MoveSound(s, Loc(d, c.pid)) {
    }
  }

  /** A claim that is guarded finds a tidy point in todo/ only. */
  lemma ClaimFindsAlone(s: State, c: Claim)
    requires PointOk(s, c.pid) && Tidy(s, c.pid) && Enabled(s, Rename(c)) && Guarded(s, Rename(c))
    ensures forall d: Dir :: Loc(d, c.pid) in s.files ==> d.Todo?
    ensures forall d: Dir :: Loc(d, c.pid) !in s.moving
  {
    BusyExactly(s, c.pid);
    forall d: Dir | Loc(d, c.pid) in s.files ensures d.Todo? {
      assert d != Todo ==> OnlyTwo(s, c.pid, d, Todo);
    }
    forall d: Dir ensures Loc(d, c.pid) in s.moving ==> MoveSound(s, Loc(d, c.pid)) {
    }
  }

  lemma RenameTidy(s: State, c: Claim)
    requires PointOk(s, c.pid) && Tidy(s, c.pid) && Enabled(s, Rename(c)) && Guarded(s, Rename(c))
    ensures Tidy(Apply(s, Rename(c)), c.pid)
  {
    ClaimFindsAlone(s, c);
  }

  /** A point whose holder has not written it elsewhere is in running/ alone. */
  lemma OnlyRunning(s: State, c: Claim)
    requires PointOk(s, c.pid) && Tidy(s, c.pid) && c in s.claims && There(s.claims[c])
    requires !s.claims[c].Wrote? && !s.claims[c].Put?
    ensures Loc(Running, c.pid) in s.files && forall d: Dir :: Loc(d, c.pid) in s.files ==> d.Running?
    ensures forall d: Dir :: Loc(d, c.pid) !in s.moving
  {
    assert Sound(s, c);
    forall d: Dir ensures Loc(d, c.pid) in s.moving ==> MoveSound(s, Loc(d, c.pid)) {
    }
    forall d: Dir ensures Loc(d, c.pid) in s.files && !d.Running? ==> OnlyTwo(s, c.pid, Running, d) {
    }
  }

  lemma WriteOutTidy(s: State, c: Claim)
    requires PointOk(s, c.pid) && Tidy(s, c.pid) && Enabled(s, WriteOut(c))
    ensures Tidy(Apply(s, WriteOut(c)), c.pid)
  {
    var s' := Apply(s, WriteOut(c));
    OnlyRunning(s, c);
    var dir := if s.claims[c].Leaving? then s.claims[c].dir else Todo;
    assert IsLeaving(s'.claims[c], dir) && c in s'.claims;
    assert Leaves(s', c.pid, dir);
  }

  lemma DropTidy(s: State, c: Claim)
    requires PointOk(s, c.pid) && Tidy(s, c.pid) && Enabled(s, Drop(c))
    ensures Tidy(Apply(s, Drop(c)), c.pid)
  {
    var s' := Apply(s, Drop(c));
    assert Sound(s, c);
    forall d: Dir, d': Dir | Loc(d, c.pid) in s'.files && Loc(d', c.pid) in s'.files && d != d'
      ensures OnlyTwo(s', c.pid, d, d')
    {
      assert OnlyTwo(s, c.pid, d, d');
    }
  }

  lemma BeginMoveTidy(s: State, l: Loc, attempts: nat)
    requires Tidy(s, l.pid) && l !in s.moving && Loc(Running, l.pid) !in s.files
    ensures Tidy(s.(moving := s.moving[l := Loaded(attempts)]), l.pid)
  {
    var s' := s.(moving := s.moving[l := Loaded(attempts)]);
    forall d: Dir, d': Dir | Loc(d, l.pid) in s'.files && Loc(d', l.pid) in s'.files && d != d'
      ensures OnlyTwo(s', l.pid, d, d')
    {
      assert OnlyTwo(s, l.pid, d, d');
    }
  }

  lemma PutBackTidy(s: State, l: Loc)
    requires PointOk(s, l.pid) && Tidy(s, l.pid) && Enabled(s, PutBack(l))
    ensures Tidy(Apply(s, PutBack(l)), l.pid)
  {
    assert MoveSound(s, Loc(l.dir, l.pid));
    forall d: Dir ensures Loc(d, l.pid) in s.moving ==> MoveSound(s, Loc(d, l.pid)) {
    }
    forall d: Dir ensures Loc(d, l.pid) in s.files && d != l.dir ==> OnlyTwo(s, l.pid, l.dir, d) {
    }
  }

  lemma TakeAwayTidy(s: State, l: Loc)
    requires Tidy(s, l.pid) && Enabled(s, TakeAway(l)) && PointOk(s, l.pid)
    ensures Tidy(Apply(s, TakeAway(l)), l.pid)
  {
    var s' := Apply(s, TakeAway(l));
    assert MoveSound(s, Loc(l.dir, l.pid));
    forall d: Dir, d': Dir | Loc(d, l.pid) in s'.files && Loc(d', l.pid) in s'.files && d != d'
      ensures OnlyTwo(s', l.pid, d, d')
    {
      assert OnlyTwo(s, l.pid, d, d');
      LeavesStays(s, s', l.pid, d);
      LeavesStays(s, s', l.pid, d');
    }
  }

  lemma StopTidy(s: State, l: Loc)
    requires Tidy(s, l.pid) && Enabled(s, Stop(l)) && Neat(s, Stop(l))
    ensures Tidy(Apply(s, Stop(l)), l.pid)
  {
    var s' := Apply(s, Stop(l));
    forall d: Dir, d': Dir | Loc(d, l.pid) in s'.files && Loc(d', l.pid) in s'.files && d != d'
      ensures OnlyTwo(s', l.pid, d, d')
    {
      assert OnlyTwo(s, l.pid, d, d');
      LeavesStays(s, s', l.pid, d);
      LeavesStays(s, s', l.pid, d');
    }
  }

  lemma CrashTidy(s: State, job: int, pid: int)
    requires Tidy(s, pid) && Enabled(s, Crash(job)) && NothingWritten(s, job)
    ensures Tidy(Apply(s, Crash(job)), pid)
  {
    var s' := Apply(s, Crash(job));
    forall d: Dir, d': Dir | Loc(d, pid) in s'.files && Loc(d', pid) in s'.files && d != d'
      ensures OnlyTwo(s', pid, d, d')
    {
      assert OnlyTwo(s, pid, d, d');
      LeavesStays(s, s', pid, d);
      LeavesStays(s, s', pid, d');
    }
  }

  lemma PointTidy(s: State, op: Op)
    requires Enabled(s, op) && Guarded(s, op) && Neat(s, op) && !op.Crash?
    requires PointOk(s, PointOf(op)) && Tidy(s, PointOf(op))
    ensures Tidy(Apply(s, op), PointOf(op))
  {
    var pid := PointOf(op);
    match op
    case WriteNew(c) => WriteNewTidy(s, c);
    case Rename(c) => RenameTidy(s, c);
    case WriteOut(c) => WriteOutTidy(s, c);
    case Drop(c) => DropTidy(s, c);
    case Unblock(pid) => BeginMoveTidy(s, Loc(Blocked, pid), s.files[Loc(Blocked, pid)]);
    case Retry(pid) => BeginMoveTidy(s, Loc(Failed, pid), 0);
    case PutBack(l) => PutBackTidy(s, l);
    case TakeAway(l) => TakeAwayTidy(s, l);
    case Stop(l) => StopTidy(s, l);
    case _ => ClaimStepTidy(s, op, pid);
  }

  lemma StepTidy(s: State, op: Op, pid: int)
    requires Inv(s) && Enabled(s, op) && Guarded(s, op) && Neat(s, op) && Tidy(s, pid)
    ensures Tidy(Apply(s, op), pid)
  {
    assert PointOk(s, pid);
    if op.Crash? {
      CrashTidy(s, op.job, pid);
    } else if pid == PointOf(op) {
      PointTidy(s, op);
    } else {
      OthersSame(s, op, pid);
      TidyStays(s, Apply(s, op), pid);
    }
  }

  /** In a guarded run in which points are added once, moved back while they do not
      run, and nobody stops between a write and the remove after it, a point added
      is in one directory, or in two while its holder or the operator has still to
      remove it from the first. */
  lemma {:induction false} OneDirectory(ops: seq<Op>, pid: int)
    requires Legal(ops) && AllGuarded(ops) && AllNeat(ops)
    ensures pid in After(ops).known ==> Somewhere(After(ops), pid)
    ensures Tidy(After(ops), pid)
  {
    RunKeeps(ops);
    assert PointOk(After(ops), pid);
    if ops == [] {
    } else {
      OneDirectory(ops[..|ops| - 1], pid);
      RunKeeps(ops[..|ops| - 1]);
      StepTidy(After(ops[..|ops| - 1]), ops[|ops| - 1], pid);
    }
  }

  // ------------------------------------------------------------ stops

  ghost predicate AllTidy(s: State) {
    forall pid :: Tidy(s, pid)
  }

  /** A job may stop anywhere but between a write and the remove after it. */
  lemma CrashTidyExactly(s: State, job: int)
    requires Inv(s) && AllTidy(s) && Enabled(s, Crash(job))
    ensures AllTidy(Apply(s, Crash(job))) <==> NothingWritten(s, job)
  {
    var s' := Apply(s, Crash(job));
    if NothingWritten(s, job) {
      forall pid ensures Tidy(s', pid) {
        CrashTidy(s, job, pid);
      }
    } else {
      var c :| c in s.claims && c.job == job && (s.claims[c].Wrote? || s.claims[c].Put?);
      LeftInTwo(s, c);
    }
  }

  /** A point written elsewhere by a job that then ends is in two directories. */
  lemma LeftInTwo(s: State, c: Claim)
    requires Inv(s) && AllTidy(s) && Enabled(s, Crash(c.job))
    requires c in s.claims && (s.claims[c].Wrote? || s.claims[c].Put?)
    ensures !Tidy(Apply(s, Crash(c.job)), c.pid)
  {
    var s', pid := Apply(s, Crash(c.job)), c.pid;
    assert PointOk(s, pid) && Sound(s, c) && Tidy(s, pid);
    var d: Dir :| !d.Running? && Loc(d, pid) in s.files;
    assert !OnlyTwo(s', pid, Running, d);
  }

  // ------------------------------------------------------------ done for good

  /** A tidy point that is done is not waiting too, so none can claim it. */
  lemma DoneIsNotWaiting(s: State, pid: int)
    requires PointOk(s, pid) && Tidy(s, pid) && Loc(Done, pid) in s.files
    ensures Loc(Todo, pid) !in s.files
  {
    assert Loc(Done, pid) in s.moving ==> MoveSound(s, Loc(Done, pid));
    assert Loc(Todo, pid) in s.files ==> OnlyTwo(s, pid, Todo, Done);
  }

  /** No step takes a point out of done/. */
  lemma DoneStays(s: State, op: Op, pid: int)
    requires Inv(s) && Enabled(s, op) && Loc(Done, pid) in s.files
    ensures Loc(Done, pid) in Apply(s, op).files
  {
    if op.TakeAway? {
      assert PointOk(s, op.l.pid) && MoveSound(s, Loc(op.l.dir, op.l.pid));
    } else if !TouchesFiles(op) {
      FilesStay(s, op);
    }
  }

  lemma DoneNow(ops: seq<Op>, pid: int)
    requires Legal(ops) && AllGuarded(ops) && AllNeat(ops) && Loc(Done, pid) in After(ops).files
    ensures Loc(Todo, pid) !in After(ops).files
  {
    RunKeeps(ops);
    assert PointOk(After(ops), pid);
    OneDirectory(ops, pid);
    DoneIsNotWaiting(After(ops), pid);
  }

  ghost predicate NoClaim(ops: seq<Op>, pid: int) {
    forall op :: op in ops && op.Rename? ==> op.c.pid != pid
  }

  lemma NoClaimNext(ops: seq<Op>, pid: int)
    requires ops != [] && NoClaim(ops[..|ops| - 1], pid)
    requires ops[|ops| - 1].Rename? ==> ops[|ops| - 1].c.pid != pid
    ensures NoClaim(ops, pid)
  {
    assert ops == ops[..|ops| - 1] + [ops[|ops| - 1]];
  }

  /** In such a run a measured point is final: it stays in done/, is never in todo/
      again, and so is not claimed again. */
  lemma {:induction false} DoneIsFinal(before: seq<Op>, ops: seq<Op>, pid: int)
    requires Legal(before) && Legal(before + ops) && AllGuarded(before + ops) && AllNeat(before + ops)
    requires Loc(Done, pid) in After(before).files
    ensures Loc(Done, pid) in After(before + ops).files && Loc(Todo, pid) !in After(before + ops).files
    ensures NoClaim(ops, pid)
  {
    if ops == [] {
      assert before + ops == before;
    } else {
      var n := |ops| - 1;
      assert (before + ops)[..|before| + n] == before + ops[..n];
      DoneIsFinal(before, ops[..n], pid);
      RunKeeps(before + ops[..n]);
      DoneStays(After(before + ops[..n]), ops[n], pid);
      NoClaimNext(ops, pid);
    }
    DoneNow(before + ops, pid);
  }

  /** What breaks it is a stop after the write to done/: the point is then left in
      running/ as well, where a requeue may take it for one that was abandoned. */
  lemma StoppedBeforeRemove(s: State, c: Claim)
    requires Inv(s) && AllTidy(s) && Enabled(s, Crash(c.job)) && c in s.claims && s.claims[c] == Wrote(Done)
    ensures var s' := Apply(s, Crash(c.job));
      Loc(Done, c.pid) in s'.files && Loc(Running, c.pid) in s'.files && Abandoned(s', c.pid)
  {
    var pid := c.pid;
    assert PointOk(s, pid) && Sound(s, c) && Tidy(s, pid);
    var d: Dir :| !d.Running? && Loc(d, pid) in s.files;
    assert OnlyTwo(s, pid, Running, d);
  }
}
