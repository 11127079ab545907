/** What several jobs and operators that drain one queue keep, when no claim meets
    a point that is being put back, and no requeue one that is being claimed
    (bench/campaign/fsqueue.py). */
module QueueSafety {
  import opened FsQueue

  // ------------------------------------------------------------ the condition

  /** No live job has still to remove its owner file of the point. */
  ghost predicate Disowned(s: State, pid: int) {
    forall x :: x in s.claims && x.pid == pid ==> !s.claims[x].Dropped? && !s.claims[x].Cleared?
  }

  /** No live job is between its rename of the point and its owner file, and none
      is putting it back. */
  ghost predicate Settled(s: State, pid: int) {
    forall x :: x in s.claims && x.pid == pid ==> !s.claims[x].Renamed? && !s.claims[x].Taken? && !s.claims[x].Put?
  }

  /** The point was left in running/: its owner has ended, or it has none, and it
      is neither being claimed nor being put back. */
  ghost predicate Abandoned(s: State, pid: int) {
    LooksStale(s, pid) && Settled(s, pid)
  }

  /** No operator who wrote the point to todo/ has still to remove it from where
      it was. */
  ghost predicate FullyMoved(s: State, pid: int) {
    forall d: Dir :: Loc(d, pid) in s.moving ==> !s.moving[Loc(d, pid)].Placed?
  }

  /** What the code leaves to luck: a claim finds no file in running/, or an
      abandoned one, with no owner file and no moved file still to be removed; a
      requeue is of an abandoned point. */
  ghost predicate Guarded(s: State, op: Op) {
    match op
    case Rename(c) =>
      && (Loc(Running, c.pid) in s.files ==> Abandoned(s, c.pid))
      && Disowned(s, c.pid) && FullyMoved(s, c.pid)
    case Requeue(c, _) => Abandoned(s, c.pid)
    case _ => true
  }

  ghost predicate AllGuarded(ops: seq<Op>)
    requires Legal(ops)
  {
    ops == [] || (AllGuarded(ops[..|ops| - 1]) && Guarded(After(ops[..|ops| - 1]), ops[|ops| - 1]))
  }

  // ------------------------------------------------------------ the invariant

  ghost predicate Somewhere(s: State, pid: int) {
    exists d: Dir :: Loc(d, pid) in s.files
  }

  ghost predicate Elsewhere(s: State, pid: int) {
    exists d: Dir :: !d.Running? && Loc(d, pid) in s.files
  }

  /** A live job is at work on the point, whatever at. */
  ghost predicate Busy(s: State, pid: int) {
    exists x :: x in s.claims && x.pid == pid
  }

  predicate Claimed(phase: Phase) {
    !phase.Taken? && !phase.Put? && !phase.Cleared?
  }

  /** The file in running/ is still to be removed. */
  predicate There(phase: Phase) {
    !phase.Dropped? && !phase.Cleared?
  }

  ghost predicate HasThere(s: State, pid: int) {
    exists x :: x in s.claims && x.pid == pid && There(s.claims[x])
  }

  /** What holds of a live job at work on a point: the file is in running/ until it
      removes it, and not after; a claimer is the last to have claimed it, and from its
      owner file on that file names it; what it wrote elsewhere is not lost. */
  ghost predicate Sound(s: State, c: Claim) {
    c in s.claims && c.job !in s.dead &&
    var phase := s.claims[c];
    && (There(phase) <==> Loc(Running, c.pid) in s.files)
    && (Claimed(phase) ==> c.pid in s.lastClaim && s.lastClaim[c.pid] == c.job)
    && (Claimed(phase) && !phase.Renamed? ==> c.pid in s.owners && s.owners[c.pid] == c.job)
    && (phase.Leaving? || phase.Wrote? ==> !phase.dir.Running?)
    && (phase.Leaving? && (phase.dir.Todo? || phase.dir.Blocked?) ==> phase.attempts < MAX_ATTEMPTS)
    && (phase.Taken? ==> phase.attempts < MAX_ATTEMPTS)
    && (phase.Wrote? || phase.Put? ==> Elsewhere(s, c.pid))
  }

  /** What holds of a point being moved back: its file is still there, and once
      written the one in todo/ is too. */
  ghost predicate MoveSound(s: State, l: Loc) {
    && l in s.moving && l in s.files && (l.dir.Blocked? || l.dir.Failed?)
    && (s.moving[l].Loaded? ==> s.moving[l].attempts < MAX_ATTEMPTS)
    && (s.moving[l].Placed? ==> Loc(Todo, l.pid) in s.files)
  }

  /** What holds of one point: at most one live job is at work on it, whatever
      at; once added it is in some directory; where it can still be tried it has
      attempts left; while no job has ended, a live one has it in running/; and a
      live job named by its owner file is at work on it. */
  ghost predicate PointOk(s: State, pid: int) {
    && (forall x, y :: x in s.claims && y in s.claims && x.pid == y.pid == pid ==> x == y)
    && (forall x {:trigger Sound(s, x)} :: x in s.claims && x.pid == pid ==> Sound(s, x))
    && (forall d: Dir {:trigger Loc(d, pid)} :: Loc(d, pid) in s.moving ==> MoveSound(s, Loc(d, pid)))
    && (pid in s.known ==> Somewhere(s, pid))
    && (forall d: Dir :: Loc(d, pid) in s.files ==>
          && pid in s.known
          && (d.Todo? || d.Running? || d.Blocked? ==> s.files[Loc(d, pid)] < MAX_ATTEMPTS))
    && (s.dead == {} && Loc(Running, pid) in s.files ==> HasThere(s, pid))
    && (!LooksStale(s, pid) ==> Claim(s.owners[pid], pid) in s.claims)
  }

  ghost predicate Inv(s: State) {
    forall pid :: PointOk(s, pid)
  }

  // ------------------------------------------------------------ it is kept

  /** A step on one point leaves the others alone. */
  ghost predicate SameAt(s: State, s': State, pid: int) {
    && s'.dead == s.dead
    && (pid in s'.known <==> pid in s.known)
    && (forall l: Loc :: l.pid == pid ==> (l in s'.files <==> l in s.files))
    && (forall l: Loc :: l.pid == pid && l in s.files ==> s'.files[l] == s.files[l])
    && (forall l: Loc :: l.pid == pid ==> (l in s'.moving <==> l in s.moving))
    && (forall l: Loc :: l.pid == pid && l in s.moving ==> s'.moving[l] == s.moving[l])
    && (forall x: Claim :: x.pid == pid ==> (x in s'.claims <==> x in s.claims))
    && (forall x: Claim :: x.pid == pid && x in s.claims ==> s'.claims[x] == s.claims[x])
    && (pid in s'.owners <==> pid in s.owners) && (pid in s.owners ==> s'.owners[pid] == s.owners[pid])
    && (pid in s'.lastClaim <==> pid in s.lastClaim) && (pid in s.lastClaim ==> s'.lastClaim[pid] == s.lastClaim[pid])
  }

  lemma StaysOk(s: State, s': State, pid: int)
    requires PointOk(s, pid) && SameAt(s, s', pid)
    ensures PointOk(s', pid)
  {
    SameSomewhere(s, s', pid);
    forall x | x in s'.claims && x.pid == pid ensures Sound(s', x) {
      SoundStays(s, s', x);
    }
    if HasThere(s, pid) {
      var x :| x in s.claims && x.pid == pid && There(s.claims[x]);
      assert x in s'.claims && There(s'.claims[x]);
    }
  }

  lemma SoundStays(s: State, s': State, x: Claim)
    requires PointOk(s, x.pid) && SameAt(s, s', x.pid) && x in s.claims
    ensures Sound(s', x)
  {
    assert Sound(s, x);
    SameSomewhere(s, s', x.pid);
  }

  lemma SameSomewhere(s: State, s': State, pid: int)
    requires forall d: Dir :: Loc(d, pid) in s.files ==> Loc(d, pid) in s'.files
    ensures Somewhere(s, pid) ==> Somewhere(s', pid)
    ensures Elsewhere(s, pid) ==> Elsewhere(s', pid)
  {
    if Somewhere(s, pid) {
      var d: Dir :| Loc(d, pid) in s.files;
      assert Loc(d, pid) in s'.files;
    }
    if Elsewhere(s, pid) {
      var d: Dir :| !d.Running? && Loc(d, pid) in s.files;
      assert Loc(d, pid) in s'.files;
    }
  }

  /** The point a step is on, unless a job ends. */
  function PointOf(op: Op): int
    requires !op.Crash?
  {
    match op
    case BeginAdd(c) => c.pid
    case Look(c) => c.pid
    case WriteNew(c) => c.pid
    case Rename(c) => c.pid
    case WriteOwner(c) => c.pid
    case Load(c) => c.pid
    case Finish(c, _) => c.pid
    case Release(c) => c.pid
    case Requeue(c, _) => c.pid
    case WriteOut(c) => c.pid
    case Drop(c) => c.pid
    case Disown(c) => c.pid
    case Unblock(pid) => pid
    case Retry(pid) => pid
    case PutBack(l) => l.pid
    case TakeAway(l) => l.pid
    case Stop(l) => l.pid
  }

  lemma OthersSame(s: State, op: Op, pid: int)
    requires Enabled(s, op) && !op.Crash? && pid != PointOf(op)
    ensures SameAt(s, Apply(s, op), pid)
  {
    if TouchesFiles(op) {
      SameForFiles(s, op, pid);
    } else {
      match op {
        case BeginAdd(_) => SameForLook(s, op, pid);
        case Look(_) => SameForLook(s, op, pid);
        case Unblock(_) => SameForMove(s, op, pid);
        case Retry(_) => SameForMove(s, op, pid);
        case Stop(_) => SameForMove(s, op, pid);
        case _ => SameForClaims(s, op, pid);
      }
    }
  }

  lemma OthersStay(s: State, op: Op, pid: int)
    requires Enabled(s, op) && !op.Crash? && pid != PointOf(op) && PointOk(s, pid)
    ensures PointOk(Apply(s, op), pid)
  {
    OthersSame(s, op, pid);
    StaysOk(s, Apply(s, op), pid);
  }

  lemma SameForFiles(s: State, op: Op, pid: int)
    requires Enabled(s, op) && TouchesFiles(op) && pid != PointOf(op)
    ensures SameAt(s, Apply(s, op), pid)
  {
    match op
    case WriteNew(c) => SameForWriteNew(s, c, pid);
    case Rename(c) => SameForRename(s, c, pid);
    case WriteOut(c) => SameForWriteOut(s, c, pid);
    case Drop(c) => SameForDrop(s, c, pid);
    case PutBack(l) => SameForPutBack(s, l, pid);
    case TakeAway(l) => SameForTakeAway(s, l, pid);
  }

  lemma SameForLook(s: State, op: Op, pid: int)
    requires (op.BeginAdd? || op.Look?) && Enabled(s, op)
    ensures SameAt(s, Apply(s, op), pid)
  {
  }

  lemma SameForWriteNew(s: State, c: Claim, pid: int)
    requires Enabled(s, WriteNew(c)) && pid != c.pid
    ensures SameAt(s, Apply(s, WriteNew(c)), pid)
  {
  }

  lemma SameForRename(s: State, c: Claim, pid: int)
    requires Enabled(s, Rename(c)) && pid != c.pid
    ensures SameAt(s, Apply(s, Rename(c)), pid)
  {
  }

  lemma SameForWriteOut(s: State, c: Claim, pid: int)
    requires Enabled(s, WriteOut(c)) && pid != c.pid
    ensures SameAt(s, Apply(s, WriteOut(c)), pid)
  {
    match s.claims[c]
    case Leaving(dir, attempts) => SameForWrite(s, c, Loc(dir, c.pid), attempts, Wrote(dir), pid);
    case Taken(attempts) => SameForWrite(s, c, Loc(Todo, c.pid), attempts, Put, pid);
  }

  lemma SameForWrite(s: State, c: Claim, l: Loc, attempts: nat, phase: Phase, pid: int)
    requires pid != c.pid == l.pid
    ensures SameAt(s, At(Written(s, l, attempts), c, phase), pid)
  {
  }

  lemma SameForDrop(s: State, c: Claim, pid: int)
    requires Enabled(s, Drop(c)) && pid != c.pid
    ensures SameAt(s, Apply(s, Drop(c)), pid)
  {
  }

  lemma SameForClaims(s: State, op: Op, pid: int)
    requires op.WriteOwner? || op.Load? || op.Finish? || op.Release? || op.Requeue? || op.Disown?
    requires Enabled(s, op) && pid != op.c.pid
    ensures SameAt(s, Apply(s, op), pid)
  {
  }

  lemma SameForMove(s: State, op: Op, pid: int)
    requires (op.Unblock? || op.Retry? || op.Stop?) && Enabled(s, op) && pid != PointOf(op)
    ensures SameAt(s, Apply(s, op), pid)
  {
  }

  lemma SameForPutBack(s: State, l: Loc, pid: int)
    requires Enabled(s, PutBack(l)) && pid != l.pid
    ensures SameAt(s, Apply(s, PutBack(l)), pid)
  {
  }

  lemma SameForTakeAway(s: State, l: Loc, pid: int)
    requires Enabled(s, TakeAway(l)) && pid != l.pid
    ensures SameAt(s, Apply(s, TakeAway(l)), pid)
  {
  }

  // ------------------------------------------------------------ step by step

  /** A job goes on with a point, its files staying as they are. */
  lemma AdvanceKeeps(s: State, c: Claim, phase: Phase, owners: map<int, int>)
    requires PointOk(s, c.pid) && c in s.claims && There(phase) && Claimed(phase) && !phase.Renamed?
    requires Sound(At(s, c, phase).(owners := owners), c)
    ensures PointOk(At(s, c, phase).(owners := owners), c.pid)
  {
    var s' := At(s, c, phase).(owners := owners);
    SameSomewhere(s, s', c.pid);
    assert c in s'.claims && There(s'.claims[c]);
  }

  lemma WriteNewKeeps(s: State, c: Claim)
    requires PointOk(s, c.pid) && Enabled(s, WriteNew(c))
    ensures PointOk(Apply(s, WriteNew(c)), c.pid)
  {
    var s' := Apply(s, WriteNew(c));
    assert Loc(Todo, c.pid) in s'.files;
    SameSomewhere(s, s', c.pid);
    forall x | x in s'.claims && x.pid == c.pid ensures Sound(s', x) {
      assert Sound(s, x);
    }
    forall d: Dir | Loc(d, c.pid) in s'.moving ensures MoveSound(s', Loc(d, c.pid)) {
      assert MoveSound(s, Loc(d, c.pid));
    }
    if HasThere(s, c.pid) {
      var x :| x in s.claims && x.pid == c.pid && There(s.claims[x]);
      assert x in s'.claims && There(s'.claims[x]);
    }
  }

  lemma LookKeeps(s: State, op: Op)
    requires Enabled(s, op) && (op.BeginAdd? || op.Look?) && PointOk(s, op.c.pid)
    ensures PointOk(Apply(s, op), op.c.pid)
  {
    SameForLook(s, op, op.c.pid);
    StaysOk(s, Apply(s, op), op.c.pid);
  }

  /** A live job is at work on a point exactly when the file in running/ is not
      abandoned, or an owner file is still to be removed. */
  lemma BusyExactly(s: State, pid: int)
    requires PointOk(s, pid)
    ensures Busy(s, pid) <==> (Loc(Running, pid) in s.files && !Abandoned(s, pid)) || !Disowned(s, pid)
    ensures Loc(Running, pid) in s.files ==> Disowned(s, pid)
  {
    forall x ensures x in s.claims && x.pid == pid ==> Sound(s, x) {
    }
    if !LooksStale(s, pid) {
      assert Claim(s.owners[pid], pid) in s.claims;
    }
  }

  /** A claim of a point no live job is at work on, nor an operator half-way. */
  lemma ClaimKeeps(s: State, c: Claim)
    requires PointOk(s, c.pid) && Enabled(s, Rename(c)) && !Busy(s, c.pid) && FullyMoved(s, c.pid)
    ensures PointOk(Apply(s, Rename(c)), c.pid)
  {
    var s' := Apply(s, Rename(c));
    assert Loc(Running, c.pid) in s'.files;
    assert c in s'.claims && There(s'.claims[c]);
    assert Sound(s', c);
    forall d: Dir | Loc(d, c.pid) in s'.moving ensures MoveSound(s', Loc(d, c.pid)) {
      assert MoveSound(s, Loc(d, c.pid));
    }
  }

  lemma RenameKeeps(s: State, c: Claim)
    requires PointOk(s, c.pid) && Enabled(s, Rename(c)) && Guarded(s, Rename(c))
    ensures PointOk(Apply(s, Rename(c)), c.pid)
  {
    BusyExactly(s, c.pid);
    ClaimKeeps(s, c);
  }

  lemma RequeueKeeps(s: State, c: Claim, jobsKnown: bool)
    requires PointOk(s, c.pid) && Enabled(s, Requeue(c, jobsKnown)) && Guarded(s, Requeue(c, jobsKnown))
    ensures PointOk(Apply(s, Requeue(c, jobsKnown)), c.pid)
  {
    var s' := Apply(s, Requeue(c, jobsKnown));
    BusyExactly(s, c.pid);
    SameSomewhere(s, s', c.pid);
    assert c in s'.claims && There(s'.claims[c]);
    assert Sound(s', c);
    forall d: Dir | Loc(d, c.pid) in s'.moving ensures MoveSound(s', Loc(d, c.pid)) {
      assert MoveSound(s, Loc(d, c.pid));
    }
  }

  lemma WriteOutKeeps(s: State, c: Claim)
    requires PointOk(s, c.pid) && Enabled(s, WriteOut(c))
    ensures PointOk(Apply(s, WriteOut(c)), c.pid)
  {
    var s' := Apply(s, WriteOut(c));
    assert Sound(s, c);
    var to := if s.claims[c].Leaving? then s.claims[c].dir else Todo;
    assert Loc(to, c.pid) in s'.files;
    assert c in s'.claims && There(s'.claims[c]);
    assert Sound(s', c);
    forall d: Dir | Loc(d, c.pid) in s'.moving ensures MoveSound(s', Loc(d, c.pid)) {
      assert MoveSound(s, Loc(d, c.pid));
    }
  }

  lemma DropKeeps(s: State, c: Claim)
    requires PointOk(s, c.pid) && Enabled(s, Drop(c))
    ensures PointOk(Apply(s, Drop(c)), c.pid)
  {
    var s' := Apply(s, Drop(c));
    assert Sound(s, c);
    var d: Dir :| !d.Running? && Loc(d, c.pid) in s.files;
    assert Loc(d, c.pid) in s'.files;
    assert Sound(s', c);
    forall d: Dir | Loc(d, c.pid) in s'.moving ensures MoveSound(s', Loc(d, c.pid)) {
      assert MoveSound(s, Loc(d, c.pid));
    }
  }

  lemma DisownKeeps(s: State, c: Claim)
    requires PointOk(s, c.pid) && Enabled(s, Disown(c))
    ensures PointOk(Apply(s, Disown(c)), c.pid)
  {
    var s' := Apply(s, Disown(c));
    assert Sound(s, c);
    SameSomewhere(s, s', c.pid);
    forall d: Dir | Loc(d, c.pid) in s'.moving ensures MoveSound(s', Loc(d, c.pid)) {
      assert MoveSound(s, Loc(d, c.pid));
    }
  }

  /** An operator's step leaves what live jobs are at as it was. */
  ghost predicate MovesOnly(s: State, s': State, pid: int) {
    && s'.claims == s.claims && s'.owners == s.owners && s'.lastClaim == s.lastClaim
    && s'.dead == s.dead && s'.known == s.known
    && (Loc(Running, pid) in s'.files <==> Loc(Running, pid) in s.files)
    && (Elsewhere(s, pid) ==> Elsewhere(s', pid))
  }

  lemma MoveKeeps(s: State, s': State, pid: int)
    requires PointOk(s, pid) && MovesOnly(s, s', pid) && (pid in s.known ==> Somewhere(s', pid))
    requires forall d: Dir :: Loc(d, pid) in s'.moving ==> MoveSound(s', Loc(d, pid))
    requires forall d: Dir :: Loc(d, pid) in s'.files ==>
      && pid in s.known
      && (d.Todo? || d.Running? || d.Blocked? ==> s'.files[Loc(d, pid)] < MAX_ATTEMPTS)
    ensures PointOk(s', pid)
  {
    forall x | x in s'.claims && x.pid == pid ensures Sound(s', x) {
      assert Sound(s, x);
    }
    if HasThere(s, pid) {
      var x :| x in s.claims && x.pid == pid && There(s.claims[x]);
      assert x in s'.claims && There(s'.claims[x]);
    }
  }

  lemma BeginMoveKeeps(s: State, l: Loc, attempts: nat)
    requires PointOk(s, l.pid) && l in s.files && (l.dir.Blocked? || l.dir.Failed?) && attempts < MAX_ATTEMPTS
    ensures PointOk(s.(moving := s.moving[l := Loaded(attempts)]), l.pid)
  {
    var s' := s.(moving := s.moving[l := Loaded(attempts)]);
    SameSomewhere(s, s', l.pid);
    forall d: Dir | Loc(d, l.pid) in s'.moving ensures MoveSound(s', Loc(d, l.pid)) {
      assert Loc(d, l.pid) != l ==> MoveSound(s, Loc(d, l.pid));
    }
    MoveKeeps(s, s', l.pid);
  }

  lemma PutBackKeeps(s: State, l: Loc)
    requires PointOk(s, l.pid) && Enabled(s, PutBack(l))
    ensures PointOk(Apply(s, PutBack(l)), l.pid)
  {
    var s' := Apply(s, PutBack(l));
    assert MoveSound(s, Loc(l.dir, l.pid));
    assert Loc(Todo, l.pid) in s'.files;
    SameSomewhere(s, s', l.pid);
    forall d: Dir | Loc(d, l.pid) in s'.moving ensures MoveSound(s', Loc(d, l.pid)) {
      assert MoveSound(s, Loc(d, l.pid));
    }
    MoveKeeps(s, s', l.pid);
  }

  lemma TakeAwayKeeps(s: State, l: Loc)
    requires PointOk(s, l.pid) && Enabled(s, TakeAway(l))
    ensures PointOk(Apply(s, TakeAway(l)), l.pid)
  {
    var s' := Apply(s, TakeAway(l));
    assert MoveSound(s, Loc(l.dir, l.pid));
    assert Loc(Todo, l.pid) in s'.files;
    forall d: Dir | Loc(d, l.pid) in s'.moving ensures MoveSound(s', Loc(d, l.pid)) {
      assert MoveSound(s, Loc(d, l.pid));
    }
    MoveKeeps(s, s', l.pid);
  }

  lemma StopKeeps(s: State, l: Loc)
    requires PointOk(s, l.pid) && Enabled(s, Stop(l))
    ensures PointOk(Apply(s, Stop(l)), l.pid)
  {
    var s' := Apply(s, Stop(l));
    SameSomewhere(s, s', l.pid);
    forall d: Dir | Loc(d, l.pid) in s'.moving ensures MoveSound(s', Loc(d, l.pid)) {
      assert MoveSound(s, Loc(d, l.pid));
    }
    MoveKeeps(s, s', l.pid);
  }

  lemma CrashKeeps(s: State, job: int, pid: int)
    requires PointOk(s, pid) && Enabled(s, Crash(job))
    ensures PointOk(Apply(s, Crash(job)), pid)
  {
    var s' := Apply(s, Crash(job));
    SameSomewhere(s, s', pid);
    forall x | x in s'.claims && x.pid == pid ensures Sound(s', x) {
      assert Sound(s, x);
    }
    forall d: Dir | Loc(d, pid) in s'.moving ensures MoveSound(s', Loc(d, pid)) {
      assert MoveSound(s, Loc(d, pid));
    }
    assert job in s'.dead;
  }

  lemma ClaimStepKeeps(s: State, op: Op)
    requires op.WriteOwner? || op.Load? || op.Finish? || op.Release?
    requires Enabled(s, op) && PointOk(s, op.c.pid)
    ensures PointOk(Apply(s, op), op.c.pid)
  {
    assert Sound(s, op.c);
    match op
    case WriteOwner(c) => AdvanceKeeps(s, c, Owned, s.owners[c.pid := c.job]);
    case Load(c) => AdvanceKeeps(s, c, Working, s.owners);
    case Finish(c, outcome) => AdvanceKeeps(s, c, Target(outcome, s.files[Loc(Running, c.pid)]), s.owners);
    case Release(c) => AdvanceKeeps(s, c, Leaving(Todo, s.files[Loc(Running, c.pid)]), s.owners);
  }

  /** The point a guarded step is on stays sound. */
  lemma PointKept(s: State, op: Op)
    requires !op.Crash? && Enabled(s, op) && Guarded(s, op) && PointOk(s, PointOf(op))
    ensures PointOk(Apply(s, op), PointOf(op))
  {
    match op
    case BeginAdd(_) => LookKeeps(s, op);
    case Look(_) => LookKeeps(s, op);
    case WriteNew(c) => WriteNewKeeps(s, c);
    case Rename(c) => RenameKeeps(s, c);
    case WriteOwner(_) => ClaimStepKeeps(s, op);
    case Load(_) => ClaimStepKeeps(s, op);
    case Finish(_, _) => ClaimStepKeeps(s, op);
    case Release(_) => ClaimStepKeeps(s, op);
    case Requeue(c, jobsKnown) => RequeueKeeps(s, c, jobsKnown);
    case WriteOut(c) => WriteOutKeeps(s, c);
    case Drop(c) => DropKeeps(s, c);
    case Disown(c) => DisownKeeps(s, c);
    case Unblock(pid) => BeginMoveKeeps(s, Loc(Blocked, pid), s.files[Loc(Blocked, pid)]);
    case Retry(pid) => BeginMoveKeeps(s, Loc(Failed, pid), 0);
    case PutBack(l) => PutBackKeeps(s, l);
    case TakeAway(l) => TakeAwayKeeps(s, l);
    case Stop(l) => StopKeeps(s, l);
  }

  lemma StepKeeps(s: State, op: Op)
    requires Inv(s) && Enabled(s, op) && Guarded(s, op)
    ensures Inv(Apply(s, op))
  {
    forall pid ensures PointOk(Apply(s, op), pid) {
      assert PointOk(s, pid);
      if op.Crash? {
        CrashKeeps(s, op.job, pid);
      } else if pid == PointOf(op) {
        PointKept(s, op);
      } else {
        OthersStay(s, op, pid);
      }
    }
  }

  // ------------------------------------------------------------ every run

  /** Every guarded run of any number of jobs keeps the invariant, with returns to
      todo/, requeues, `unblock`, `retry` and `add` in all the steps they take. */
  lemma {:induction false} RunKeeps(ops: seq<Op>)
    requires Legal(ops) && AllGuarded(ops)
    ensures Inv(After(ops))
  {
    if ops == [] {
      assert forall pid :: PointOk(START, pid);
    } else {
      RunKeeps(ops[..|ops| - 1]);
      StepKeeps(After(ops[..|ops| - 1]), ops[|ops| - 1]);
    }
  }

  /** In every guarded run at most one live job holds a point. */
  lemma AtMostOneHolder(ops: seq<Op>, c: Claim, c': Claim)
    requires Legal(ops) && AllGuarded(ops) && c.pid == c'.pid
    requires Holds(After(ops), c) && Holds(After(ops), c')
    ensures c == c'
  {
    RunKeeps(ops);
    assert PointOk(After(ops), c.pid);
  }

  /** In every guarded run every point ever added is in some directory, wherever
      jobs and operators stop. */
  lemma NoPointLost(ops: seq<Op>, pid: int)
    requires Legal(ops) && AllGuarded(ops) && pid in After(ops).known
    ensures exists d: Dir :: Loc(d, pid) in After(ops).files
  {
    RunKeeps(ops);
    assert PointOk(After(ops), pid);
  }

  /** A job that loads, finishes or releases a point it claimed finds its file. */
  lemma LoadFindsFile(ops: seq<Op>, c: Claim)
    requires Legal(ops) && AllGuarded(ops) && Holds(After(ops), c)
    ensures Loc(Running, c.pid) in After(ops).files
  {
    RunKeeps(ops);
    assert PointOk(After(ops), c.pid) && Sound(After(ops), c);
  }

  /** A point that waits, runs or is blocked has failed fewer than
      `MAX_ATTEMPTS` times. */
  lemma WaitingHasAttemptsLeft(ops: seq<Op>, l: Loc)
    requires Legal(ops) && AllGuarded(ops) && l in After(ops).files && (l.dir.Todo? || l.dir.Running? || l.dir.Blocked?)
    ensures After(ops).files[l] < MAX_ATTEMPTS
  {
    RunKeeps(ops);
    assert PointOk(After(ops), l.pid) && l == Loc(l.dir, l.pid);
  }

  predicate TouchesFiles(op: Op) {
    op.WriteNew? || op.Rename? || op.WriteOut? || op.Drop? || op.PutBack? || op.TakeAway?
  }

  lemma FilesStay(s: State, op: Op)
    requires Enabled(s, op) && !TouchesFiles(op)
    ensures Apply(s, op).files == s.files
  {
  }

  /** Only writing a point where it goes puts it in done/, failed/ or blocked/. */
  lemma PutThereByWriting(s: State, op: Op, l: Loc)
    requires Enabled(s, op) && (l.dir.Done? || l.dir.Failed? || l.dir.Blocked?) && l in Apply(s, op).files
    ensures l !in s.files || Apply(s, op).files[l] != s.files[l] ==>
      op.WriteOut? && op.c.pid == l.pid && s.claims[op.c].Leaving?
  {
    if !TouchesFiles(op) {
      FilesStay(s, op);
    } else if !op.WriteOut? {
      OthersWriteElsewhere(s, op, l);
    }
  }

  lemma OthersWriteElsewhere(s: State, op: Op, l: Loc)
    requires Enabled(s, op) && TouchesFiles(op) && !op.WriteOut? && (l.dir.Done? || l.dir.Failed? || l.dir.Blocked?)
    requires l in Apply(s, op).files
    ensures l in s.files && Apply(s, op).files[l] == s.files[l]
  {
  }

  /** A point that appears in done/, failed/ or blocked/, or changes there, was
      put there by the job that claimed it last, which still holds it. */
  lemma PutThereByItsClaimer(ops: seq<Op>, op: Op, l: Loc)
    requires Legal(ops) && AllGuarded(ops) && Enabled(After(ops), op)
    requires l.dir.Done? || l.dir.Failed? || l.dir.Blocked?
    requires var s, s' := After(ops), Apply(After(ops), op);
      l in s'.files && (l !in s.files || s'.files[l] != s.files[l])
    ensures op.WriteOut? && op.c.pid == l.pid && Holds(After(ops), op.c)
    ensures l.pid in After(ops).lastClaim && After(ops).lastClaim[l.pid] == op.c.job
  {
    RunKeeps(ops);
    PutThereByWriting(After(ops), op, l);
    assert PointOk(After(ops), op.c.pid) && Sound(After(ops), op.c);
  }
}
