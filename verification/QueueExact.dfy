/** The condition under which jobs drain a queue safely is exact: a step that
    does not meet it puts two live jobs at one point, or makes a claim of a point
    that an operator is half-way through moving (bench/campaign/fsqueue.py). */
module QueueExact {
  import opened FsQueue
  import opened QueueSafety

  /** At most one live job is at work on the point, whatever at. */
  ghost predicate OneJobAt(s: State, pid: int) {
    forall x, y :: x in s.claims && y in s.claims && x.pid == y.pid == pid ==> x == y
  }

  /** One more job at work on a point is the only one exactly when none was. */
  lemma OneMoreJob(s: State, c: Claim, phase: Phase)
    requires c !in s.claims
    ensures OneJobAt(At(s, c, phase), c.pid) <==> !Busy(s, c.pid)
  {
    var s' := At(s, c, phase);
    if Busy(s, c.pid) {
      var x :| x in s.claims && x.pid == c.pid;
      assert x in s'.claims && c in s'.claims && x != c;
    }
  }

  // ------------------------------------------------------------ one step

  /** A claim leaves one live job at its point exactly when it finds no file in
      running/, or an abandoned one, and no owner file still to be removed. */
  lemma RenameExactly(s: State, c: Claim)
    requires PointOk(s, c.pid) && Enabled(s, Rename(c))
    ensures OneJobAt(Apply(s, Rename(c)), c.pid) <==>
      (Loc(Running, c.pid) in s.files ==> Abandoned(s, c.pid)) && Disowned(s, c.pid)
  {
    BusyExactly(s, c.pid);
    OneMoreJob(s, c, Renamed);
    assert Apply(s, Rename(c)).claims == At(s, c, Renamed).claims;
  }

  lemma RenameKeepsExactly(s: State, c: Claim)
    requires PointOk(s, c.pid) && Enabled(s, Rename(c))
    ensures PointOk(Apply(s, Rename(c)), c.pid) <==> Guarded(s, Rename(c))
  {
    var s' := Apply(s, Rename(c));
    RenameExactly(s, c);
    if Guarded(s, Rename(c)) {
      RenameKeeps(s, c);
    } else if PointOk(s', c.pid) {
      forall d: Dir ensures Loc(d, c.pid) in s.moving ==> !s.moving[Loc(d, c.pid)].Placed? {
        assert Loc(d, c.pid) in s'.moving ==> MoveSound(s', Loc(d, c.pid));
      }
    }
  }

  /** A requeue leaves one live job at its point exactly when it was abandoned. */
  lemma RequeueExactly(s: State, c: Claim, jobsKnown: bool)
    requires PointOk(s, c.pid) && Enabled(s, Requeue(c, jobsKnown))
    ensures OneJobAt(Apply(s, Requeue(c, jobsKnown)), c.pid) <==> Abandoned(s, c.pid)
  {
    BusyExactly(s, c.pid);
    OneMoreJob(s, c, Taken(s.files[Loc(Running, c.pid)]));
  }

  /** A step keeps the invariant exactly when it is guarded, whatever ended before. */
  lemma StepExactly(s: State, op: Op)
    requires Inv(s) && Enabled(s, op)
    ensures Inv(Apply(s, op)) <==> Guarded(s, op)
  {
    if Guarded(s, op) {
      StepKeeps(s, op);
    } else {
      UnguardedBreaks(s, op);
    }
  }

  lemma UnguardedBreaks(s: State, op: Op)
    requires Inv(s) && Enabled(s, op) && !Guarded(s, op)
    ensures !Inv(Apply(s, op))
  {
    assert PointOk(s, op.c.pid);
    match op
    case Rename(c) => RenameKeepsExactly(s, c);
    case Requeue(c, jobsKnown) => RequeueExactly(s, c, jobsKnown);
    assert !PointOk(Apply(s, op), op.c.pid);
  }

  // ------------------------------------------------------------ whole runs

  ghost predicate AlwaysSound(ops: seq<Op>)
    requires Legal(ops)
  {
    Inv(After(ops)) && (ops == [] || AlwaysSound(ops[..|ops| - 1]))
  }

  /** Over any run at all the invariant holds at every state exactly when every
      claim and every requeue was guarded. */
  lemma {:induction false} RunExactly(ops: seq<Op>)
    requires Legal(ops)
    ensures AlwaysSound(ops) <==> AllGuarded(ops)
  {
    if ops == [] {
      RunKeeps(ops);
    } else {
      var before, op := ops[..|ops| - 1], ops[|ops| - 1];
      RunExactly(before);
      if AlwaysSound(before) {
        StepExactly(After(before), op);
      }
    }
  }

  /** What a run is to avoid at a step: two live jobs at work on one point, or the
      claim of a point that an operator has still to remove from where it was. */
  ghost predicate Apart(s: State, op: Op)
    requires Enabled(s, op)
  {
    (forall pid :: OneJobAt(Apply(s, op), pid)) && (op.Rename? ==> FullyMoved(s, op.c.pid))
  }

  ghost predicate AlwaysApart(ops: seq<Op>)
    requires Legal(ops)
  {
    ops == [] || (AlwaysApart(ops[..|ops| - 1]) && Apart(After(ops[..|ops| - 1]), ops[|ops| - 1]))
  }

  lemma ApartExactly(s: State, op: Op)
    requires Inv(s) && Enabled(s, op)
    ensures Apart(s, op) <==> Guarded(s, op)
  {
    if Guarded(s, op) {
      StepKeeps(s, op);
      forall pid ensures OneJobAt(Apply(s, op), pid) {
        assert PointOk(Apply(s, op), pid);
      }
    } else {
      assert PointOk(s, op.c.pid);
      match op {
        case Rename(c) => RenameExactly(s, c);
        case Requeue(c, jobsKnown) => RequeueExactly(s, c, jobsKnown);
      }
    }
  }

  /** Over any run at all no two live jobs were ever at work on one point, and no
      claim came before an operator's remove, exactly when every claim and every
      requeue was guarded. */
  lemma {:induction false} RunApartExactly(ops: seq<Op>)
    requires Legal(ops)
    ensures AlwaysApart(ops) <==> AllGuarded(ops)
  {
    if ops == [] {
    } else {
      var before, op := ops[..|ops| - 1], ops[|ops| - 1];
      RunApartExactly(before);
      if AllGuarded(before) {
        RunKeeps(before);
        ApartExactly(After(before), op);
      }
    }
  }
}
