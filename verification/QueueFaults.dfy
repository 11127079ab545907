/** Runs of the queue as its code is written in which a point is lost, held
    twice, or measured again (bench/campaign/fsqueue.py): the steps that
    `QueueSafety.Guarded` excludes. */
module QueueFaults {
  import opened FsQueue
  import opened QueueSafety

  /** The last of the steps is legal after the others. */
  lemma Do(ops: seq<Op>, op: Op) returns (ops': seq<Op>)
    requires Legal(ops) && Enabled(After(ops), op)
    ensures ops' == ops + [op] && Legal(ops') && After(ops') == Apply(After(ops), op)
    ensures AllGuarded(ops) && Guarded(After(ops), op) ==> AllGuarded(ops')
  {
    Next(ops, op);
    ops' := ops + [op];
    assert ops'[..|ops'| - 1] == ops;
  }

  /** Of two files one is removed. */
  lemma OneLeft(l: Loc, m: Loc, a: nat, b: nat)
    requires l != m
    ensures map[l := a, m := b] - {l} == map[m := b]
    ensures map[l := a] - {l} == map[]
  {
  }

  const A: Claim := Claim(1, 7)
  const B: Claim := Claim(2, 7)
  const C: Claim := Claim(3, 7)
  const D: Claim := Claim(4, 7)

  /** The state directories and owner files of a queue of one point, 7, last
      claimed by job `last`. */
  function One(files: map<Loc, nat>, owners: map<int, int>, claims: map<Claim, Phase>, dead: set<int>,
               last: int): State {
    State(files, owners, claims, map[], map[], dead, {7}, map[7 := last])
  }

  /** Point 7 is added. */
  lemma Added() returns (ops: seq<Op>)
    ensures Legal(ops) && AllGuarded(ops)
    ensures After(ops) == State(map[Loc(Todo, 7) := 0], map[], map[], map[], map[], {}, {7}, map[])
  {
    ops := [];
    ops := Do(ops, BeginAdd(A));
    ops := Do(ops, Look(A));
    ops := Do(ops, Look(A));
    ops := Do(ops, Look(A));
    ops := Do(ops, Look(A));
    ops := Do(ops, Look(A));
    ops := Do(ops, WriteNew(A));
    assert After(ops).adding == map[];
  }

  /** Job 1 is working on it. */
  lemma AtWork() returns (ops: seq<Op>)
    ensures Legal(ops) && AllGuarded(ops)
    ensures After(ops) == One(map[Loc(Running, 7) := 0], map[7 := 1], map[A := Working], {}, 1)
  {
    ops := JustClaimed();
    ops := Do(ops, WriteOwner(A));
    ops := Do(ops, Load(A));
  }

  lemma JustClaimed() returns (ops: seq<Op>)
    ensures Legal(ops) && AllGuarded(ops)
    ensures After(ops) == One(map[Loc(Running, 7) := 0], map[], map[A := Renamed], {}, 1)
  {
    ops := Added();
    assert Guarded(After(ops), Rename(A));
    ops := Do(ops, Rename(A));
    assert After(ops).files == map[Loc(Running, 7) := 0];
  }

  /** Job 1 has put it back in todo/, but for its file in running/. */
  lemma HalfReleased() returns (ops: seq<Op>)
    ensures Legal(ops)
    ensures After(ops) == One(map[Loc(Running, 7) := 0, Loc(Todo, 7) := 0], map[7 := 1], map[A := Wrote(Todo)], {}, 1)
  {
    ops := AtWork();
    ops := Do(ops, Op.Release(A));
    ops := Do(ops, WriteOut(A));
  }

  /** A claim lands between the write and the remove of a return to todo/, and
      the point is lost. */
  lemma ReturnInTwoStepsLosesPoint() returns (ops: seq<Op>)
    ensures Legal(ops) && 7 in After(ops).known && !Somewhere(After(ops), 7)
  {
    ops := HalfReleased();
    ops := Do(ops, Rename(B));
    ops := Do(ops, Op.Drop(A));
  }

  /** Two live jobs hold the point. */
  ghost predicate HeldTwice(s: State) {
    exists x, y :: Holds(s, x) && Holds(s, y) && x.pid == y.pid && x != y
  }

  /** Job 3 puts back a point that looks abandoned, with its file in running/ only. */
  lemma Requeued(before: seq<Op>, attempts: nat) returns (ops: seq<Op>)
    requires Legal(before) && After(before).files == map[Loc(Running, 7) := attempts]
    requires LooksStale(After(before), 7) && C !in After(before).claims && 3 !in After(before).dead
    ensures Legal(ops)
    ensures After(ops) == After(before).(files := map[Loc(Todo, 7) := attempts],
                                         claims := After(before).claims[C := Cleared])
  {
    ops := HalfRequeued(before, attempts);
    OneLeft(Loc(Running, 7), Loc(Todo, 7), attempts, attempts);
    ops := Do(ops, Op.Drop(C));
    assert After(before).claims[C := Put][C := Cleared] == After(before).claims[C := Cleared];
  }

  lemma HalfRequeued(before: seq<Op>, attempts: nat) returns (ops: seq<Op>)
    requires Legal(before) && After(before).files == map[Loc(Running, 7) := attempts]
    requires LooksStale(After(before), 7) && C !in After(before).claims && 3 !in After(before).dead
    ensures Legal(ops)
    ensures After(ops) == After(before).(files := map[Loc(Running, 7) := attempts, Loc(Todo, 7) := attempts],
                                         claims := After(before).claims[C := Put])
  {
    ops := Do(before, Requeue(C, true));
    ops := Do(ops, WriteOut(C));
    assert After(ops).claims == After(before).claims[C := Put];
  }

  /** The point then is claimed by job 4, and held by `b` as well. */
  lemma ClaimedTwice(before: seq<Op>, attempts: nat, b: Claim) returns (ops: seq<Op>)
    requires Legal(before) && After(before).files == map[Loc(Running, 7) := attempts]
    requires LooksStale(After(before), 7) && C !in After(before).claims && 3 !in After(before).dead
    requires Holds(After(before), b) && b == B && D !in After(before).claims && 4 !in After(before).dead
    ensures Legal(ops) && HeldTwice(After(ops)) && After(ops).dead == After(before).dead
  {
    ops := Requeued(before, attempts);
    ops := Do(ops, Rename(D));
    assert Holds(After(ops), b) && Holds(After(ops), D);
  }

  /** Job 2 has renamed it into running/. */
  lemma Fresh() returns (ops: seq<Op>)
    ensures Legal(ops)
    ensures After(ops) == One(map[Loc(Running, 7) := 0], map[], map[B := Renamed], {}, 2)
  {
    ops := Added();
    ops := Do(ops, Rename(B));
    assert After(ops).files == map[Loc(Running, 7) := 0];
  }

  /** A point just claimed, with no owner file yet, looks abandoned: a rename does
      not refresh the time of the file. Two live jobs hold it. */
  lemma FreshClaimSplits() returns (ops: seq<Op>)
    ensures Legal(ops) && HeldTwice(After(ops)) && After(ops).dead == {}
  {
    ops := Fresh();
    ops := ClaimedTwice(ops, 0, B);
  }

  /** Job 1, which put the point back after a failure, ended before it removed its
      owner file, and job 2 has just claimed the point. */
  lemma LeftOwner() returns (ops: seq<Op>)
    ensures Legal(ops)
    ensures After(ops) == One(map[Loc(Running, 7) := 1], map[7 := 1], map[B := Renamed], {1}, 2)
  {
    ops := Ended();
    ops := Do(ops, Rename(B));
    assert After(ops).files == map[Loc(Running, 7) := 1];
  }

  lemma Ended() returns (ops: seq<Op>)
    ensures Legal(ops)
    ensures After(ops) == One(map[Loc(Todo, 7) := 1], map[7 := 1], map[], {1}, 1)
  {
    ops := BackAfterFailure();
    ops := Do(ops, Crash(1));
  }

  /** Job 1 put the point back after a failure, but for its owner file. */
  lemma BackAfterFailure() returns (ops: seq<Op>)
    ensures Legal(ops)
    ensures After(ops) == One(map[Loc(Todo, 7) := 1], map[7 := 1], map[A := Dropped], {}, 1)
  {
    ops := HalfBack();
    OneLeft(Loc(Running, 7), Loc(Todo, 7), 0, 1);
    ops := Do(ops, Op.Drop(A));
  }

  lemma HalfBack() returns (ops: seq<Op>)
    ensures Legal(ops)
    ensures After(ops) == One(map[Loc(Running, 7) := 0, Loc(Todo, 7) := 1], map[7 := 1], map[A := Wrote(Todo)], {}, 1)
  {
    ops := AtWork();
    ops := Do(ops, Op.Finish(A, AsFailed(true)));
    ops := Do(ops, WriteOut(A));
  }

  /** An owner file left by a job that ended before removing it makes a point just
      claimed look abandoned. Two live jobs hold it. */
  lemma StaleOwnerFileSplitsClaim() returns (ops: seq<Op>)
    ensures Legal(ops) && HeldTwice(After(ops))
  {
    ops := LeftOwner();
    ops := ClaimedTwice(ops, 1, B);
  }

  /** Job 2 is working on the point that job 1 put back, and its owner file is gone. */
  lemma OwnerRemoved() returns (ops: seq<Op>)
    ensures Legal(ops)
    ensures After(ops) == One(map[Loc(Running, 7) := 1], map[], map[B := Working], {}, 2)
  {
    ops := ClaimedBehind();
    ops := Do(ops, WriteOwner(B));
    ops := Do(ops, Load(B));
    ops := Do(ops, Disown(A));
    assert After(ops).owners == map[] && After(ops).claims == map[B := Working];
  }

  lemma ClaimedBehind() returns (ops: seq<Op>)
    ensures Legal(ops)
    ensures After(ops) == One(map[Loc(Running, 7) := 1], map[7 := 1], map[A := Dropped, B := Renamed], {}, 2)
  {
    ops := BackAfterFailure();
    ops := Do(ops, Rename(B));
    assert After(ops).files == map[Loc(Running, 7) := 1];
  }

  /** No job ends: the second remove of a return to todo/ deletes the owner file of
      the job that has claimed the point since, and it looks abandoned while that
      job works on it. Two live jobs hold it. */
  lemma LateRemoveSplitsClaim() returns (ops: seq<Op>)
    ensures Legal(ops) && HeldTwice(After(ops)) && After(ops).dead == {}
  {
    ops := OwnerRemoved();
    ops := ClaimedTwice(ops, 1, B);
  }

  /** Job 1 has written the point to failed/, and has still to remove it from
      running/. */
  lemma HalfFailed() returns (ops: seq<Op>)
    ensures Legal(ops)
    ensures After(ops) ==
        One(map[Loc(Running, 7) := 0, Loc(Failed, 7) := 1], map[7 := 1], map[A := Wrote(Failed)], {}, 1)
  {
    ops := AtWork();
    ops := Do(ops, Op.Finish(A, AsFailed(false)));
    ops := Do(ops, WriteOut(A));
  }

  /** A failed point is retried while its job is still leaving it there; the next
      claim's file is the one that job removes, and the point is lost. */
  lemma RetryWhileLeavingLosesPoint() returns (ops: seq<Op>)
    ensures Legal(ops) && 7 in After(ops).known && !Somewhere(After(ops), 7)
  {
    ops := RetriedEarly();
    ops := Do(ops, Rename(B));
    assert After(ops).files == map[Loc(Running, 7) := 0] && A in After(ops).claims;
    ops := Do(ops, Op.Drop(A));
  }

  lemma RetriedEarly() returns (ops: seq<Op>)
    ensures Legal(ops)
    ensures After(ops) == One(map[Loc(Running, 7) := 0, Loc(Todo, 7) := 0], map[7 := 1], map[A := Wrote(Failed)], {}, 1)
  {
    ops := HalfRetried();
    ops := Do(ops, TakeAway(Loc(Failed, 7)));
    assert After(ops).files == map[Loc(Running, 7) := 0, Loc(Todo, 7) := 0];
    assert After(ops).moving == map[];
  }

  lemma HalfRetried() returns (ops: seq<Op>)
    ensures Legal(ops)
    ensures After(ops) == One(map[Loc(Running, 7) := 0, Loc(Failed, 7) := 1, Loc(Todo, 7) := 0], map[7 := 1],
                              map[A := Wrote(Failed)], {}, 1).(moving := map[Loc(Failed, 7) := Placed])
  {
    ops := HalfFailed();
    ops := Do(ops, Op.Retry(7));
    ops := Do(ops, PutBack(Loc(Failed, 7)));
    assert After(ops).moving == map[Loc(Failed, 7) := Placed];
  }

  /** A failed point has been written back to todo/, claimed, and has failed again
      for good, before the operator removes it from failed/: it is lost. */
  lemma RetryRemovesNewFailure() returns (ops: seq<Op>)
    ensures Legal(ops) && 7 in After(ops).known && !Somewhere(After(ops), 7)
  {
    ops := FailedAgain();
    ops := Do(ops, TakeAway(Loc(Failed, 7)));
  }

  lemma FailedAgain() returns (ops: seq<Op>)
    ensures Legal(ops) && After(ops).known == {7} && After(ops).files == map[Loc(Failed, 7) := 1]
    ensures After(ops).moving == map[Loc(Failed, 7) := Placed]
  {
    ops := Failing();
    OneLeft(Loc(Running, 7), Loc(Failed, 7), 0, 1);
    ops := Do(ops, Op.Drop(B));
  }

  lemma Failing() returns (ops: seq<Op>)
    ensures Legal(ops) && After(ops) == Back(map[7 := 2], Wrote(Failed))
  {
    ops := GivenUp();
    ops := Do(ops, WriteOut(B));
    assert After(ops).files == map[Loc(Running, 7) := 0, Loc(Failed, 7) := 1];
  }

  lemma GivenUp() returns (ops: seq<Op>)
    ensures Legal(ops) && After(ops) == Back(map[7 := 2], Leaving(Failed, 1))
  {
    ops := WorkedOn();
    ops := Do(ops, Op.Finish(B, AsFailed(false)));
  }

  /** A failed point that is being moved back, of which the file in failed/ is
      still there, as job 2 stands with it. */
  function Back(owners: map<int, int>, phase: Phase): State {
    One(map[Loc(Running, 7) := 0, Loc(Failed, 7) := 1], owners, map[B := phase], {}, 2)
    .(moving := map[Loc(Failed, 7) := Placed])
  }

  lemma WorkedOn() returns (ops: seq<Op>)
    ensures Legal(ops) && After(ops) == Back(map[7 := 2], Working)
  {
    ops := Retried();
    ops := Do(ops, WriteOwner(B));
    ops := Do(ops, Load(B));
    assert After(ops).claims == map[B := Working];
  }

  lemma Retried() returns (ops: seq<Op>)
    ensures Legal(ops) && After(ops) == Back(map[], Renamed)
  {
    ops := PutBackByRetry();
    ops := Do(ops, Rename(B));
    assert After(ops).files == map[Loc(Running, 7) := 0, Loc(Failed, 7) := 1];
  }

  lemma PutBackByRetry() returns (ops: seq<Op>)
    ensures Legal(ops)
    ensures After(ops) == One(map[Loc(Failed, 7) := 1, Loc(Todo, 7) := 0], map[], map[], {}, 1)
      .(moving := map[Loc(Failed, 7) := Placed])
  {
    ops := FailedForGood();
    ops := Do(ops, Op.Retry(7));
    ops := Do(ops, PutBack(Loc(Failed, 7)));
    assert After(ops).moving == map[Loc(Failed, 7) := Placed];
  }

  lemma FailedForGood() returns (ops: seq<Op>)
    ensures Legal(ops) && After(ops) == One(map[Loc(Failed, 7) := 1], map[], map[], {}, 1)
  {
    ops := HalfFailed();
    ops := Do(ops, Op.Drop(A));
    ops := Do(ops, Disown(A));
    assert After(ops).files == map[Loc(Failed, 7) := 1];
    assert After(ops).claims == map[] && After(ops).owners == map[];
  }

  /** Job 1 measured the point and ended before it removed it from running/. */
  lemma Measured() returns (ops: seq<Op>)
    ensures Legal(ops) && AllGuarded(ops)
    ensures After(ops) == One(map[Loc(Running, 7) := 0, Loc(Done, 7) := 0], map[7 := 1], map[], {1}, 1)
  {
    ops := HalfDone();
    ops := Do(ops, Crash(1));
    assert After(ops).claims == map[];
  }

  lemma HalfDone() returns (ops: seq<Op>)
    ensures Legal(ops) && AllGuarded(ops)
    ensures After(ops) == One(map[Loc(Running, 7) := 0, Loc(Done, 7) := 0], map[7 := 1], map[A := Wrote(Done)], {}, 1)
  {
    ops := AtWork();
    ops := Do(ops, Op.Finish(A, AsDone));
    ops := Do(ops, WriteOut(A));
  }

  /** Job 3 has put it back. */
  lemma MeasuredPutBack() returns (ops: seq<Op>)
    ensures Legal(ops) && AllGuarded(ops)
    ensures After(ops) == One(map[Loc(Todo, 7) := 0, Loc(Done, 7) := 0], map[], map[], {1}, 1)
  {
    ops := MeasuredHalfPutBack();
    ops := Do(ops, Op.Drop(C));
    ops := Do(ops, Disown(C));
    assert After(ops).files == map[Loc(Todo, 7) := 0, Loc(Done, 7) := 0];
    assert After(ops).owners == map[] && After(ops).claims == map[];
  }

  lemma MeasuredHalfPutBack() returns (ops: seq<Op>)
    ensures Legal(ops) && AllGuarded(ops)
    ensures After(ops) == One(map[Loc(Running, 7) := 0, Loc(Done, 7) := 0, Loc(Todo, 7) := 0], map[7 := 1],
                              map[C := Put], {1}, 1)
  {
    ops := Measured();
    ops := Do(ops, Requeue(C, true));
    ops := Do(ops, WriteOut(C));
  }

  /** A measured point whose job ended before it removed it from running/ is put
      back, and claimed again, as no claim looks whether it is done. Every step is
      guarded: the stop alone is to blame. */
  lemma DoneClaimedAgain() returns (ops: seq<Op>)
    ensures Legal(ops) && AllGuarded(ops)
    ensures Loc(Done, 7) in After(ops).files && Holds(After(ops), B)
  {
    ops := MeasuredPutBack();
    assert Guarded(After(ops), Rename(B));
    ops := Do(ops, Rename(B));
  }

  // ------------------------------------------------------------ two requeues

  /** Job 1 ended at work. */
  lemma EndedAtWork() returns (ops: seq<Op>)
    ensures Legal(ops)
    ensures After(ops) == One(map[Loc(Running, 7) := 0], map[7 := 1], map[], {1}, 1)
  {
    ops := AtWork();
    ops := Do(ops, Crash(1));
    assert After(ops).claims == map[];
  }

  /** Jobs 3 and 4, which start together, both put the point back. */
  lemma PutBackTwice() returns (ops: seq<Op>)
    ensures Legal(ops)
    ensures After(ops) ==
      One(map[Loc(Running, 7) := 0, Loc(Todo, 7) := 0], map[7 := 1], map[C := Put, D := Put], {1}, 1)
  {
    ops := TakenTwice();
    ops := Do(ops, WriteOut(C));
    ops := Do(ops, WriteOut(D));
  }

  lemma TakenTwice() returns (ops: seq<Op>)
    ensures Legal(ops)
    ensures After(ops) == One(map[Loc(Running, 7) := 0], map[7 := 1], map[C := Taken(0), D := Taken(0)], {1}, 1)
  {
    ops := EndedAtWork();
    ops := Do(ops, Requeue(C, true));
    ops := Do(ops, Requeue(D, true));
  }

  /** Between their removes job 2 claims it, and the second remove loses it. */
  lemma TwoRequeuersLosePoint() returns (ops: seq<Op>)
    ensures Legal(ops) && 7 in After(ops).known && !Somewhere(After(ops), 7)
  {
    ops := ClaimedBetween();
    ops := Do(ops, Op.Drop(D));
  }

  lemma ClaimedBetween() returns (ops: seq<Op>)
    ensures Legal(ops) && After(ops).files == map[Loc(Running, 7) := 0] && After(ops).known == {7}
    ensures D in After(ops).claims && After(ops).claims[D] == Put
  {
    ops := PutBackTwice();
    OneLeft(Loc(Running, 7), Loc(Todo, 7), 0, 0);
    ops := Do(ops, Op.Drop(C));
    ops := Do(ops, Rename(B));
    assert After(ops).files == map[Loc(Running, 7) := 0];
  }
}
