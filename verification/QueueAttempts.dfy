/** How often a point of the queue is tried (`finish` in
    bench/campaign/fsqueue.py). */
module QueueAttempts {
  import opened FsQueue
  import opened QueueSafety

  function Max(a: int, b: int): int {
    if a < b then b else a
  }

  /** The times a point can still be claimed while only failures bring it back. */
  function Credit(s: State, pid: int): (n: nat)
    ensures n <= MAX_ATTEMPTS
  {
    Max(if Loc(Todo, pid) in s.files then Max(0, MAX_ATTEMPTS - s.files[Loc(Todo, pid)]) else 0,
        if Loc(Running, pid) in s.files then Max(0, MAX_ATTEMPTS - s.files[Loc(Running, pid)] - 1) else 0)
  }

  /** The operations of a drain: nothing is released, requeued, moved back or added. */
  predicate Draining(op: Op) {
    !op.Release? && !op.Requeue? && !op.PutBack? && !op.WriteNew?
  }

  predicate AllDraining(ops: seq<Op>) {
    forall i :: 0 <= i < |ops| ==> Draining(ops[i])
  }

  function Claims(ops: seq<Op>, pid: int): nat {
    if ops == [] then 0
    else Claims(ops[..|ops| - 1], pid) + if ops[|ops| - 1].Rename? && ops[|ops| - 1].c.pid == pid then 1 else 0
  }

  /** No job is about to put the point back as it was. */
  ghost predicate NotReleasing(s: State, pid: int) {
    forall c :: c in s.claims && c.pid == pid ==> GoesOn(s, c)
  }

  ghost predicate GoesOn(s: State, c: Claim) {
    c in s.claims && !s.claims[c].Taken?
    && (s.claims[c].Leaving? && s.claims[c].dir.Todo? ==>
          Loc(Running, c.pid) in s.files && s.claims[c].attempts == s.files[Loc(Running, c.pid)] + 1)
  }

  /** One operation of a drain: a claim costs one, and nothing brings any back. */
  ghost predicate Costs(s: State, op: Op, pid: int)
    requires Enabled(s, op)
  {
    var s' := Apply(s, op);
    NotReleasing(s', pid)
    && Credit(s', pid) + (if op.Rename? && op.c.pid == pid then 1 else 0) <= Credit(s, pid)
  }

  lemma AsideCosts(s: State, s': State, pid: int)
    requires NotReleasing(s, pid) && SameAt(s, s', pid)
    ensures NotReleasing(s', pid) && Credit(s', pid) == Credit(s, pid)
  {
    forall c | c in s'.claims && c.pid == pid ensures GoesOn(s', c) {
      assert GoesOn(s, c);
    }
  }

  lemma RenameCosts(s: State, c: Claim)
    requires PointOk(s, c.pid) && Enabled(s, Rename(c)) && Guarded(s, Rename(c))
    ensures Costs(s, Rename(c), c.pid)
  {
    BusyExactly(s, c.pid);
    var s' := Apply(s, Rename(c));
    forall x | x in s'.claims && x.pid == c.pid ensures GoesOn(s', x) {
      assert x == c;
    }
  }

  lemma WriteOutCosts(s: State, c: Claim)
    requires PointOk(s, c.pid) && Enabled(s, WriteOut(c)) && NotReleasing(s, c.pid)
    ensures Costs(s, WriteOut(c), c.pid)
  {
    assert Sound(s, c) && GoesOn(s, c);
    var s' := Apply(s, WriteOut(c));
    forall x | x in s'.claims && x.pid == c.pid ensures GoesOn(s', x) {
      assert x == c;
    }
  }

  lemma DropCosts(s: State, c: Claim)
    requires PointOk(s, c.pid) && Enabled(s, Drop(c))
    ensures Costs(s, Drop(c), c.pid)
  {
    assert Sound(s, c);
    var s' := Apply(s, Drop(c));
    forall x | x in s'.claims && x.pid == c.pid ensures GoesOn(s', x) {
      assert x == c;
    }
  }

  lemma TakeAwayCosts(s: State, l: Loc)
    requires PointOk(s, l.pid) && Enabled(s, TakeAway(l)) && NotReleasing(s, l.pid)
    ensures Costs(s, TakeAway(l), l.pid)
  {
    assert MoveSound(s, Loc(l.dir, l.pid));
    forall c | c in s.claims && c.pid == l.pid ensures GoesOn(Apply(s, TakeAway(l)), c) {
      assert GoesOn(s, c);
    }
  }

  lemma GoOnCosts(s: State, op: Op, pid: int)
    requires Enabled(s, op) && Draining(op) && !TouchesFiles(op) && NotReleasing(s, pid)
    ensures Costs(s, op, pid)
  {
    FilesStay(s, op);
    var s' := Apply(s, op);
    forall c | c in s'.claims && c.pid == pid ensures GoesOn(s', c) {
      assert c in s.claims ==> GoesOn(s, c);
    }
  }

  lemma CreditStep(s: State, op: Op, pid: int)
    requires Inv(s) && Enabled(s, op) && Guarded(s, op) && Draining(op) && NotReleasing(s, pid)
    ensures Costs(s, op, pid)
  {
    assert PointOk(s, pid);
    if !TouchesFiles(op) {
      GoOnCosts(s, op, pid);
    } else if PointOf(op) != pid {
      OthersSame(s, op, pid);
      AsideCosts(s, Apply(s, op), pid);
    } else {
      match op {
        case Rename(c) => RenameCosts(s, c);
        case WriteOut(c) => WriteOutCosts(s, c);
        case Drop(c) => DropCosts(s, c);
        case TakeAway(l) => TakeAwayCosts(s, l);
      }
    }
  }

  /** After a drain the claims made and those left are no more than were left. */
  ghost predicate Spent(before: seq<Op>, drain: seq<Op>, pid: int)
    requires Legal(before) && Legal(before + drain)
  {
    && NotReleasing(After(before + drain), pid)
    && Claims(drain, pid) + Credit(After(before + drain), pid) <= Credit(After(before), pid)
  }

  lemma SpentNext(before: seq<Op>, drain: seq<Op>, pid: int)
    requires drain != [] && Legal(before) && Legal(before + drain) && AllGuarded(before + drain)
    requires Draining(drain[|drain| - 1])
    requires (before + drain)[..|before + drain| - 1] == before + drain[..|drain| - 1]
    requires Spent(before, drain[..|drain| - 1], pid)
    ensures Spent(before, drain, pid)
  {
    var rest, op := drain[..|drain| - 1], drain[|drain| - 1];
    RunKeeps(before + rest);
    assert op == (before + drain)[|before + drain| - 1];
    CreditStep(After(before + rest), op, pid);
  }

  /** In a guarded drain without releases, requeues, retries, unblocks or
      additions a point is claimed at most as often as it has attempts left, so
      at most `MAX_ATTEMPTS` times. */
  lemma {:induction false} ClaimsBounded(before: seq<Op>, drain: seq<Op>, pid: int)
    requires Legal(before) && Legal(before + drain) && AllGuarded(before + drain) && AllDraining(drain)
    requires NotReleasing(After(before), pid)
    ensures Spent(before, drain, pid) && Claims(drain, pid) <= MAX_ATTEMPTS
  {
    if drain == [] {
      assert before + drain == before;
    } else {
      assert (before + drain)[..|before + drain| - 1] == before + drain[..|drain| - 1];
      ClaimsBounded(before, drain[..|drain| - 1], pid);
      SpentNext(before, drain, pid);
    }
  }
}
