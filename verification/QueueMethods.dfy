/** The methods of a queue (`Queue` in bench/campaign/fsqueue.py), each as the
    steps it takes on the files: a job's calls, one after the other, are a run
    of those steps. */
module QueueMethods {
  import opened Options
  import opened FsQueue

  /** The files when one was written elsewhere, and removed where it was. */
  function Moved(files: map<Loc, nat>, from: Loc, to: Loc, attempts: nat): map<Loc, nat> {
    files[to := attempts] - {from}
  }

  /** The points of `pids` went from a directory back to todo/. */
  ghost predicate MovedBack(before: map<Loc, nat>, after: map<Loc, nat>, from: Dir, pids: set<int>, reset: bool) {
    && (forall l: Loc :: l.pid !in pids ==> (l in after <==> l in before) && (l in after ==> after[l] == before[l]))
    && (forall pid :: pid in pids ==> Returned(before, after, from, pid, reset))
  }

  ghost predicate Returned(before: map<Loc, nat>, after: map<Loc, nat>, from: Dir, pid: int, reset: bool) {
    && Loc(from, pid) in before && Loc(from, pid) !in after
    && Loc(Todo, pid) in after && after[Loc(Todo, pid)] == (if reset then 0 else before[Loc(from, pid)])
    && forall d: Dir :: d != from && !d.Todo? ==>
         (Loc(d, pid) in after <==> Loc(d, pid) in before) &&
             (Loc(d, pid) in after ==> after[Loc(d, pid)] == before[Loc(d, pid)])
  }

  lemma MoveOne(before: map<Loc, nat>, files: map<Loc, nat>, from: Dir, pids: set<int>, pid: int, reset: bool)
    requires MovedBack(before, files, from, pids, reset) && pid !in pids && !from.Todo?
    requires Loc(from, pid) in files
    ensures MovedBack(before, Moved(files, Loc(from, pid), Loc(Todo, pid), if reset then 0 else files[Loc(from, pid)]),
                      from, pids + {pid}, reset)
  {
    var after := Moved(files, Loc(from, pid), Loc(Todo, pid), if reset then 0 else files[Loc(from, pid)]);
    assert Returned(before, after, from, pid, reset);
    forall p | p in pids ensures Returned(before, after, from, p, reset) {
      assert Returned(before, files, from, p, reset);
    }
  }

  // ------------------------------------------------------------ steps together

  /** Where a point ends after so many failures: back in todo/ exactly when it
      failed, may be tried again, and has attempts left. */
  function EndOf(outcome: Outcome, failures: nat): (dir: Dir)
    ensures dir.Done? <==> outcome.AsDone?
    ensures dir.Blocked? <==> outcome.AsBlocked?
    ensures dir.Todo? <==> outcome == AsFailed(true) && failures < MAX_ATTEMPTS
    ensures !dir.Running?
  {
    match outcome
    case AsDone => Done
    case AsBlocked => Blocked
    case AsFailed(again) => if again && failures < MAX_ATTEMPTS then Todo else Failed
  }

  /** Three steps, each next after the one before, lead from `s` to `t`. */
  ghost predicate LeadTo(s: State, a: Op, b: Op, c: Op, t: State) {
    && Enabled(s, a) && Enabled(Apply(s, a), b) && Enabled(Apply(Apply(s, a), b), c)
    && Apply(Apply(Apply(s, a), b), c) == t
  }

  /** Where an addition stands when `i` directories were found without the point. */
  function Looked(s: State, c: Claim, i: nat): State {
    s.(adding := s.adding[c := i])
  }

  function WithNew(s: State, c: Claim): State {
    s.(files := s.files[Loc(Todo, c.pid) := 0], known := s.known + {c.pid})
  }

  lemma LookStep(s: State, c: Claim, i: nat)
    requires c !in s.adding && i < |STATES|
    ensures Enabled(Looked(s, c, i), Look(c))
    ensures Apply(Looked(s, c, i), Look(c)) == if Loc(STATES[i], c.pid) in s.files then s else Looked(s, c, i + 1)
  {
    assert s.adding[c := i] - {c} == s.adding;
    assert s.adding[c := i][c := i + 1] == s.adding[c := i + 1];
  }

  lemma WriteStep(s: State, c: Claim)
    requires c !in s.adding
    ensures Enabled(Looked(s, c, |STATES|), WriteNew(c))
    ensures Apply(Looked(s, c, |STATES|), WriteNew(c)) == WithNew(s, c)
  {
    assert s.adding[c := |STATES|] - {c} == s.adding;
  }

  /** The state when a job has claimed a point and loaded it. */
  function WithClaim(s: State, c: Claim): State
    requires Loc(Todo, c.pid) in s.files
  {
    s.(files := Moved(s.files, Loc(Todo, c.pid), Loc(Running, c.pid), s.files[Loc(Todo, c.pid)]),
       owners := s.owners[c.pid := c.job], claims := s.claims[c := Working], lastClaim := s.lastClaim[c.pid := c.job])
  }

  lemma ClaimSteps(s: State, c: Claim)
    requires Enabled(s, Rename(c))
    ensures LeadTo(s, Rename(c), WriteOwner(c), Load(c), WithClaim(s, c))
    ensures (s.files - {Loc(Todo, c.pid)})[Loc(Running, c.pid) := s.files[Loc(Todo, c.pid)]]
         == Moved(s.files, Loc(Todo, c.pid), Loc(Running, c.pid), s.files[Loc(Todo, c.pid)])
  {
    var s1 := Apply(s, Rename(c));
    assert s1.files == Moved(s.files, Loc(Todo, c.pid), Loc(Running, c.pid), s.files[Loc(Todo, c.pid)]);
    assert s.claims[c := Renamed][c := Owned][c := Working] == s.claims[c := Working];
  }

  /** The state when a job has written a point to `l`, and removed its files in
      running/. */
  function WithOut(s: State, c: Claim, l: Loc, attempts: nat): State {
    s.(files := Moved(s.files, Loc(Running, c.pid), l, attempts), owners := s.owners - {c.pid},
        claims := s.claims - {c})
  }

  lemma LeaveSteps(s: State, c: Claim, l: Loc, attempts: nat)
    requires c in s.claims && l.pid == c.pid
    requires s.claims[c] == Leaving(l.dir, attempts) || (s.claims[c] == Taken(attempts) && l.dir.Todo?)
    ensures LeadTo(s, WriteOut(c), Op.Drop(c), Disown(c), WithOut(s, c, l, attempts))
  {
    var s1 := Apply(s, WriteOut(c));
    var s2 := Apply(s1, Op.Drop(c));
    assert s2.claims - {c} == s.claims - {c};
  }

  lemma WithOutFrom(s: State, c: Claim, phase: Phase, l: Loc, attempts: nat)
    ensures WithOut(At(s, c, phase), c, l, attempts) == WithOut(s, c, l, attempts)
  {
    assert s.claims[c := phase] - {c} == s.claims - {c};
  }

  /** The state when a point of another job has been put back in todo/. */
  function WithReturn(s: State, pid: int): State
    requires Loc(Running, pid) in s.files
  {
    s.(files := Moved(s.files, Loc(Running, pid), Loc(Todo, pid), s.files[Loc(Running, pid)]),
        owners := s.owners - {pid})
  }

  /** The state when some points in running/ have been put back. */
  ghost predicate Requeued(s: State, t: State, released: set<int>) {
    && MovedBack(s.files, t.files, Running, released, false) && t.owners == s.owners - released
    && t.claims == s.claims && t.dead == s.dead
  }

  lemma RequeueNext(s: State, t: State, released: set<int>, pid: int)
    requires Requeued(s, t, released) && pid !in released && Loc(Running, pid) in s.files
    ensures Loc(Running, pid) in t.files
    ensures Requeued(s, WithReturn(t, pid), released + {pid})
  {
    MoveOne(s.files, t.files, Running, released, pid, false);
  }

  /** The state when some failed or blocked points have been moved back. */
  ghost predicate Returning(s: State, t: State, from: Dir, moved: set<int>, reset: bool) {
    MovedBack(s.files, t.files, from, moved, reset) && t == s.(files := t.files) && t.moving == map[]
  }

  lemma ReturnNext(s: State, t: State, from: Dir, moved: set<int>, pid: int, reset: bool)
    requires Returning(s, t, from, moved, reset) && pid !in moved && !from.Todo? && Loc(from, pid) in s.files
    ensures Loc(from, pid) in t.files
    ensures var attempts := if reset then 0 else t.files[Loc(from, pid)];
      Returning(s, WithMove(t, Loc(from, pid), attempts), from, moved + {pid}, reset)
  {
    MoveOne(s.files, t.files, from, moved, pid, reset);
  }

  /** The state when an operator has moved a point back to todo/. */
  function WithMove(s: State, l: Loc, attempts: nat): State {
    s.(files := Moved(s.files, l, Loc(Todo, l.pid), attempts))
  }

  lemma MoveSteps(s: State, op: Op, l: Loc, attempts: nat)
    requires l in s.files && l !in s.moving
    requires (op == Unblock(l.pid) && l.dir == Blocked && attempts == s.files[l])
      || (op == Retry(l.pid) && l.dir == Failed && attempts == 0)
    ensures LeadTo(s, op, PutBack(l), TakeAway(l), WithMove(s, l, attempts))
  {
    var s1 := Apply(s, op);
    assert l == Loc(l.dir, l.pid) && s1.moving == s.moving[l := Loaded(attempts)];
    var s2 := Apply(s1, PutBack(l));
    assert s2.moving - {l} == s.moving;
  }

  /** None of the state directories before the `i`th has the point. */
  predicate IsFirst(files: map<Loc, nat>, pid: int, i: int) {
    0 <= i < |STATES| && forall k :: 0 <= k < i ==> Loc(STATES[k], pid) !in files
  }

  class Queue {
    var files: map<Loc, nat>
    var owners: map<int, int>
    /** Every step taken so far, and where they led. */
    ghost var run: seq<Op>
    ghost var state: State

    ghost predicate Ran()
      reads this
    {
      Legal(run) && After(run) == state
    }

    ghost predicate Valid()
      reads this
    {
      Ran() && state.files == files && state.owners == owners
    }

    constructor ()
      ensures Valid() && files == map[] && owners == map[] && run == []
    {
      files, owners, run, state := map[], map[], [], START;
    }

    /** One more step was taken. */
    ghost method Did(op: Op)
      requires Ran() && Enabled(state, op)
      modifies this`run, this`state
      ensures Ran() && run == old(run) + [op] && state == Apply(old(state), op)
    {
      Next(run, op);
      run, state := run + [op], Apply(state, op);
    }

    /** The first directory that has the point. */
    method Where(pid: int) returns (dir: Option<Dir>)
      requires Valid()
      ensures dir.None? <==> forall d: Dir :: Loc(d, pid) !in files
      ensures dir.Some? ==> Loc(dir.value, pid) in files
      ensures dir.Some? ==> exists i :: IsFirst(files, pid, i) && STATES[i] == dir.value
    {
      for i := 0 to |STATES|
        invariant forall k :: 0 <= k < i ==> Loc(STATES[k], pid) !in files
      {
        if Loc(STATES[i], pid) in files {
          assert IsFirst(files, pid, i);
          return Some(STATES[i]);
        }
      }
      Nowhere(files, pid);
      dir := None;
    }

    /** Queues a point unless it is known in any state. */
    method Add(c: Claim) returns (added: bool)
      requires Valid() && c !in state.adding && c.job !in state.dead
      modifies this
      ensures Valid()
      ensures added <==> forall d: Dir :: Loc(d, c.pid) !in old(files)
      ensures files == if added then old(files)[Loc(Todo, c.pid) := 0] else old(files)
      ensures owners == old(owners)
      ensures state == if added then WithNew(old(state), c) else old(state)
    {
      ghost var s := state;
      Did(BeginAdd(c));
      var found := LookThrough(c, s);
      if found {
        return false;
      }
      WriteStep(s, c);
      Did(WriteNew(c));
      files := files[Loc(Todo, c.pid) := 0];
      added := true;
    }

    /** Looks for a point in one directory after the other. */
    method LookThrough(c: Claim, ghost s: State) returns (found: bool)
      requires Valid() && c !in s.adding && state == Looked(s, c, 0)
      modifies this`run, this`state
      ensures Valid() && state == if found then s else Looked(s, c, |STATES|)
      ensures !found <==> forall d: Dir :: Loc(d, c.pid) !in files
    {
      var i := 0;
      while i < |STATES|
        invariant 0 <= i <= |STATES| && Valid() && state == Looked(s, c, i)
        invariant forall k :: 0 <= k < i ==> Loc(STATES[k], c.pid) !in files
      {
        LookStep(s, c, i);
        Did(Look(c));
        if Loc(STATES[i], c.pid) in files {
          return true;
        }
        i := i + 1;
      }
      Nowhere(files, c.pid);
      found := false;
    }

    /** The point's attempts, now that it is this job's; none if another took it
        first. */
    method Claim(c: Claim) returns (attempts: Option<nat>)
      requires Valid() && c.job !in state.dead && c !in state.claims
      modifies this
      ensures Valid()
      ensures attempts.None? <==> Loc(Todo, c.pid) !in old(files)
      ensures attempts.None? ==> files == old(files) && owners == old(owners) && run == old(run)
      ensures attempts.Some? ==>
        && attempts.value == old(files)[Loc(Todo, c.pid)]
        && files == (old(files) - {Loc(Todo, c.pid)})[Loc(Running, c.pid) := attempts.value]
        && owners == old(owners)[c.pid := c.job]
        && state == WithClaim(old(state), c)
        && run == old(run) + [Rename(c)] + [WriteOwner(c)] + [Load(c)]
    {
      if Loc(Todo, c.pid) !in files {
        return None;
      }
      ClaimSteps(state, c);
      Did(Rename(c));
      files := (files - {Loc(Todo, c.pid)})[Loc(Running, c.pid) := files[Loc(Todo, c.pid)]];
      Did(WriteOwner(c));
      owners := owners[c.pid := c.job];
      Did(Load(c));
      attempts := Some(files[Loc(Running, c.pid)]);
    }

    /** The point goes where it was decided to go: its file there, then the one
        in running/ and its owner file removed. */
    method LeaveRunning(c: Claim, dir: Dir, attempts: nat)
      requires Valid() && !dir.Running?
      requires c in state.claims && state.claims[c] == Leaving(dir, attempts)
      modifies this
      ensures Valid() && state == WithOut(old(state), c, Loc(dir, c.pid), attempts)
      ensures Loc(dir, c.pid) in files && files[Loc(dir, c.pid)] == attempts && Loc(Running, c.pid) !in files
      ensures forall l :: l != Loc(dir, c.pid) && l != Loc(Running, c.pid) ==>
        (l in files <==> l in old(files)) && (l in files ==> files[l] == old(files)[l])
      ensures owners == old(owners) - {c.pid}
      ensures run == old(run) + [WriteOut(c)] + [Op.Drop(c)] + [Disown(c)]
    {
      LeaveSteps(state, c, Loc(dir, c.pid), attempts);
      Did(WriteOut(c));
      files := files[Loc(dir, c.pid) := attempts];
      Did(Op.Drop(c));
      files := files - {Loc(Running, c.pid)};
      Did(Disown(c));
      owners := owners - {c.pid};
    }

    /** Back to todo/ as if never claimed. */
    method Release(c: Claim)
      requires Valid() && c in state.claims && state.claims[c] == Working && Loc(Running, c.pid) in files
      modifies this
      ensures Valid() && state == WithOut(old(state), c, Loc(Todo, c.pid), old(files)[Loc(Running, c.pid)])
      ensures Loc(Todo, c.pid) in files && files[Loc(Todo, c.pid)] == old(files)[Loc(Running, c.pid)]
      ensures Loc(Running, c.pid) !in files && c.pid !in owners
    {
      var attempts := files[Loc(Running, c.pid)];
      WithOutFrom(state, c, Leaving(Todo, attempts), Loc(Todo, c.pid), attempts);
      Did(Op.Release(c));
      LeaveRunning(c, Todo, attempts);
    }

    /** Leaves running/; a failure is tried again until `MAX_ATTEMPTS`, unless
        told not to. */
    method Finish(c: Claim, outcome: Outcome) returns (dir: Dir)
      requires Valid() && c in state.claims && state.claims[c] == Working && Loc(Running, c.pid) in files
      modifies this
      ensures var was := old(files)[Loc(Running, c.pid)];
        var attempts := if outcome.AsFailed? then was + 1 else was;
        && Valid() && state == WithOut(old(state), c, Loc(dir, c.pid), attempts)
        && dir == EndOf(outcome, attempts)
        && Loc(dir, c.pid) in files && files[Loc(dir, c.pid)] == attempts
        && Loc(Running, c.pid) !in files && c.pid !in owners
    {
      var attempts := files[Loc(Running, c.pid)];
      if outcome.AsFailed? {
        attempts := attempts + 1;
      }
      dir := EndOf(outcome, attempts);
      WithOutFrom(state, c, Leaving(dir, attempts), Loc(dir, c.pid), attempts);
      Did(Op.Finish(c, outcome));
      LeaveRunning(c, dir, attempts);
    }

    /** Releases the points in running/ whose owner is none of the live jobs
        (when these are known), or whose claim or file is among the `aged`, by a
        job that is at no point yet. */
    method RequeueStale(job: int, alive: Option<set<int>>, aged: set<int>) returns (released: set<int>)
      requires Valid() && job !in state.dead && Free(state, job)
      modifies this
      ensures Valid() && state.claims == old(state).claims
      // of the points in running/: with an owner file and the live jobs known, those whose owner is
      // none of them; otherwise those that are old
      ensures forall pid :: pid in released ==> Loc(Running, pid) in old(files)
      ensures forall pid :: Loc(Running, pid) in old(files) && pid in old(owners) && alive.Some? ==>
        (pid in released <==> old(owners)[pid] !in alive.value)
      ensures forall pid :: Loc(Running, pid) in old(files) && (pid !in old(owners) || alive.None?) ==>
        (pid in released <==> pid in aged)
      // they are in todo/ with the attempts they had, and their owner files are gone
      ensures forall pid :: pid in released ==>
        && Loc(Todo, pid) in files && files[Loc(Todo, pid)] == old(files)[Loc(Running, pid)]
        && Loc(Running, pid) !in files && pid !in owners
      // all others keep their files, attempts and owners
      ensures forall l: Loc :: l.pid !in released ==>
        (l in files <==> l in old(files)) && (l in files ==> files[l] == old(files)[l])
      ensures forall pid :: pid !in released ==>
        (pid in owners <==> pid in old(owners)) && (pid in owners ==> owners[pid] == old(owners)[pid])
      ensures MovedBack(old(files), files, Running, released, false)
      ensures released == Stale(old(files), old(owners), alive, aged) && owners == old(owners) - released
    {
      var ids := Stale(files, owners, alive, aged);
      ghost var all := ids;
      released := {};
      ghost var s := state;
      while ids != {}
        invariant Valid() && Requeued(s, state, released)
        invariant ids == all - released && released <= all
        decreases ids
      {
        var pid :| pid in ids;
        RequeueNext(s, state, released, pid);
        ReleaseStale(job, pid);
        ids, released := ids - {pid}, released + {pid};
      }
    }

    /** Releases one point, whoever has it. */
    method ReleaseStale(job: int, pid: int)
      requires Valid() && job !in state.dead && Free(state, job) && Loc(Running, pid) in files
      modifies this
      ensures Valid() && state == WithReturn(old(state), pid)
    {
      var c, attempts := FsQueue.Claim.Claim(job, pid), files[Loc(Running, pid)];
      ghost var s := state;
      Did(Requeue(c, LooksStale(state, pid)));
      PutInTodo(c, attempts);
      assert s.claims[c := Taken(attempts)] - {c} == s.claims;
    }

    /** The rest of a requeue: the file to todo/, and away with the one in running/
        and the owner file. */
    method PutInTodo(c: Claim, attempts: nat)
      requires Valid() && c in state.claims && state.claims[c] == Taken(attempts)
      modifies this
      ensures Valid() && state == WithOut(old(state), c, Loc(Todo, c.pid), attempts)
    {
      LeaveSteps(state, c, Loc(Todo, c.pid), attempts);
      Did(WriteOut(c));
      files := files[Loc(Todo, c.pid) := attempts];
      Did(Op.Drop(c));
      files := files - {Loc(Running, c.pid)};
      Did(Disown(c));
      owners := owners - {c.pid};
    }

    /** Writes a point to todo/, and removes it where it was. */
    method PutBackOne(ghost op: Op, from: Dir, pid: int, attempts: nat)
      requires Valid() && state.moving == map[] && Loc(from, pid) in files
      requires (op == Unblock(pid) && from == Blocked && attempts == files[Loc(from, pid)])
        || (op == Retry(pid) && from == Failed && attempts == 0)
      modifies this
      ensures Valid() && state == WithMove(old(state), Loc(from, pid), attempts)
    {
      var l := Loc(from, pid);
      MoveSteps(state, op, l, attempts);
      Did(op);
      Did(PutBack(l));
      files := files[Loc(Todo, pid) := attempts];
      Did(TakeAway(l));
      files := files - {l};
    }

    /** Blocked points back to todo/. */
    method UnblockAll() returns (moved: set<int>)
      requires Valid() && state.moving == map[]
      modifies this
      ensures Valid() && state.claims == old(state).claims && owners == old(owners)
      ensures forall pid :: pid in moved <==> Loc(Blocked, pid) in old(files)
      ensures forall pid :: pid in moved ==>
        && Loc(Todo, pid) in files && files[Loc(Todo, pid)] == old(files)[Loc(Blocked, pid)]
        && Loc(Blocked, pid) !in files
      ensures MovedBack(old(files), files, Blocked, moved, false)
    {
      var ids := Ids(files, Blocked);
      ghost var all := ids;
      moved := {};
      ghost var s := state;
      while ids != {}
        invariant Valid() && Returning(s, state, Blocked, moved, false)
        invariant ids == all - moved && moved <= all
        decreases ids
      {
        var pid :| pid in ids;
        ReturnNext(s, state, Blocked, moved, pid, false);
        PutBackOne(Unblock(pid), Blocked, pid, files[Loc(Blocked, pid)]);
        ids, moved := ids - {pid}, moved + {pid};
      }
    }

    /** Failed points that are `chosen` back to todo/, as if never tried. */
    method RetryAll(chosen: set<int>) returns (moved: set<int>)
      requires Valid() && state.moving == map[]
      modifies this
      ensures Valid() && state.claims == old(state).claims && owners == old(owners)
      ensures forall pid :: pid in moved <==> Loc(Failed, pid) in old(files) && pid in chosen
      ensures forall pid :: pid in moved ==>
        Loc(Todo, pid) in files && files[Loc(Todo, pid)] == 0 && Loc(Failed, pid) !in files
      ensures MovedBack(old(files), files, Failed, moved, true)
    {
      var ids := Ids(files, Failed) * chosen;
      ghost var all := ids;
      assert forall pid :: pid in all <==> Loc(Failed, pid) in files && pid in chosen;
      moved := {};
      ghost var s := state;
      while ids != {}
        invariant Valid() && Returning(s, state, Failed, moved, true)
        invariant ids == all - moved && moved <= all
        decreases ids
      {
        var pid :| pid in ids;
        ReturnNext(s, state, Failed, moved, pid, true);
        PutBackOne(Retry(pid), Failed, pid, 0);
        ids, moved := ids - {pid}, moved + {pid};
      }
      assert moved == all;
    }
  }

  /** What `requeue_stale` goes by: the owner file and the live jobs, or the age of
      the claim when these are not known, or of the file when there is no owner. */
  predicate IsStale(owners: map<int, int>, alive: Option<set<int>>, aged: set<int>, pid: int) {
    if pid !in owners || alive.None? then pid in aged else owners[pid] !in alive.value
  }

  /** When the live jobs are those that have not ended, a point in running/ with an
      owner file is released exactly when its owner has ended: no live job's is. */
  lemma LiveAreKept(s: State, alive: set<int>, aged: set<int>, pid: int)
    requires forall p :: p in s.owners ==> (s.owners[p] in alive <==> s.owners[p] !in s.dead)
    requires Loc(Running, pid) in s.files && pid in s.owners
    ensures pid in Stale(s.files, s.owners, Some(alive), aged) <==> s.owners[pid] in s.dead
  {
  }

  /** The points in a directory. */
  function Ids(files: map<Loc, nat>, dir: Dir): (ids: set<int>)
    ensures forall pid :: pid in ids <==> Loc(dir, pid) in files
  {
    set l | l in files && l.dir == dir :: l.pid
  }

  function Stale(files: map<Loc, nat>, owners: map<int, int>, alive: Option<set<int>>, aged: set<int>): (ids: set<int>)
    ensures forall pid :: pid in ids <==> Loc(Running, pid) in files && IsStale(owners, alive, aged, pid)
  {
    set pid | pid in Ids(files, Running) && IsStale(owners, alive, aged, pid)
  }

  ghost predicate Free(s: State, job: int) {
    forall c :: c in s.claims ==> c.job != job
  }

  lemma IsState(d: Dir)
    ensures d in STATES
  {
    assert STATES[0] == Todo && STATES[1] == Running && STATES[2] == Done && STATES[3] == Failed &&
        STATES[4] == Blocked;
  }

  /** A point found in none of the state directories is in none at all. */
  lemma Nowhere(files: map<Loc, nat>, pid: int)
    requires forall k :: 0 <= k < |STATES| ==> Loc(STATES[k], pid) !in files
    ensures forall d: Dir :: Loc(d, pid) !in files
  {
    forall d: Dir ensures Loc(d, pid) !in files {
      IsState(d);
    }
  }
}
