/** Several jobs draining one queue of files through renames, writes and
    removes (`Queue` in bench/campaign/fsqueue.py), one file operation a step:
    the code as it is written, with nothing assumed about who does what when. */
module FsQueue {

  const MAX_ATTEMPTS: nat := 2

  datatype Dir = Todo | Running | Done | Failed | Blocked

  /** The state directories in the order in which they are looked through. */
  const STATES: seq<Dir> := [Todo, Running, Done, Failed, Blocked]

  /** The file of a point in one of the state directories. */
  datatype Loc = Loc(dir: Dir, pid: int)

  /** A job at work on a point. */
  datatype Claim = Claim(job: int, pid: int)

  /** How far a job is with a point. After a claim: it renamed its file into
      running/, wrote its owner file, loaded it; decided where it goes, wrote it
      there, and removed it from running/ (its owner file is still to be
      removed). Requeueing another's: it loaded the file in running/, wrote it
      to todo/, and removed it from running/. */
  datatype Phase =
    | Renamed
    | Owned
    | Working
    | Leaving(dir: Dir, attempts: nat)
    | Wrote(dir: Dir)
    | Dropped
    | Taken(attempts: nat)
    | Put
    | Cleared

  /** How far `unblock` or `retry` is with a failed or blocked point: it loaded
      the file, with the attempts it will have, or wrote it to todo/. */
  datatype Move = Loaded(attempts: nat) | Placed

  /** The files with their attempts, the owner files, what live jobs are at, the
      points being moved back, for each addition under way how many directories
      were found without the point, the jobs that ended, and, for the record,
      the points ever added and the job that last claimed each. */
  datatype State = State(files: map<Loc, nat>, owners: map<int, int>, claims: map<Claim, Phase>,
                         moving: map<Loc, Move>, adding: map<Claim, nat>, dead: set<int>,
                         known: set<int>, lastClaim: map<int, int>)

  const START: State := State(map[], map[], map[], map[], map[], {}, {}, map[])

  datatype Outcome = AsDone | AsFailed(again: bool) | AsBlocked

  datatype Op =
    | BeginAdd(c: Claim)
    | Look(c: Claim)
    | WriteNew(c: Claim)
    | Rename(c: Claim)
    | WriteOwner(c: Claim)
    | Load(c: Claim)
    | Finish(c: Claim, outcome: Outcome)
    | Release(c: Claim)
    | Requeue(c: Claim, jobsKnown: bool)
    | WriteOut(c: Claim)
    | Drop(c: Claim)
    | Disown(c: Claim)
    | Unblock(pid: int)
    | Retry(pid: int)
    | PutBack(l: Loc)
    | TakeAway(l: Loc)
    | Stop(l: Loc)
    | Crash(job: int)

  // ------------------------------------------------------------ the steps

  /** A live job has the point: from the rename to the removal from running/. */
  ghost predicate Holds(s: State, c: Claim) {
    c in s.claims && match s.claims[c]
      case Renamed | Owned | Working | Leaving(_, _) | Wrote(_) => true
      case _ => false
  }

  /** The job of the owner file has ended, or there is no owner file. */
  predicate LooksStale(s: State, pid: int) {
    pid !in s.owners || s.owners[pid] in s.dead
  }

  /** Where a finished point goes, and its attempts by then. */
  function Target(outcome: Outcome, attempts: nat): Phase {
    match outcome
    case AsDone => Leaving(Done, attempts)
    case AsBlocked => Leaving(Blocked, attempts)
    case AsFailed(again) =>
      if again && attempts + 1 < MAX_ATTEMPTS then Leaving(Todo, attempts + 1) else Leaving(Failed, attempts + 1)
  }

  /** When an operation is next for whoever does it. A requeue goes by the owner
      file when the live jobs are known, and by its age alone otherwise. */
  predicate Enabled(s: State, op: Op) {
    match op
    case BeginAdd(c) => c !in s.adding && c.job !in s.dead
    case Look(c) => c in s.adding && s.adding[c] < |STATES|
    case WriteNew(c) => c in s.adding && s.adding[c] == |STATES|
    case Rename(c) => c.job !in s.dead && c !in s.claims && Loc(Todo, c.pid) in s.files
    case WriteOwner(c) => c in s.claims && s.claims[c].Renamed?
    case Load(c) => c in s.claims && s.claims[c].Owned? && Loc(Running, c.pid) in s.files
    case Finish(c, _) => c in s.claims && s.claims[c].Working? && Loc(Running, c.pid) in s.files
    case Release(c) => c in s.claims && s.claims[c].Working? && Loc(Running, c.pid) in s.files
    case Requeue(c, jobsKnown) =>
      && c.job !in s.dead && c !in s.claims && Loc(Running, c.pid) in s.files
      && (jobsKnown ==> LooksStale(s, c.pid))
    case WriteOut(c) => c in s.claims && (s.claims[c].Leaving? || s.claims[c].Taken?)
    case Drop(c) => c in s.claims && (s.claims[c].Wrote? || s.claims[c].Put?)
    case Disown(c) => c in s.claims && (s.claims[c].Dropped? || s.claims[c].Cleared?)
    case Unblock(pid) => Loc(Blocked, pid) in s.files && Loc(Blocked, pid) !in s.moving
    case Retry(pid) => Loc(Failed, pid) in s.files && Loc(Failed, pid) !in s.moving
    case PutBack(l) => l in s.moving && s.moving[l].Loaded?
    case TakeAway(l) => l in s.moving && s.moving[l].Placed?
    case Stop(l) => l in s.moving
    case Crash(job) => job !in s.dead
  }

  /** What a job does next is all that changes of where it stands. */
  function At(s: State, c: Claim, phase: Phase): State {
    s.(claims := s.claims[c := phase])
  }

  function Written(s: State, l: Loc, attempts: nat): State {
    s.(files := s.files[l := attempts])
  }

  function Removed(s: State, l: Loc): State {
    s.(files := s.files - {l})
  }

  function Apply(s: State, op: Op): State
    requires Enabled(s, op)
  {
    match op
    case BeginAdd(c) => s.(adding := s.adding[c := 0])
    case Look(c) =>
      if Loc(STATES[s.adding[c]], c.pid) in s.files then s.(adding := s.adding - {c})
      else s.(adding := s.adding[c := s.adding[c] + 1])
    case WriteNew(c) => Written(s.(adding := s.adding - {c}, known := s.known + {c.pid}), Loc(Todo, c.pid), 0)
    case Rename(c) =>
      var attempts := s.files[Loc(Todo, c.pid)];
      At(Written(Removed(s, Loc(Todo, c.pid)), Loc(Running, c.pid), attempts), c, Renamed)
      .(lastClaim := s.lastClaim[c.pid := c.job])
    case WriteOwner(c) => At(s, c, Owned).(owners := s.owners[c.pid := c.job])
    case Load(c) => At(s, c, Working)
    case Finish(c, outcome) => At(s, c, Target(outcome, s.files[Loc(Running, c.pid)]))
    case Release(c) => At(s, c, Leaving(Todo, s.files[Loc(Running, c.pid)]))
    case Requeue(c, _) => At(s, c, Taken(s.files[Loc(Running, c.pid)]))
    case WriteOut(c) =>
      match s.claims[c] {
        case Leaving(dir, attempts) => At(Written(s, Loc(dir, c.pid), attempts), c, Wrote(dir))
        case Taken(attempts) => At(Written(s, Loc(Todo, c.pid), attempts), c, Put)
      }
    case Drop(c) => At(Removed(s, Loc(Running, c.pid)), c, if s.claims[c].Wrote? then Dropped else Cleared)
    case Disown(c) => s.(owners := s.owners - {c.pid}, claims := s.claims - {c})
    case Unblock(pid) => s.(moving := s.moving[Loc(Blocked, pid) := Loaded(s.files[Loc(Blocked, pid)])])
    case Retry(pid) => s.(moving := s.moving[Loc(Failed, pid) := Loaded(0)])
    case PutBack(l) => Written(s.(moving := s.moving[l := Placed]), Loc(Todo, l.pid), s.moving[l].attempts)
    case TakeAway(l) => Removed(s.(moving := s.moving - {l}), l)
    case Stop(l) => s.(moving := s.moving - {l})
    case Crash(job) =>
      s.(dead := s.dead + {job}, claims := map c | c in s.claims && c.job != job :: s.claims[c],
         adding := map c | c in s.adding && c.job != job :: s.adding[c])
  }

  /** A run: any operations of any jobs, in any order in which each was next. */
  ghost predicate Legal(ops: seq<Op>)
    decreases |ops|, 0
  {
    ops == [] || (Legal(ops[..|ops| - 1]) && Enabled(After(ops[..|ops| - 1]), ops[|ops| - 1]))
  }

  ghost function After(ops: seq<Op>): State
    requires Legal(ops)
    decreases |ops|, 1
  {
    if ops == [] then START else Apply(After(ops[..|ops| - 1]), ops[|ops| - 1])
  }

  lemma Next(ops: seq<Op>, op: Op)
    requires Legal(ops) && Enabled(After(ops), op)
    ensures Legal(ops + [op]) && After(ops + [op]) == Apply(After(ops), op)
  {
    assert (ops + [op])[..|ops|] == ops;
  }
}
