/** What jobs billed, in a window and day by day (`spent_between` and `per_day`
    in bench/campaign/budget.py). */
module Budget {
  import opened Options

  const HOUR: real := 3600.0
  const DAY: real := 86400.0

  /** The rate in GPU-hours per hour and when it ran, in seconds; no start when
      unknown, no end while it runs. */
  datatype Job = Job(rate: real, start: Option<real>, end: Option<real>)

  function Min(a: real, b: real): real {
    if a < b then a else b
  }

  function Max(a: real, b: real): real {
    if a < b then b else a
  }

  /** The seconds of the job's run in the window. */
  function Overlap(j: Job, since: real, now: real): (s: real)
    ensures s >= 0.0
  {
    if j.start.None? then 0.0
    else
      var end := if j.end.Some? then j.end.value else now;
      Max(0.0, Min(end, now) - Max(j.start.value, since))
  }

  /** At time `t` it ran, in the window. */
  predicate RanAt(j: Job, since: real, now: real, t: real) {
    && since <= t <= now
    && j.start.Some? && j.start.value <= t && (j.end.Some? ==> t <= j.end.value)
  }

  /** The overlap is as long as the times in the window at which the job ran: none
      when there are none, and otherwise all those from one time to another. */
  lemma OverlapIs(j: Job, since: real, now: real)
    ensures (forall t :: !RanAt(j, since, now, t)) ==> Overlap(j, since, now) == 0.0
    ensures (exists t :: RanAt(j, since, now, t)) ==>
      exists a, b :: a <= b && IsSpan(j, since, now, a, b) && Overlap(j, since, now) == b - a
  {
    if t :| RanAt(j, since, now, t) {
      var a := Max(j.start.value, since);
      var b := Min(if j.end.Some? then j.end.value else now, now);
      assert IsSpan(j, since, now, a, b);
    } else if j.start.Some? {
      var t := Max(j.start.value, since);
      assert !RanAt(j, since, now, t);
    }
  }

  ghost predicate IsSpan(j: Job, since: real, now: real, a: real, b: real) {
    forall t :: RanAt(j, since, now, t) <==> a <= t <= b
  }

  function Billed(j: Job, since: real, now: real): real {
    j.rate * Overlap(j, since, now) / HOUR
  }

  /** What the first `n` jobs billed in the window. */
  function Spent(jobs: seq<Job>, n: nat, since: real, now: real): real
    requires n <= |jobs|
  {
    if n == 0 then 0.0 else Spent(jobs, n - 1, since, now) + Billed(jobs[n - 1], since, now)
  }

  method SpentBetween(jobs: seq<Job>, since: real, now: real) returns (total: real)
    ensures total == Spent(jobs, |jobs|, since, now)
  {
    total := 0.0;
    var i := 0;
    while i < |jobs|
      invariant i <= |jobs| && total == Spent(jobs, i, since, now)
    {
      var j := jobs[i];
      if j.start.Some? {
        var end := if j.end.Some? then j.end.value else now;
        var overlap := Min(end, now) - Max(j.start.value, since);
        if overlap > 0.0 {
          total := total + j.rate * overlap / HOUR;
        }
      }
      i := i + 1;
    }
  }

  /** An hour of a job costs its rate. */
  lemma HourCostsRate(j: Job, since: real, now: real)
    requires now - since == 3600.0 && RanAt(j, since, now, since) && RanAt(j, since, now, now)
    ensures Billed(j, since, now) == j.rate
  {
  }

  /** What two lists of jobs billed is billed by the one after the other, and a
      job's own is billed by it alone. */
  lemma {:induction false} SpentJoins(jobs: seq<Job>, more: seq<Job>, n: nat, since: real, now: real)
    requires n <= |more|
    ensures Spent(jobs + more, |jobs| + n, since, now) == Spent(jobs, |jobs|, since, now) + Spent(more, n, since, now)
    ensures forall j :: Spent([j], 1, since, now) == Billed(j, since, now)
  {
    if n == 0 {
      SpentFirst(jobs, more, |jobs|, since, now);
    } else {
      SpentJoins(jobs, more, n - 1, since, now);
      assert (jobs + more)[|jobs| + n - 1] == more[n - 1];
    }
    forall j ensures Spent([j], 1, since, now) == Billed(j, since, now) {
      assert Spent([j], 0, since, now) == 0.0;
    }
  }

  lemma {:induction false} SpentFirst(jobs: seq<Job>, more: seq<Job>, n: nat, since: real, now: real)
    requires n <= |jobs|
    ensures Spent(jobs + more, n, since, now) == Spent(jobs, n, since, now)
  {
    if n == 0 {
    } else {
      SpentFirst(jobs, more, n - 1, since, now);
    }
  }

  /** A run in two windows end to end is the run in both: a running job, which
      ends where each window does, included. */
  lemma OverlapSplits(j: Job, since: real, mid: real, now: real)
    requires since <= mid <= now
    ensures Overlap(j, since, mid) + Overlap(j, mid, now) == Overlap(j, since, now)
  {
  }

  lemma BilledSplits(j: Job, since: real, mid: real, now: real)
    requires since <= mid <= now
    ensures Billed(j, since, mid) + Billed(j, mid, now) == Billed(j, since, now)
  {
    OverlapSplits(j, since, mid, now);
    var a, b := Overlap(j, since, mid), Overlap(j, mid, now);
    assert j.rate * a + j.rate * b == j.rate * (a + b);
  }

  lemma {:induction false} SpentSplits(jobs: seq<Job>, n: nat, since: real, mid: real, now: real)
    requires n <= |jobs| && since <= mid <= now
    ensures Spent(jobs, n, since, mid) + Spent(jobs, n, mid, now) == Spent(jobs, n, since, now)
  {
    if n == 0 {
    } else {
      SpentSplits(jobs, n - 1, since, mid, now);
      BilledSplits(jobs[n - 1], since, mid, now);
    }
  }

  /** Nothing is billed in a window that ends before it begins. */
  lemma {:induction false} NothingSpent(jobs: seq<Job>, n: nat, since: real, now: real)
    requires n <= |jobs| && now <= since
    ensures Spent(jobs, n, since, now) == 0.0
  {
    if n == 0 {
    } else {
      NothingSpent(jobs, n - 1, since, now);
      assert Overlap(jobs[n - 1], since, now) == 0.0;
    }
  }

  // ------------------------------------------------------------ days

  function Midnight(day: int): real {
    day as real * DAY
  }

  /** The day a time falls on. */
  function DayOf(t: real): (d: int)
    ensures Midnight(d) <= t < Midnight(d + 1)
  {
    (t / DAY).Floor
  }

  /** What the days from `first` to before `end` add up to. */
  function Total(days: map<int, real>, first: int, end: int): real
    requires first <= end && forall d :: first <= d < end ==> d in days
    decreases end - first
  {
    if first == end then 0.0 else Total(days, first, end - 1) + days[end - 1]
  }

  lemma TotalStays(days: map<int, real>, first: int, end: int, v: real)
    requires first <= end && forall d :: first <= d < end ==> d in days
    ensures Total(days[end := v], first, end) == Total(days, first, end)
  {
    TotalOf(days, days[end := v], first, end);
  }

  lemma {:induction false} TotalOf(days: map<int, real>, days': map<int, real>, first: int, end: int)
    requires first <= end && forall d :: first <= d < end ==> d in days && d in days' && days[d] == days'[d]
    ensures Total(days', first, end) == Total(days, first, end)
    decreases end - first
  {
    if first < end {
      TotalOf(days, days', first, end - 1);
    }
  }

  /** The days up to `d`, before it, as far as `now`. */
  ghost predicate BilledTo(jobs: seq<Job>, days: map<int, real>, first: int, d: int, now: real) {
    && first <= d
    && (forall x :: x in days <==> first <= x < d)
    && (forall x :: x in days ==> days[x] == Spent(jobs, |jobs|, Midnight(x), Min(Midnight(x + 1), now)))
    && Total(days, first, d) ==
        Spent(jobs, |jobs|, Midnight(first), if d == first then Midnight(first) else Min(Midnight(d), now))
  }

  lemma BilledNext(jobs: seq<Job>, days: map<int, real>, first: int, d: int, now: real, v: real)
    requires BilledTo(jobs, days, first, d, now) && Midnight(d) <= now
    requires v == Spent(jobs, |jobs|, Midnight(d), Min(Midnight(d + 1), now))
    ensures BilledTo(jobs, days[d := v], first, d + 1, now)
  {
    TotalStays(days, first, d, v);
    SpentSplits(jobs, |jobs|, Midnight(first), Midnight(d), Min(Midnight(d + 1), now));
  }

  /** What was billed on each day from `first` to today: together exactly what
      was billed from the first midnight to now. */
  method PerDay(jobs: seq<Job>, first: int, now: real) returns (days: map<int, real>)
    ensures forall d :: d in days <==> first <= d <= DayOf(now)
    ensures forall d :: d in days ==> days[d] == Spent(jobs, |jobs|, Midnight(d), Min(Midnight(d + 1), now))
    ensures Total(days, first, if first <= DayOf(now) then DayOf(now) + 1 else first)
         == Spent(jobs, |jobs|, Midnight(first), now)
  {
    days := map[];
    var d := first;
    NothingSpent(jobs, |jobs|, Midnight(first), Midnight(first));
    while d <= DayOf(now)
      invariant BilledTo(jobs, days, first, d, now)
      invariant first <= DayOf(now) ==> d <= DayOf(now) + 1
      invariant first > DayOf(now) ==> d == first
      decreases DayOf(now) + 1 - d
    {
      var start := Midnight(d);
      var spent := SpentBetween(jobs, start, Min(start + DAY, now));
      assert Midnight(d + 1) == start + DAY;
      BilledNext(jobs, days, first, d, now, spent);
      days := days[d := spent];
      d := d + 1;
    }
    if first > DayOf(now) {
      NothingSpent(jobs, |jobs|, Midnight(first), now);
    }
  }
}
