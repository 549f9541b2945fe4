/**
  The coordinator's view of its worker pool: the jobs handed out and not yet
  accounted, the number of them kept for each directory, and the circuit
  breaker fed by their results.
*/
module Pool {
  import opened Bytes
  import opened Accounting
  import opened Trail

  /** A file copy handed to the pool, with its destination directory. */
  datatype Job = Job(dir: Path, name: string, size: nat, replacing: bool)

  /** What a worker reports. */
  datatype Result =
    | Copied(bytes: nat)
    | Promoted                  // handed back untouched, to be copied inline
    | Stopped                   // canceled between chunks
    | Broken(category: Category)

  /** Jobs in flight for one directory. */
  ghost function CountIn(jobs: seq<Job>, d: Path): int {
    if jobs == [] then 0
    else if jobs[|jobs| - 1].dir == d then CountIn(jobs[..|jobs| - 1], d) + 1
    else CountIn(jobs[..|jobs| - 1], d)
  }

  lemma CountAppend(jobs: seq<Job>, job: Job)
    ensures forall d :: CountIn(jobs + [job], d) == if job.dir == d then CountIn(jobs, d) + 1 else CountIn(jobs, d)
  {
    assert (jobs + [job])[..|jobs|] == jobs;
  }

  function Without(jobs: seq<Job>, k: nat): seq<Job>
    requires k < |jobs|
  {
    jobs[..k] + jobs[k + 1..]
  }

  /** Whichever job is taken out, only its directory has one fewer. */
  lemma {:induction false} CountWithout(jobs: seq<Job>, k: nat)
    requires k < |jobs|
    ensures forall d :: CountIn(jobs, d)
                     == if jobs[k].dir == d then CountIn(Without(jobs, k), d) + 1 else CountIn(Without(jobs, k), d)
  {
    var rest, last := jobs[..|jobs| - 1], jobs[|jobs| - 1];
    if k == |jobs| - 1 {
      assert Without(jobs, k) == rest;
    } else {
      CountWithout(rest, k);
      assert Without(jobs, k) == Without(rest, k) + [last];
      CountAppend(Without(rest, k), last);
    }
  }

  ghost function DirsOf(jobs: seq<Job>): multiset<Path> {
    if jobs == [] then multiset{} else DirsOf(jobs[..|jobs| - 1]) + multiset{jobs[|jobs| - 1].dir}
  }

  /** The counts of all directories add up to the number of jobs. */
  lemma {:induction false} CountsAddUp(jobs: seq<Job>)
    ensures |DirsOf(jobs)| == |jobs| && forall d :: DirsOf(jobs)[d] == CountIn(jobs, d)
  {
    if jobs == [] {
    } else {
      CountsAddUp(jobs[..|jobs| - 1]);
    }
  }

  // ---- outstanding jobs per directory

  function OutOf(m: map<Path, int>, d: Path): int { if d in m then m[d] else 0 }

  function More(m: map<Path, int>, d: Path): map<Path, int> { m[d := OutOf(m, d) + 1] }

  /** One job fewer; a directory without jobs leaves the map. */
  function Fewer(m: map<Path, int>, d: Path): map<Path, int> {
    if d !in m then m else if m[d] <= 1 then m - {d} else m[d := m[d] - 1]
  }

  /** The map counts exactly the jobs in flight, directory by directory, and
      names only directories that have some. */
  ghost predicate Counted(m: map<Path, int>, jobs: seq<Job>) {
    && (forall d :: OutOf(m, d) == CountIn(jobs, d))
    && (forall d :: d in m ==> m[d] > 0)
  }

  lemma CountedMore(m: map<Path, int>, jobs: seq<Job>, job: Job)
    requires Counted(m, jobs)
    ensures Counted(More(m, job.dir), jobs + [job])
  {
    CountAppend(jobs, job);
    forall e ensures OutOf(More(m, job.dir), e) == CountIn(jobs + [job], e) {
      assert OutOf(m, e) == CountIn(jobs, e);
    }
  }

  lemma CountedFewer(m: map<Path, int>, jobs: seq<Job>, k: nat)
    requires k < |jobs| && Counted(m, jobs)
    ensures Counted(Fewer(m, jobs[k].dir), Without(jobs, k))
  {
    var d := jobs[k].dir;
    CountWithout(jobs, k);
    CountPositive(jobs, k);
    assert OutOf(m, d) == CountIn(jobs, d);
    forall e ensures OutOf(Fewer(m, d), e) == CountIn(Without(jobs, k), e) {
      assert OutOf(m, e) == CountIn(jobs, e);
    }
  }

  lemma {:induction false} CountPositive(jobs: seq<Job>, k: nat)
    requires k < |jobs|
    ensures CountIn(jobs, jobs[k].dir) > 0
  {
    CountWithout(jobs, k);
    CountNatural(Without(jobs, k), jobs[k].dir);
  }

  lemma {:induction false} CountNatural(jobs: seq<Job>, d: Path)
    ensures CountIn(jobs, d) >= 0
  {
    if jobs == [] {
    } else {
      CountNatural(jobs[..|jobs| - 1], d);
    }
  }

  /** The trail, the pool and the map of outstanding jobs agree. */
  ghost predicate InStep(jobs: seq<Job>, outstanding: map<Path, int>, trail: seq<Event>) {
    && Counted(outstanding, jobs)
    && Clean(trail)
    && forall d :: Flying(trail, d) == CountIn(jobs, d)
  }

  lemma Submits(jobs: seq<Job>, outstanding: map<Path, int>, trail: seq<Event>, job: Job)
    requires InStep(jobs, outstanding, trail) && job.dir in OpenedIn(trail) && job.dir !in FinalizedIn(trail)
    ensures InStep(jobs + [job], More(outstanding, job.dir), trail + [Submitted(job.dir)])
    ensures FinalizedIn(trail + [Submitted(job.dir)]) == FinalizedIn(trail)
    ensures OpenedIn(trail + [Submitted(job.dir)]) == OpenedIn(trail)
  {
    CountedMore(outstanding, jobs, job);
    CountAppend(jobs, job);
    TrailAppend(trail, Submitted(job.dir));
  }

  lemma Touches(jobs: seq<Job>, outstanding: map<Path, int>, trail: seq<Event>, d: Path)
    requires InStep(jobs, outstanding, trail) && d in OpenedIn(trail) && d !in FinalizedIn(trail)
    ensures InStep(jobs, outstanding, trail + [Touched(d)])
    ensures FinalizedIn(trail + [Touched(d)]) == FinalizedIn(trail)
    ensures OpenedIn(trail + [Touched(d)]) == OpenedIn(trail)
  {
    TrailAppend(trail, Touched(d));
  }

  /** Whichever job completes, its directory is not finalized yet. */
  lemma Returns(jobs: seq<Job>, outstanding: map<Path, int>, trail: seq<Event>, k: nat)
    requires k < |jobs| && InStep(jobs, outstanding, trail)
    ensures var d := jobs[k].dir;
      && d in OpenedIn(trail) && d !in FinalizedIn(trail)
      && InStep(Without(jobs, k), Fewer(outstanding, d), trail + [Returned(d)])
      && FinalizedIn(trail + [Returned(d)]) == FinalizedIn(trail)
      && OpenedIn(trail + [Returned(d)]) == OpenedIn(trail)
  {
    var d := jobs[k].dir;
    CountPositive(jobs, k);
    ClosedIsQuiet(trail, d);
    CountedFewer(outstanding, jobs, k);
    CountWithout(jobs, k);
    TrailAppend(trail, Returned(d));
  }

  lemma Opens(jobs: seq<Job>, outstanding: map<Path, int>, trail: seq<Event>, d: Path)
    requires InStep(jobs, outstanding, trail) && d !in OpenedIn(trail) && d !in FinalizedIn(trail)
    ensures InStep(jobs, outstanding, trail + [Opened(d)])
    ensures FinalizedIn(trail + [Opened(d)]) == FinalizedIn(trail)
    ensures OpenedIn(trail + [Opened(d)]) == OpenedIn(trail) + {d}
  {
    TrailAppend(trail, Opened(d));
  }

  /** A directory without outstanding jobs may be stamped. */
  lemma Finalizes(jobs: seq<Job>, outstanding: map<Path, int>, trail: seq<Event>, d: Path)
    requires InStep(jobs, outstanding, trail) && d in OpenedIn(trail) && d !in FinalizedIn(trail)
    requires d !in outstanding
    ensures InStep(jobs, outstanding, trail + [Finalized(d)])
    ensures FinalizedIn(trail + [Finalized(d)]) == FinalizedIn(trail) + {d}
    ensures OpenedIn(trail + [Finalized(d)]) == OpenedIn(trail)
  {
    assert OutOf(outstanding, d) == 0;
    TrailAppend(trail, Finalized(d));
  }

  /** When every open directory is stamped nothing is in flight. */
  lemma AllStamped(jobs: seq<Job>, outstanding: map<Path, int>, trail: seq<Event>)
    requires InStep(jobs, outstanding, trail) && OpenedIn(trail) == FinalizedIn(trail)
    ensures jobs == []
  {
    if jobs != [] {
      CountPositive(jobs, 0);
      ClosedIsQuiet(trail, jobs[0].dir);
    }
  }

  // ---- the circuit breaker

  const BREAKER_THRESHOLD := 5

  /** What the breaker hears: a success, a device-gone or no-space failure, or
      any other failure. */
  datatype Beat = Success | Doom | Noise

  /** Device-gone and no-space failures since the last success. */
  function Streak(h: seq<Beat>): nat {
    if h == [] then 0
    else match h[|h| - 1]
      case Success => 0
      case Doom => Streak(h[..|h| - 1]) + 1
      case Noise => Streak(h[..|h| - 1])
  }

  /** The streak has reached the threshold at some time. */
  ghost predicate Tripped(h: seq<Beat>) {
    h != [] && (Tripped(h[..|h| - 1]) || Streak(h) >= BREAKER_THRESHOLD)
  }

  predicate Dooms(c: Category) { c == DeviceGone || c == Space }

  /** The breaker is set exactly when five dooming failures have come in with no
      success between them. */
  ghost predicate BreakerExact(h: seq<Beat>, streak: nat, breaker: Option<Category>) {
    forall u {:trigger Unfold(u)} :: Unfold(u) ==> streak == Streak(h) && (breaker.Some? <==> Tripped(h))
  }

  /** What a failure does to the streak and the breaker. */
  method Strike(streak: nat, breaker: Option<Category>, category: Category) returns (s: nat, b: Option<Category>)
    ensures s == if Dooms(category) then streak + 1 else streak
    ensures b == if Dooms(category) && s >= BREAKER_THRESHOLD && breaker.None? then Some(category) else breaker
  {
    s, b := streak, breaker;
    if Dooms(category) {
      s := streak + 1;
      if s >= BREAKER_THRESHOLD && b.None? {
        b := Some(category);
      }
    }
  }

  lemma BreakerMore(h: seq<Beat>, streak: nat, breaker: Option<Category>, category: Category)
    requires BreakerExact(h, streak, breaker)
    ensures var s: nat := if Dooms(category) then streak + 1 else streak;
      var b := if Dooms(category) && s >= BREAKER_THRESHOLD && breaker.None? then Some(category) else breaker;
      BreakerExact(h + [if Dooms(category) then Doom else Noise], s, b)
  {
    assert Unfold(0);
    HeardMore(h, if Dooms(category) then Doom else Noise);
    TrippedAtThreshold(h);
  }

  lemma BreakerReset(h: seq<Beat>, streak: nat, breaker: Option<Category>)
    requires BreakerExact(h, streak, breaker)
    ensures BreakerExact(h + [Success], 0, breaker)
  {
    assert Unfold(0);
    HeardMore(h, Success);
  }

  lemma TrippedAtThreshold(h: seq<Beat>)
    ensures Streak(h) >= BREAKER_THRESHOLD ==> Tripped(h)
  {
  }

  lemma HeardMore(h: seq<Beat>, b: Beat)
    ensures Streak(h + [b]) == match b case Success => 0 case Doom => Streak(h) + 1 case Noise => Streak(h)
    ensures Tripped(h + [b]) <==> Tripped(h) || Streak(h + [b]) >= BREAKER_THRESHOLD
  {
    assert (h + [b])[..|h|] == h;
  }

  /** Somewhere in the history: a run of dooming failures as long as the
      threshold, with other failures between them but no success. */
  lemma {:induction false} TrippedMeans(h: seq<Beat>)
    ensures Tripped(h) <==> exists n :: 0 <= n <= |h| && Streak(h[..n]) >= BREAKER_THRESHOLD
  {
    if h == [] {
    } else {
      var rest := h[..|h| - 1];
      TrippedMeans(rest);
      assert h[..|h|] == h;
      forall n | 0 <= n <= |rest| ensures rest[..n] == h[..n] {
      }
    }
  }
}
