/**
  The single worker of a copy within one spindle: it gathers batches from its
  queue in order, and takes each batch through phases, so that the disk is not
  sent back and forth for every file.
*/
module PhasedWorker {
  import opened Bytes
  import opened Workers

  /** What is done with a job's file, in the order of the phases. */
  datatype Step = Prepare | WriteOut | Revalidate | RunRegular
  {
    function Phase(): nat {
      match this
      case Prepare => 0
      case WriteOut => 1
      case Revalidate => 2
      case RunRegular => 3
    }
  }

  datatype Action = Action(step: Step, job: JobId)

  function Acts(step: Step, jobs: seq<JobId>): (acts: seq<Action>)
    ensures |acts| == |jobs| && forall i :: 0 <= i < |acts| ==> acts[i] == Action(step, jobs[i])
  {
    seq(|jobs|, i requires 0 <= i < |jobs| => Action(step, jobs[i]))
  }

  lemma ActsAppend(step: Step, jobs: seq<JobId>, job: JobId)
    ensures Acts(step, jobs + [job]) == Acts(step, jobs) + [Action(step, job)]
  {
  }

  /** Some of b, in b's order. */
  predicate Subsequence(a: seq<JobId>, b: seq<JobId>) {
    if a == [] then true
    else if b == [] then false
    else
      || (a[|a| - 1] == b[|b| - 1] && Subsequence(a[..|a| - 1], b[..|b| - 1]))
      || Subsequence(a, b[..|b| - 1])
  }

  lemma SubsequenceMore(a: seq<JobId>, b: seq<JobId>, x: JobId)
    requires Subsequence(a, b)
    ensures Subsequence(a, b + [x]) && Subsequence(a + [x], b + [x])
  {
    assert (a + [x])[..|a|] == a && (b + [x])[..|b|] == b;
  }

  /** What is done in a batch: every source is read before any destination is
      written, all that was prepared is written before any of it is revalidated,
      and what needs the regular copy comes last; always in the batch's order. */
  ghost predicate InOrder(trace: seq<Action>, jobs: seq<JobId>, prepared: seq<JobId>, written: seq<JobId>,
                          regular: seq<JobId>)
  {
    && trace == Acts(Prepare, jobs) + Acts(WriteOut, prepared) + Acts(Revalidate, written) + Acts(RunRegular, regular)
    && Subsequence(prepared, jobs) && Subsequence(regular, jobs) && Subsequence(written, prepared)
  }

  /** No action of an earlier phase follows one of a later phase. */
  lemma OrderIsPhased(trace: seq<Action>, jobs: seq<JobId>, prepared: seq<JobId>, written: seq<JobId>,
                      regular: seq<JobId>)
    requires InOrder(trace, jobs, prepared, written, regular)
    ensures forall i, k :: 0 <= i < k < |trace| ==> trace[i].step.Phase() <= trace[k].step.Phase()
  {
    var a, b := |jobs|, |jobs| + |prepared|;
    var c := b + |written|;
    forall i | 0 <= i < |trace|
      ensures trace[i].step.Phase() == if i < a then 0 else if i < b then 1 else if i < c then 2 else 3
    {
    }
  }

  // ---- counting what becomes of the jobs

  /** Every job of the whole is in exactly one of the parts. */
  ghost predicate Split(whole: seq<JobId>, a: seq<JobId>, b: seq<JobId>, c: seq<JobId>) {
    forall j :: Count(whole, j) == Count(a, j) + Count(b, j) + Count(c, j)
  }

  lemma SplitMore(whole: seq<JobId>, a: seq<JobId>, b: seq<JobId>, c: seq<JobId>, x: JobId)
    requires Split(whole, a, b, c)
    ensures Split(whole + [x], a + [x], b, c)
    ensures Split(whole + [x], a, b + [x], c)
    ensures Split(whole + [x], a, b, c + [x])
  {
    forall j
      ensures Count(whole + [x], j) == Count(a + [x], j) + Count(b, j) + Count(c, j)
      ensures Count(whole + [x], j) == Count(a, j) + Count(b + [x], j) + Count(c, j)
      ensures Count(whole + [x], j) == Count(a, j) + Count(b, j) + Count(c + [x], j)
    {
      CountAppend(whole, x, j);
      CountAppend(a, x, j);
      CountAppend(b, x, j);
      CountAppend(c, x, j);
    }
  }

  lemma {:induction false} CountConcat(a: seq<JobId>, b: seq<JobId>, j: JobId)
    ensures Count(a + b, j) == Count(a, j) + Count(b, j)
  {
    if b == [] {
      assert a + b == a;
    } else {
      CountConcat(a, b[..|b| - 1], j);
      assert a + b == a + b[..|b| - 1] + [b[|b| - 1]];
      CountAppend(a + b[..|b| - 1], b[|b| - 1], j);
    }
  }

  ghost predicate SameJobs(a: seq<JobId>, b: seq<JobId>) { forall j :: Count(a, j) == Count(b, j) }

  lemma SplitsAddUp(jobs: seq<JobId>, prepared: seq<JobId>, regular: seq<JobId>, early: seq<JobId>,
                    written: seq<JobId>, late: seq<JobId>)
    requires Split(jobs, prepared, regular, early) && Split(prepared, written, late, [])
    ensures SameJobs(early + late + written + regular, jobs)
  {
    forall j ensures Count(early + late + written + regular, j) == Count(jobs, j) {
      CountConcat(early + late + written, regular, j);
      CountConcat(early + late, written, j);
      CountConcat(early, late, j);
    }
  }

  // ---- one batch

  /** Prepares every job: it is ready to be written, or needs the regular copy, or
      has failed. */
  method PrepareAll(jobs: seq<JobId>)
    returns (trace: seq<Action>, prepared: seq<JobId>, regular: seq<JobId>, early: seq<JobId>)
    ensures trace == Acts(Prepare, jobs) && Split(jobs, prepared, regular, early)
    ensures Subsequence(prepared, jobs) && Subsequence(regular, jobs)
  {
    trace, prepared, regular, early := [], [], [], [];
    for i := 0 to |jobs|
      invariant trace == Acts(Prepare, jobs[..i]) && Split(jobs[..i], prepared, regular, early)
      invariant Subsequence(prepared, jobs[..i]) && Subsequence(regular, jobs[..i])
    {
      var job := jobs[i];
      assert jobs[..i + 1] == jobs[..i] + [job];
      ActsAppend(Prepare, jobs[..i], job);
      SplitMore(jobs[..i], prepared, regular, early, job);
      SubsequenceMore(prepared, jobs[..i], job);
      SubsequenceMore(regular, jobs[..i], job);
      trace := trace + [Action(Prepare, job)];
      var ready: bool := *;
      var needsRegular: bool := *;
      if ready {
        prepared := prepared + [job];
      } else if needsRegular {
        regular := regular + [job];
      } else {
        early := early + [job];
      }
    }
    assert jobs[..|jobs|] == jobs;
  }

  /** Writes every prepared job; some of the writes fail. */
  method WriteAll(prepared: seq<JobId>) returns (trace: seq<Action>, written: seq<JobId>, late: seq<JobId>)
    ensures trace == Acts(WriteOut, prepared) && Split(prepared, written, late, []) && Subsequence(written, prepared)
  {
    trace, written, late := [], [], [];
    for i := 0 to |prepared|
      invariant trace == Acts(WriteOut, prepared[..i]) && Split(prepared[..i], written, late, [])
      invariant Subsequence(written, prepared[..i])
    {
      var job := prepared[i];
      assert prepared[..i + 1] == prepared[..i] + [job];
      ActsAppend(WriteOut, prepared[..i], job);
      SplitMore(prepared[..i], written, late, [], job);
      SubsequenceMore(written, prepared[..i], job);
      trace := trace + [Action(WriteOut, job)];
      var ok: bool := *;
      if ok {
        written := written + [job];
      } else {
        late := late + [job];
      }
    }
    assert prepared[..|prepared|] == prepared;
  }

  /** Revalidates, or copies in the regular way, one job after the other; each
      gives its result at once. */
  method FinishAll(step: Step, jobs: seq<JobId>) returns (trace: seq<Action>, results: seq<JobId>)
    ensures trace == Acts(step, jobs) && results == jobs
  {
    trace, results := [], [];
    for i := 0 to |jobs|
      invariant trace == Acts(step, jobs[..i]) && results == jobs[..i]
    {
      assert jobs[..i + 1] == jobs[..i] + [jobs[i]];
      ActsAppend(step, jobs[..i], jobs[i]);
      trace, results := trace + [Action(step, jobs[i])], results + [jobs[i]];
    }
    assert jobs[..|jobs|] == jobs;
  }

  /** Runs a batch. Each job gives exactly one result. */
  method RunBatch(jobs: seq<JobId>) returns (trace: seq<Action>, results: seq<JobId>, ghost prepared: seq<JobId>,
                                             ghost written: seq<JobId>, ghost regular: seq<JobId>)
    ensures InOrder(trace, jobs, prepared, written, regular)
    ensures SameJobs(results, jobs)
  {
    var ready, plain, early, late, done, more, also;
    trace, ready, plain, early := PrepareAll(jobs);
    more, done, late := WriteAll(ready);
    SplitsAddUp(jobs, ready, plain, early, done, late);
    trace, results := trace + more, early + late;
    more, also := FinishAll(Revalidate, done);
    trace, results := trace + more, results + also;
    more, also := FinishAll(RunRegular, plain);
    trace, results := trace + more, results + also;
    prepared, written, regular := ready, done, plain;
  }

  // ---- the worker's loop

  function Flat(batches: seq<seq<JobId>>): seq<JobId> {
    if batches == [] then [] else Flat(batches[..|batches| - 1]) + batches[|batches| - 1]
  }

  lemma FlatAppend(batches: seq<seq<JobId>>, batch: seq<JobId>)
    ensures Flat(batches + [batch]) == Flat(batches) + batch
  {
    assert (batches + [batch])[..|batches|] == batches;
  }

  /** Delivers the results of a batch, in whatever order they have come; what was
      taken beyond the batch stays. */
  method DeliverAll(w: FileWorkers, ghost batch: seq<JobId>, results: seq<JobId>, ghost carried: seq<JobId>)
    requires w.Valid() && w.workers == 1 && w.p.taken[0] == batch + carried && SameJobs(results, batch)
    modifies w`p
    ensures w.Valid() && w.p.taken == [carried]
    ensures w.p.submitted == old(w.p).submitted && w.p.queues == old(w.p).queues
  {
    ghost var rest := batch;
    for i := 0 to |results|
      invariant w.Valid() && w.p.taken[0] == rest + carried && SameJobs(results[i..], rest)
      invariant w.p.submitted == old(w.p).submitted && w.p.queues == old(w.p).queues
    {
      var k := Find(w.p.taken[0], results[i], rest, results[i..]);
      w.RoomForResult(0);
      RestShrinks(results[i..], rest, k);
      assert Without(rest + carried, k) == Without(rest, k) + carried;
      w.Deliver(0, k);
      assert results[i..][1..] == results[i + 1..];
      rest := Without(rest, k);
    }
    assert results[|results|..] == [];
    NoneCounted(rest);
    assert [] + carried == carried;
    assert w.p.taken == [w.p.taken[0]];
  }

  /** Where the job of a result is among those taken. */
  method Find(taken: seq<JobId>, job: JobId, ghost rest: seq<JobId>, ghost left: seq<JobId>) returns (k: nat)
    requires rest <= taken && left != [] && left[0] == job && SameJobs(left, rest)
    ensures k < |rest| && rest[k] == job
  {
    ghost var at := WhereCounted(left, rest, job);
    k := 0;
    while taken[k] != job
      invariant k <= at < |rest|
      decreases at - k
    {
      k := k + 1;
    }
  }

  lemma WhereCounted(left: seq<JobId>, rest: seq<JobId>, job: JobId) returns (at: nat)
    requires left != [] && left[0] == job && SameJobs(left, rest)
    ensures at < |rest| && rest[at] == job
  {
    CountWithout(left, 0, job);
    CountNatural(Without(left, 0), job);
    at := PositiveCount(rest, job);
  }

  lemma {:induction false} CountNatural(s: seq<JobId>, j: JobId)
    ensures Count(s, j) >= 0
  {
    if s == [] {
    } else {
      CountNatural(s[..|s| - 1], j);
    }
  }

  lemma {:induction false} PositiveCount(s: seq<JobId>, j: JobId) returns (at: nat)
    requires Count(s, j) > 0
    ensures at < |s| && s[at] == j
  {
    if s[|s| - 1] == j {
      at := |s| - 1;
    } else {
      at := PositiveCount(s[..|s| - 1], j);
    }
  }

  lemma RestShrinks(left: seq<JobId>, rest: seq<JobId>, k: nat)
    requires left != [] && k < |rest| && rest[k] == left[0] && SameJobs(left, rest)
    ensures SameJobs(left[1..], Without(rest, k))
  {
    assert Without(left, 0) == left[1..];
    forall j ensures Count(left[1..], j) == Count(Without(rest, k), j) {
      CountWithout(left, 0, j);
      CountWithout(rest, k, j);
    }
  }

  lemma NoneCounted(s: seq<JobId>)
    requires SameJobs([], s)
    ensures s == []
  {
    if s != [] {
      CountNatural(s[..|s| - 1], s[|s| - 1]);
      assert Count([], s[|s| - 1]) == 0;
    }
  }

  /** Gathers one batch, runs it and delivers its results. */
  method RunOne(w: FileWorkers, burst: nat, bytes: JobId -> nat, ghost done: seq<JobId>) returns (batch: seq<JobId>)
    requires w.Valid() && w.workers == 1 && |w.p.taken[0]| <= 1
    requires w.p.submitted == done + w.p.taken[0] + w.p.queues[0] && w.p.taken[0] + w.p.queues[0] != []
    modifies w`p, w`outstanding
    ensures w.Valid() && |w.p.taken[0]| <= 1
    ensures w.p.submitted == done + batch + w.p.taken[0] + w.p.queues[0]
    ensures BatchFits(batch, burst, bytes) && |batch| <= PER_WORKER_QUEUE
  {
    batch := w.GatherBatch(burst, bytes, done);
    ghost var carried := w.p.taken[0][|batch|..];
    assert w.p.taken[0] == batch + carried;
    ghost var queued := w.p.queues[0];
    Regroup(done, batch, carried, queued);
    var _, results, _, _, _ := RunBatch(batch);
    DeliverAll(w, batch, results, carried);
  }

  lemma Regroup(a: seq<JobId>, b: seq<JobId>, c: seq<JobId>, d: seq<JobId>)
    ensures a + (b + c) + d == a + b + c + d
  {
  }

  /** Runs batches until there is nothing to take, or for as long as asked. The
      batches are the stream of submitted jobs, in order, each within the burst or
      a single job and no longer than the queue; and at most one job taken beyond
      them waits for the next. */
  method RunWorker(w: FileWorkers, burst: nat, bytes: JobId -> nat, limit: nat) returns (batches: seq<seq<JobId>>)
    requires w.Valid() && w.workers == 1 && w.p.taken == [[]] && w.p.submitted == w.p.queues[0]
    modifies w`p, w`outstanding
    ensures w.Valid() && |w.p.taken[0]| <= 1
    ensures w.p.submitted == Flat(batches) + w.p.taken[0] + w.p.queues[0]
    ensures forall i :: 0 <= i < |batches| ==> BatchFits(batches[i], burst, bytes) && |batches[i]| <= PER_WORKER_QUEUE
  {
    batches := [];
    for n := 0 to limit
      invariant w.Valid() && |w.p.taken[0]| <= 1
      invariant w.p.submitted == Flat(batches) + w.p.taken[0] + w.p.queues[0]
      invariant forall i :: 0 <= i < |batches| ==>
                  BatchFits(batches[i], burst, bytes) && |batches[i]| <= PER_WORKER_QUEUE
    {
      if w.p.taken[0] == [] && w.p.queues[0] == [] {
        return;
      }
      var batch := RunOne(w, burst, bytes, Flat(batches));
      FlatAppend(batches, batch);
      batches := batches + [batch];
    }
  }
}
