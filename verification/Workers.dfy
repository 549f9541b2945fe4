/**
  The worker pool: bounded queues into the workers and one bounded ring of
  completions back. The ring holds as many completions as jobs may be
  outstanding, so that a worker never waits to deliver one.
*/
module Workers {
  import opened Bytes

  type JobId = nat

  const PER_WORKER_QUEUE: nat := 1024

  // ---- counting jobs

  function Count(s: seq<JobId>, j: JobId): int {
    if s == [] then 0
    else if s[|s| - 1] == j then Count(s[..|s| - 1], j) + 1
    else Count(s[..|s| - 1], j)
  }

  lemma CountAppend(s: seq<JobId>, x: JobId, j: JobId)
    ensures Count(s + [x], j) == if x == j then Count(s, j) + 1 else Count(s, j)
  {
    assert (s + [x])[..|s|] == s;
  }

  function Without(s: seq<JobId>, k: nat): (r: seq<JobId>)
    requires k < |s|
    ensures |r| == |s| - 1
  {
    s[..k] + s[k + 1..]
  }

  /** Whichever job is taken out, only it is counted once less. */
  lemma {:induction false} CountWithout(s: seq<JobId>, k: nat, j: JobId)
    requires k < |s|
    ensures Count(s, j) == if s[k] == j then Count(Without(s, k), j) + 1 else Count(Without(s, k), j)
  {
    var rest, last := s[..|s| - 1], s[|s| - 1];
    if k == |s| - 1 {
      assert Without(s, k) == rest;
    } else {
      CountWithout(rest, k, j);
      assert Without(s, k) == Without(rest, k) + [last];
      CountAppend(Without(rest, k), last, j);
    }
  }

  /** How often the job is in any of the queues. */
  function CountAll(ss: seq<seq<JobId>>, j: JobId): int {
    if ss == [] then 0 else CountAll(ss[..|ss| - 1], j) + Count(ss[|ss| - 1], j)
  }

  function LengthAll(ss: seq<seq<JobId>>): int {
    if ss == [] then 0 else LengthAll(ss[..|ss| - 1]) + |ss[|ss| - 1]|
  }

  lemma {:induction false} CountAllUpdate(ss: seq<seq<JobId>>, i: nat, q: seq<JobId>, j: JobId)
    requires i < |ss|
    ensures CountAll(ss[i := q], j) == CountAll(ss, j) - Count(ss[i], j) + Count(q, j)
  {
    var n := |ss| - 1;
    if i == n {
      assert ss[i := q][..n] == ss[..n];
    } else {
      CountAllUpdate(ss[..n], i, q, j);
      assert ss[i := q][..n] == ss[..n][i := q];
    }
  }

  lemma {:induction false} LengthAllUpdate(ss: seq<seq<JobId>>, i: nat, q: seq<JobId>)
    requires i < |ss|
    ensures LengthAll(ss[i := q]) == LengthAll(ss) - |ss[i]| + |q|
  {
    var n := |ss| - 1;
    if i == n {
      assert ss[i := q][..n] == ss[..n];
    } else {
      LengthAllUpdate(ss[..n], i, q);
      assert ss[i := q][..n] == ss[..n][i := q];
    }
  }

  lemma {:induction false} LengthAllHolds(ss: seq<seq<JobId>>, i: nat)
    requires i < |ss|
    ensures |ss[i]| <= LengthAll(ss)
  {
    var n := |ss| - 1;
    if i == n {
      LengthAllNatural(ss[..n]);
    } else {
      LengthAllHolds(ss[..n], i);
    }
  }

  lemma {:induction false} LengthAllNatural(ss: seq<seq<JobId>>)
    ensures LengthAll(ss) >= 0
  {
    if ss == [] {
    } else {
      LengthAllNatural(ss[..|ss| - 1]);
    }
  }

  lemma {:induction false} AllEmpty(ss: seq<seq<JobId>>, j: JobId)
    requires forall i :: 0 <= i < |ss| ==> ss[i] == []
    ensures LengthAll(ss) == 0 && CountAll(ss, j) == 0
  {
    if ss == [] {
    } else {
      AllEmpty(ss[..|ss| - 1], j);
    }
  }

  lemma {:induction false} NoneLeft(ss: seq<seq<JobId>>, i: nat)
    requires LengthAll(ss) == 0 && i < |ss|
    ensures ss[i] == []
  {
    LengthAllHolds(ss, i);
  }

  // ---- the pool as values

  /** Where every submitted job is: waiting, taken by a worker, completed, or
      received. */
  datatype Places = Places(queues: seq<seq<JobId>>, taken: seq<seq<JobId>>, results: seq<JobId>,
                           submitted: seq<JobId>, received: seq<JobId>)

  ghost predicate AccountedFor(p: Places, j: JobId) {
    Count(p.submitted, j) == CountAll(p.queues, j) + CountAll(p.taken, j) + Count(p.results, j) + Count(p.received, j)
  }

  /** Each submitted job is in exactly one place. */
  ghost predicate Accounted(p: Places) { forall j :: AccountedFor(p, j) }

  /** Jobs submitted and not yet received. */
  ghost function Inside(p: Places): int { LengthAll(p.queues) + LengthAll(p.taken) + |p.results| }

  lemma Submits(p: Places, i: nat, job: JobId)
    requires Accounted(p) && i < |p.queues|
    ensures var q := p.(queues := p.queues[i := p.queues[i] + [job]], submitted := p.submitted + [job]);
            Accounted(q) && Inside(q) == Inside(p) + 1
  {
    var q := p.(queues := p.queues[i := p.queues[i] + [job]], submitted := p.submitted + [job]);
    forall j ensures AccountedFor(q, j) {
      assert AccountedFor(p, j);
      CountAllUpdate(p.queues, i, p.queues[i] + [job], j);
      CountAppend(p.queues[i], job, j);
      CountAppend(p.submitted, job, j);
    }
    LengthAllUpdate(p.queues, i, p.queues[i] + [job]);
  }

  lemma Takes(p: Places, i: nat)
    requires Accounted(p) && i < |p.queues| == |p.taken| && p.queues[i] != []
    ensures var q := p.(queues := p.queues[i := p.queues[i][1..]],
                          taken := p.taken[i := p.taken[i] + [p.queues[i][0]]]);
            Accounted(q) && Inside(q) == Inside(p) && LengthAll(q.queues) == LengthAll(p.queues) - 1
  {
    var job, rest := p.queues[i][0], p.queues[i][1..];
    var q := p.(queues := p.queues[i := rest], taken := p.taken[i := p.taken[i] + [job]]);
    assert Without(p.queues[i], 0) == rest;
    forall j ensures AccountedFor(q, j) {
      assert AccountedFor(p, j);
      CountWithout(p.queues[i], 0, j);
      CountAllUpdate(p.queues, i, rest, j);
      CountAllUpdate(p.taken, i, p.taken[i] + [job], j);
      CountAppend(p.taken[i], job, j);
    }
    LengthAllUpdate(p.queues, i, rest);
    LengthAllUpdate(p.taken, i, p.taken[i] + [job]);
  }

  lemma Delivers(p: Places, i: nat, k: nat)
    requires Accounted(p) && i < |p.taken| && k < |p.taken[i]|
    ensures var q := p.(taken := p.taken[i := Without(p.taken[i], k)], results := p.results + [p.taken[i][k]]);
            Accounted(q) && Inside(q) == Inside(p)
  {
    var job, rest := p.taken[i][k], Without(p.taken[i], k);
    var q := p.(taken := p.taken[i := rest], results := p.results + [job]);
    forall j ensures AccountedFor(q, j) {
      assert AccountedFor(p, j);
      CountWithout(p.taken[i], k, j);
      CountAllUpdate(p.taken, i, rest, j);
      CountAppend(p.results, job, j);
    }
    LengthAllUpdate(p.taken, i, rest);
  }

  lemma Receives(p: Places)
    requires Accounted(p) && p.results != []
    ensures var q := p.(results := p.results[1..], received := p.received + [p.results[0]]);
            Accounted(q) && Inside(q) == Inside(p) - 1 >= 0
  {
    LengthAllNatural(p.queues);
    LengthAllNatural(p.taken);
    var q := p.(results := p.results[1..], received := p.received + [p.results[0]]);
    assert Without(p.results, 0) == q.results;
    forall j ensures AccountedFor(q, j) {
      assert AccountedFor(p, j);
      CountWithout(p.results, 0, j);
      CountAppend(p.received, p.results[0], j);
    }
  }

  /** Nothing inside: every submitted job has been received, as often as it was
      submitted. */
  lemma AllReceived(p: Places, j: JobId)
    requires Accounted(p) && Inside(p) == 0
    ensures Count(p.received, j) == Count(p.submitted, j)
  {
    LengthAllNatural(p.queues);
    LengthAllNatural(p.taken);
    forall i | 0 <= i < |p.queues| ensures p.queues[i] == [] { NoneLeft(p.queues, i); }
    forall i | 0 <= i < |p.taken| ensures p.taken[i] == [] { NoneLeft(p.taken, i); }
    AllEmpty(p.queues, j);
    AllEmpty(p.taken, j);
    assert AccountedFor(p, j);
  }

  // ---- the pool

  class FileWorkers {
    const workers: nat
    var p: Places
    /** What the coordinator counts: submitted and not yet received. */
    var outstanding: nat

    function Capacity(): nat { workers * PER_WORKER_QUEUE }

    ghost predicate Valid()
      reads this
    {
      && workers > 0 && |p.queues| == |p.taken| == workers
      && (forall i :: 0 <= i < workers ==> |p.queues[i]| <= PER_WORKER_QUEUE)
      && Accounted(p) && Inside(p) == outstanding <= Capacity()
    }

    constructor (workers: nat)
      requires 1 <= workers <= 256
      ensures Valid() && this.workers == workers && outstanding == 0 && p.submitted == p.received == []
    {
      this.workers := workers;
      p := Places(seq(workers, _ => []), seq(workers, _ => []), [], [], []);
      outstanding := 0;
      new;
      AllEmpty(p.queues, 0);
      AllEmpty(p.taken, 0);
      forall j ensures AccountedFor(p, j) {
        AllEmpty(p.queues, j);
        AllEmpty(p.taken, j);
      }
    }

    /** Offers a job to its shard's worker; a full queue hands it back. The
        coordinator stays within the capacity. */
    method TrySubmit(job: JobId, shard: nat) returns (accepted: bool)
      requires Valid() && outstanding < Capacity()
      modifies this`p, this`outstanding
      ensures Valid()
      ensures accepted <==> |old(p).queues[shard % workers]| < PER_WORKER_QUEUE
      ensures accepted ==> p.submitted == old(p).submitted + [job] && outstanding == old(outstanding) + 1
      ensures !accepted ==> p == old(p) && outstanding == old(outstanding)
      ensures p.taken == old(p).taken && p.received == old(p).received && old(p).queues[0] <= p.queues[0]
      ensures accepted && workers == 1 ==> p.queues[0] == old(p).queues[0] + [job]
    {
      var i := shard % workers;
      accepted := |p.queues[i]| < PER_WORKER_QUEUE;
      if accepted {
        Submits(p, i, job);
        p := p.(queues := p.queues[i := p.queues[i] + [job]], submitted := p.submitted + [job]);
        outstanding := outstanding + 1;
      }
    }

    /** A worker takes the next job of its queue; the phased worker takes several
        before it delivers any. */
    method Take(i: nat)
      requires Valid() && i < workers && p.queues[i] != []
      modifies this`p
      ensures Valid() && LengthAll(p.queues) == LengthAll(old(p).queues) - 1
      ensures p.submitted == old(p).submitted && p.received == old(p).received && p.results == old(p).results
      ensures p.queues == old(p).queues[i := old(p).queues[i][1..]]
      ensures p.taken == old(p).taken[i := old(p).taken[i] + [old(p).queues[i][0]]]
    {
      Takes(p, i);
      p := p.(queues := p.queues[i := p.queues[i][1..]], taken := p.taken[i := p.taken[i] + [p.queues[i][0]]]);
    }

    /** A worker that has a completion always finds room for it in the ring. */
    lemma RoomForResult(i: nat)
      requires Valid() && i < workers && p.taken[i] != []
      ensures |p.results| < Capacity()
    {
      LengthAllNatural(p.queues);
      LengthAllHolds(p.taken, i);
    }

    /** Delivers the completion of one taken job, whichever it is. */
    method Deliver(i: nat, k: nat)
      requires Valid() && i < workers && k < |p.taken[i]| && |p.results| < Capacity()
      modifies this`p
      ensures Valid()
      ensures p.submitted == old(p).submitted && p.received == old(p).received && p.queues == old(p).queues
      ensures p.results == old(p).results + [old(p).taken[i][k]]
      ensures p.taken == old(p).taken[i := Without(old(p).taken[i], k)]
    {
      Delivers(p, i, k);
      p := p.(taken := p.taken[i := Without(p.taken[i], k)], results := p.results + [p.taken[i][k]]);
    }

    /** The coordinator receives one completion. */
    method Receive() returns (job: JobId)
      requires Valid() && p.results != []
      modifies this`p, this`outstanding
      ensures Valid() && outstanding == old(outstanding) - 1
      ensures job == old(p).results[0] && p.received == old(p).received + [job]
      ensures p.submitted == old(p).submitted && p.queues == old(p).queues && p.taken == old(p).taken
    {
      Receives(p);
      job := p.results[0];
      p := p.(results := p.results[1..], received := p.received + [p.results[0]]);
      outstanding := outstanding - 1;
    }

    /** While jobs are outstanding a completion is waiting or a worker can take a
        step. */
    lemma NeverWedged()
      requires Valid() && outstanding > 0
      ensures p.results != [] || exists i :: 0 <= i < workers && (p.queues[i] != [] || p.taken[i] != [])
    {
      if forall i :: 0 <= i < workers ==> p.queues[i] == [] && p.taken[i] == [] {
        AllEmpty(p.queues, 0);
        AllEmpty(p.taken, 0);
      }
    }

    /** A queue holds only outstanding jobs: when one is full, a completion is
        coming. */
    lemma QueuedIsOutstanding(i: nat)
      requires Valid() && i < workers
      ensures |p.queues[i]| <= outstanding
    {
      LengthAllNatural(p.taken);
      LengthAllHolds(p.queues, i);
    }

    /** What a worker has taken is outstanding too. */
    lemma TakenIsOutstanding(i: nat)
      requires Valid() && i < workers
      ensures |p.taken[i]| <= outstanding <= Capacity()
    {
      LengthAllNatural(p.queues);
      LengthAllHolds(p.taken, i);
    }

    /** With nothing outstanding every job has given exactly one completion. */
    lemma ExactlyOnce()
      requires Valid() && outstanding == 0
      ensures forall j :: Count(p.received, j) == Count(p.submitted, j)
    {
      forall j ensures Count(p.received, j) == Count(p.submitted, j) {
        AllReceived(p, j);
      }
    }

    /** Waits a while for a completion. */
    method ReceiveTimeout() returns (got: Option<JobId>)
      requires Valid()
      modifies this`p, this`outstanding
      ensures Valid() && p.submitted == old(p).submitted
      ensures got.None? ==> p == old(p) && outstanding == old(outstanding)
      ensures got.Some? ==> outstanding == old(outstanding) - 1 && p.received == old(p).received + [got.value]
      ensures got.None? ==> p.results == []
    {
      if p.results == [] {
        return None;
      }
      var job := Receive();
      return Some(job);
    }

    /** Waits for a completion, a while at a time. Between two waits the workers
        take steps, in any order; `idle` waits may pass without any. */
    method Await(idle: nat) returns (job: JobId)
      requires Valid() && outstanding > 0
      modifies this`p, this`outstanding
      ensures Valid() && outstanding == old(outstanding) - 1
      ensures p.submitted == old(p).submitted && p.received == old(p).received + [job]
    {
      var got := ReceiveTimeout();
      var left := idle;
      while got.None?
        invariant Valid() && p.submitted == old(p).submitted
        invariant got.None? ==> outstanding == old(outstanding) && p.received == old(p).received && p.results == []
        invariant got.Some? ==> outstanding == old(outstanding) - 1 && p.received == old(p).received + [got.value]
        decreases got.None?, LengthAll(p.queues), left
      {
        LengthAllNatural(p.queues);
        var passes: bool := *;
        if passes && left > 0 {
          left := left - 1;
        } else {
          StepWorker();
        }
        got := ReceiveTimeout();
      }
      job := got.value;
    }

    /** Some worker takes a job or delivers a completion. */
    method StepWorker()
      requires Valid() && outstanding > 0 && p.results == []
      modifies this`p
      ensures Valid() && p.submitted == old(p).submitted && p.received == old(p).received
      ensures p.results != [] || LengthAll(p.queues) < LengthAll(old(p).queues)
    {
      NeverWedged();
      LengthAllNatural(p.queues);
      var i: nat :| i < workers && (p.queues[i] != [] || p.taken[i] != []);
      var gather: bool := *;
      if p.queues[i] != [] && (gather || p.taken[i] == []) {
        Take(i);
      } else {
        RoomForResult(i);
        var k: nat :| k < |p.taken[i]|;
        Deliver(i, k);
      }
    }

    /** Submits a job, receiving completions until the pool and the shard's queue
        have room. A full queue is full of outstanding jobs, so it always ends;
        and nothing but the job enters the pool. */
    method Submit(job: JobId, shard: nat, idle: nat) returns (received: seq<JobId>)
      requires Valid()
      modifies this`p, this`outstanding
      ensures Valid() && p.submitted == old(p).submitted + [job]
      ensures p.received == old(p).received + received
      ensures outstanding == old(outstanding) + 1 - |received|
    {
      received := [];
      if outstanding >= Capacity() {
        var done := Await(idle);
        received := [done];
      }
      var accepted := TrySubmit(job, shard);
      if !accepted {
        QueuedIsOutstanding(shard % workers);
      }
      while !accepted
        invariant Valid() && p.submitted == old(p).submitted + (if accepted then [job] else [])
        invariant p.received == old(p).received + received
        invariant outstanding == old(outstanding) + (if accepted then 1 else 0) - |received|
        invariant !accepted ==> 0 < outstanding < Capacity()
        decreases !accepted, outstanding
      {
        var done := Await(idle);
        received := received + [done];
        accepted := TrySubmit(job, shard);
        if !accepted {
          QueuedIsOutstanding(shard % workers);
        }
      }
    }

    // ---- the phased worker's gathering

    /** Meanwhile the coordinator submits and receives. */
    method Refill(shard: nat)
      requires Valid() && workers == 1
      modifies this`p, this`outstanding
      ensures Valid() && p.taken == old(p).taken && old(p).queues[0] <= p.queues[0]
      ensures p.submitted == old(p).submitted + p.queues[0][|old(p).queues[0]|..]
    {
      var receives: bool := *;
      var job: JobId := *;
      if receives && p.results != [] {
        var done := Receive();
      } else if outstanding < Capacity() && !receives {
        var accepted := TrySubmit(job, shard);
      }
    }

    /** Gathers one batch from the queue in order: within the burst or a single
        job, and never longer than one queue, whatever the file limit allows. A
        job that does not fit stays taken for the next batch. */
    method GatherBatch(burst: nat, bytes: JobId -> nat, ghost done: seq<JobId>) returns (batch: seq<JobId>)
      requires Valid() && workers == 1 && |p.taken[0]| <= 1
      requires p.submitted == done + p.taken[0] + p.queues[0] && p.taken[0] + p.queues[0] != []
      modifies this`p, this`outstanding
      ensures Valid() && BatchFits(batch, burst, bytes) && |batch| <= PER_WORKER_QUEUE
      ensures batch <= p.taken[0] && |p.taken[0]| <= |batch| + 1
      ensures p.submitted == done + p.taken[0] + p.queues[0]
    {
      if p.taken[0] == [] {
        TakeNext(done);
      }
      var first := p.taken[0][0];
      batch := [first];
      var estimated := bytes(first);
      OneFits(first, burst, bytes);
      while |batch| < SAME_SPINDLE_BATCH_FILES && estimated < burst && |p.taken[0]| == |batch|
        invariant Valid() && p.submitted == done + p.taken[0] + p.queues[0]
        invariant BatchFits(batch, burst, bytes) && estimated == TotalBytes(batch, bytes)
        invariant batch <= p.taken[0] && |p.taken[0]| <= |batch| + 1
        decreases SAME_SPINDLE_BATCH_FILES - |batch|, |batch| + 1 - |p.taken[0]|
      {
        var took := TryTakeOne(done);
        if !took {
          break;
        }
        var job := p.taken[0][|batch|];
        if estimated + bytes(job) <= burst {
          MoreFits(batch, job, burst, bytes);
          estimated, batch := estimated + bytes(job), batch + [job];
        }
      }
      TakenIsOutstanding(0);
    }

    /** Waits for the next job of the queue; the wait may time out. */
    method TryTakeOne(ghost done: seq<JobId>) returns (took: bool)
      requires Valid() && workers == 1 && p.submitted == done + p.taken[0] + p.queues[0]
      modifies this`p, this`outstanding
      ensures Valid() && p.submitted == done + p.taken[0] + p.queues[0]
      ensures took ==> old(p).taken[0] <= p.taken[0] && |p.taken[0]| == |old(p).taken[0]| + 1
      ensures !took ==> p.taken == old(p).taken
    {
      var shard: nat :| shard >= 0;
      RefillKeepsOrder(done, shard);
      var timeout: bool := *;
      took := !timeout && p.queues[0] != [];
      if took {
        TakeNext(done);
      }
    }

    method TakeNext(ghost done: seq<JobId>)
      requires Valid() && workers == 1 && p.queues[0] != []
      requires p.submitted == done + p.taken[0] + p.queues[0]
      modifies this`p
      ensures Valid() && p.submitted == old(p).submitted == done + p.taken[0] + p.queues[0]
      ensures old(p).taken[0] <= p.taken[0] && |p.taken[0]| == |old(p).taken[0]| + 1
    {
      Take(0);
      assert old(p).queues[0] == [old(p).queues[0][0]] + old(p).queues[0][1..];
    }

    method RefillKeepsOrder(ghost done: seq<JobId>, shard: nat)
      requires Valid() && workers == 1 && p.submitted == done + p.taken[0] + p.queues[0]
      modifies this`p, this`outstanding
      ensures Valid() && p.taken == old(p).taken && p.submitted == done + p.taken[0] + p.queues[0]
    {
      Refill(shard);
      assert p.queues[0] == old(p).queues[0] + p.queues[0][|old(p).queues[0]|..];
    }
  }

  const SAME_SPINDLE_BATCH_FILES: nat := 4096

  function TotalBytes(batch: seq<JobId>, bytes: JobId -> nat): nat {
    if batch == [] then 0 else TotalBytes(batch[..|batch| - 1], bytes) + bytes(batch[|batch| - 1])
  }

  lemma TotalAppend(batch: seq<JobId>, job: JobId, bytes: JobId -> nat)
    ensures TotalBytes(batch + [job], bytes) == TotalBytes(batch, bytes) + bytes(job)
  {
    assert (batch + [job])[..|batch|] == batch;
  }

  lemma OneFits(job: JobId, burst: nat, bytes: JobId -> nat)
    ensures BatchFits([job], burst, bytes) && TotalBytes([job], bytes) == bytes(job)
  {
    TotalAppend([], job, bytes);
    assert [] + [job] == [job];
  }

  lemma MoreFits(batch: seq<JobId>, job: JobId, burst: nat, bytes: JobId -> nat)
    requires TotalBytes(batch, bytes) + bytes(job) <= burst
    ensures BatchFits(batch + [job], burst, bytes)
    ensures TotalBytes(batch + [job], bytes) == TotalBytes(batch, bytes) + bytes(job)
  {
    TotalAppend(batch, job, bytes);
  }

  /** Within the burst, or a single job. */
  ghost predicate BatchFits(batch: seq<JobId>, burst: nat, bytes: JobId -> nat) {
    batch != [] && (TotalBytes(batch, bytes) <= burst || |batch| == 1)
  }
}
