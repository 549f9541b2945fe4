/**
  The coordinator of a copy run: it walks the source tree with a deque of
  Enter and Exit tasks, hands files to the worker pool, copies others inline,
  and accounts every outcome. I/O results, cancellation and the order of
  completions are arbitrary.
*/
module Coordinator {
  import opened Bytes
  import opened Accounting
  import opened Walk
  import opened Trail
  import opened Pool
  import Workers

  /** How a source file compares with the object at its destination. */
  datatype Verdict = New | Same | MetadataDiff | Replace | SkipDifferent | TypeConflicts

  /** The length of a shard's queue (`Workers.QueuedIsOutstanding`: what it holds
      is outstanding). */
  const PER_WORKER_QUEUE: nat := Workers.PER_WORKER_QUEUE

  /** What the destination holds under a source directory's name. */
  datatype Found = Absent | Directory | Other

  ghost predicate NoneSkipped(log: seq<Settled>) {
    forall i :: 0 <= i < |log| ==> log[i].end != FileNotAttempted
  }

  lemma SkippedOrNot(log: seq<Settled>, e: Settled)
    ensures NoneSkipped(log + [e]) <==> NoneSkipped(log) && e.end != FileNotAttempted
  {
    assert forall i :: 0 <= i < |log| ==> (log + [e])[i] == log[i];
    assert (log + [e])[|log|] == e;
  }

  predicate Succeeds(end: FileEnd) {
    end == CopiedNew || end == CopiedReplaced || end == SkippedSame || end == SkippedDiff || end == MetaFixed
  }

  /** Directories and links are never in the pool. */
  ghost const NO_JOBS: seq<Job> := []

  class Runner {
    const dry: bool
    const sameSpindle: bool
    const linksSupported: bool
    const maximumFileSize: Option<nat>
    /** The key under which the destination matches names; it may fail. */
    const fold: string -> Option<string>
    const capacity: nat
    const counters: Counters
    var folders: map<string, Summary>
    var canceled: bool
    var breaker: Option<Category>
    var streak: nat
    /** The jobs inside the worker pool. */
    var jobs: seq<Job>
    var fileJobsOutstanding: nat
    var dirOutstanding: map<Path, int>
    ghost var trail: seq<Event>
    /** Directories with an exit task pushed, and those stamped. */
    ghost var entered: set<Path>
    ghost var done: set<Path>
    ghost var health: seq<Beat>

    ghost predicate Valid()
      reads this, counters
    {
      BooksOk() && PoolOk() && BreakerOk() && Honest()
    }

    /** The counters and the folder summaries stand for the settled files. */
    ghost predicate BooksOk()
      reads this`folders, counters
    {
      counters.Valid() && FoldersAre(folders, counters.log)
    }

    /** Work may be done in the directory. */
    ghost predicate Open(dir: Path)
      reads this`entered, this`done
    {
      dir in entered && dir !in done
    }

    /** The pool is within its capacity and in step with the trail. */
    ghost predicate PoolOk()
      reads this`jobs, this`fileJobsOutstanding, this`dirOutstanding, this`trail, this`entered, this`done
    {
      && fileJobsOutstanding == |jobs| <= capacity && capacity >= 1
      && InStep(jobs, dirOutstanding, trail)
      && entered == OpenedIn(trail) && done == FinalizedIn(trail)
    }

    ghost predicate BreakerOk()
      reads this`health, this`streak, this`breaker
    {
      BreakerExact(health, streak, breaker)
    }

    /** No file is left out without something that shows in the exit code. */
    ghost predicate Honest()
      reads this`canceled, this`breaker, counters`dirLog, counters`log
    {
      Excused() || NoneSkipped(counters.log)
    }

    /** Something that keeps the run from ending with exit code 0, or a dry run. */
    ghost predicate Excused()
      reads this`canceled, this`breaker, counters`dirLog
    {
      dry || canceled || breaker.Some? || DirFailed in counters.dirLog
    }

    /** Files seen, less those settled and those still in the pool. */
    ghost function FilesOwed(): int
      reads this, counters
    {
      Owed(counters.filesSeen, counters.log, jobs)
    }

    ghost function DirsOwed(): int
      reads this, counters
    {
      Owed(counters.dirsSeen, counters.dirLog, NO_JOBS)
    }

    ghost function LinksOwed(): int
      reads this, counters
    {
      Owed(counters.linksSeen, counters.linkLog, NO_JOBS)
    }

    constructor (dry: bool, sameSpindle: bool, linksSupported: bool, maximumFileSize: Option<nat>,
                 fold: string -> Option<string>, capacity: nat)
      requires capacity >= 1
      ensures Valid() && fresh(this) && fresh(counters) && this.dry == dry
      ensures FilesOwed() == DirsOwed() == LinksOwed() == 0
      ensures trail == [] && entered == {} && done == {} && health == [] && !canceled && jobs == []
    {
      this.dry, this.sameSpindle, this.linksSupported := dry, sameSpindle, linksSupported;
      this.maximumFileSize, this.fold, this.capacity := maximumFileSize, fold, capacity;
      counters := new Counters();
      folders, canceled, breaker, streak := map[], false, None, 0;
      jobs, fileJobsOutstanding, dirOutstanding := [], 0, map[];
      trail, entered, done, health := [], {}, {}, [];
      new;
      OwedIs(0, counters.log, jobs);
      OwedIs(0, counters.dirLog, NO_JOBS);
      OwedIs(0, counters.linkLog, NO_JOBS);
    }

    // ---- accounting

    method AggregateError(category: Category)
      requires BreakerOk()
      modifies this`streak, this`breaker, this`health
      ensures BreakerOk() && (old(breaker.Some?) ==> breaker.Some?)
      ensures health == old(health) + [if Dooms(category) then Doom else Noise]
    {
      BreakerMore(health, streak, breaker, category);
      streak, breaker := Strike(streak, breaker, category);
      health := health + [if Dooms(category) then Doom else Noise];
    }

    method ResetStreak()
      requires BreakerOk()
      modifies this`streak, this`health
      ensures BreakerOk() && health == old(health) + [Success]
    {
      BreakerReset(health, streak, breaker);
      streak := 0;
      health := health + [Success];
    }

    method Hear(end: FileEnd, error: Category)
      requires BreakerOk()
      modifies this`streak, this`breaker, this`health
      ensures BreakerOk() && (old(breaker.Some?) ==> breaker.Some?)
    {
      if Succeeds(end) {
        ResetStreak();
      } else if end == FileFailed {
        AggregateError(error);
      }
    }

    /** Settles one file: on the counters and on its top-level folder. */
    method RecordFile(path: Path, end: FileEnd, bytes: nat, error: Category)
      requires Valid()
      requires end == FileNotAttempted ==> Excused()
      modifies this`folders, this`streak, this`breaker, this`health, counters`files, counters`log
      ensures Valid() && (old(breaker.Some?) ==> breaker.Some?)
      ensures FilesOwed() == old(FilesOwed()) - 1
      ensures counters.log == old(counters.log) + [Settled(path, end, bytes)]
    {
      Hear(end, error);
      SkippedOrNot(counters.log, Settled(path, end, bytes));
      OwedLess(counters.filesSeen, counters.log, jobs, Settled(path, end, bytes));
      Account(Settled(path, end, bytes));
    }

    method Account(e: Settled)
      requires BooksOk()
      modifies this`folders, counters`files, counters`log
      ensures BooksOk() && counters.log == old(counters.log) + [e]
    {
      FoldersMore(folders, counters.log, e);
      folders := BookFolder(folders, e);
      counters.ApplyFile(e);
    }

    // ---- the pool

    method ObserveCancellation(requested: bool)
      modifies this`canceled
      ensures canceled == (old(canceled) || requested)
    {
      if !canceled && requested {
        canceled := true;
      }
    }

    /** The coordinator writes something into an unfinished directory. */
    ghost method Touch(dir: Path)
      requires PoolOk() && Open(dir)
      modifies this`trail
      ensures PoolOk()
    {
      Touches(jobs, dirOutstanding, trail, dir);
      trail := trail + [Touched(dir)];
    }

    method ReceiveFileJob()
      requires Valid() && jobs != []
      modifies this`folders, this`streak, this`breaker, this`health, counters`files, counters`log
      modifies this`canceled, this`jobs, this`fileJobsOutstanding, this`dirOutstanding, this`trail
      ensures Valid() && FilesOwed() == old(FilesOwed())
      ensures |jobs| < |old(jobs)|
      ensures old(Excused()) ==> Excused()
      decreases |jobs|, 0
    {
      var requested: bool := *;
      ObserveCancellation(requested);
      // any job may be the one that completes
      var k: nat :| k < |jobs|;
      var result: Result := *;
      var job := TakeJob(k);
      FinishCopy(job, result);
    }

    /** Job k leaves the pool: its last write has happened. */
    method TakeJob(k: nat) returns (job: Job)
      requires PoolOk() && k < |jobs|
      modifies this`jobs, this`fileJobsOutstanding, this`dirOutstanding, this`trail
      ensures FilesOwed() == old(FilesOwed()) + 1 && |jobs| == |old(jobs)| - 1
      ensures PoolOk() && job == old(jobs[k]) && jobs == old(Without(jobs, k)) && Open(job.dir)
    {
      job := jobs[k];
      Returns(jobs, dirOutstanding, trail, k);
      trail := trail + [Returned(job.dir)];
      OwedFlying(counters.filesSeen, counters.log, jobs, Without(jobs, k));
      jobs := Without(jobs, k);
      fileJobsOutstanding := fileJobsOutstanding - 1;
      dirOutstanding := Fewer(dirOutstanding, job.dir);
    }

    /** A job enters the pool. */
    method GiveJob(job: Job)
      requires PoolOk() && |jobs| < capacity && Open(job.dir)
      modifies this`jobs, this`fileJobsOutstanding, this`dirOutstanding, this`trail
      ensures PoolOk() && jobs == old(jobs) + [job] && FilesOwed() == old(FilesOwed()) - 1
    {
      Submits(jobs, dirOutstanding, trail, job);
      trail := trail + [Submitted(job.dir)];
      OwedFlying(counters.filesSeen, counters.log, jobs + [job], jobs);
      jobs := jobs + [job];
      fileJobsOutstanding := fileJobsOutstanding + 1;
      dirOutstanding := More(dirOutstanding, job.dir);
    }

    method DrainFileWorkers()
      requires Valid()
      modifies this`folders, this`streak, this`breaker, this`health, counters`files, counters`log
      modifies this`canceled, this`jobs, this`fileJobsOutstanding, this`dirOutstanding, this`trail
      ensures Valid() && FilesOwed() == old(FilesOwed())
      ensures jobs == []
      ensures old(Excused()) ==> Excused()
      decreases |jobs|, 1
    {
      while fileJobsOutstanding > 0
        invariant Valid() && FilesOwed() == old(FilesOwed())
        invariant |jobs| <= |old(jobs)|
        invariant old(Excused()) ==> Excused()
        decreases |jobs|
      {
        ReceiveFileJob();
      }
    }

    /** The file has just been settled, and was left out only in a dry run or on
        cancellation. */
    ghost predicate Attempted(job: Job)
      reads this`canceled, counters`log
    {
      && counters.log != []
      && var last := counters.log[|counters.log| - 1];
         last.path == job.dir + [job.name] && (last.end == FileNotAttempted ==> dry || canceled)
    }

    /** Accounts one finished or handed-back file, which is in nobody's hands
        but the caller's. A file handed back is attempted even if the breaker has
        tripped. */
    method FinishCopy(job: Job, result: Result)
      requires Valid() && Open(job.dir)
      modifies this`folders, this`streak, this`breaker, this`health, counters`files, counters`log
      modifies this`canceled, this`jobs, this`fileJobsOutstanding, this`dirOutstanding, this`trail
      ensures Valid() && FilesOwed() == old(FilesOwed()) - 1
      ensures |jobs| <= |old(jobs)| && Attempted(job)
      ensures old(Excused()) ==> Excused()
      decreases |jobs|, 5
    {
      if result.Promoted? {
        CopyClassified(job, false);
      } else {
        FinishAttempt(job, result);
      }
    }

    /** Accounts a copy that was attempted. */
    method FinishAttempt(job: Job, result: Result)
      requires Valid() && !result.Promoted?
      modifies this`folders, this`streak, this`breaker, this`health, counters`files, counters`log, this`canceled
      ensures Valid() && FilesOwed() == old(FilesOwed()) - 1 && Attempted(job)
      ensures old(Excused()) ==> Excused()
    {
      if result.Stopped? {
        canceled := true;
      }
      var end, bytes, error := Outcome(job, result);
      RecordFile(job.dir + [job.name], end, bytes, error);
    }

    method Outcome(job: Job, result: Result) returns (end: FileEnd, bytes: nat, error: Category)
      requires !result.Promoted?
      ensures end == FileNotAttempted <==> result.Stopped?
      ensures end == FileFailed <==> result.Broken?
      ensures result.Copied? ==> bytes == result.bytes && (end == CopiedReplaced <==> job.replacing)
      ensures result.Broken? ==> error == result.category
    {
      end, bytes, error := FileNotAttempted, job.size, Internal;
      if result.Copied? {
        end, bytes := if job.replacing then CopiedReplaced else CopiedNew, result.bytes;
      } else if result.Broken? {
        end, error := FileFailed, result.category;
      }
    }

    /** Copies one classified file, through the pool when `dispatch` allows it
        and the routing offers it. */
    method CopyClassified(job: Job, dispatch: bool)
      requires Valid() && Open(job.dir)
      modifies this`folders, this`streak, this`breaker, this`health, counters`files, counters`log
      modifies this`canceled, this`jobs, this`fileJobsOutstanding, this`dirOutstanding, this`trail
      ensures Valid() && FilesOwed() == old(FilesOwed()) - 1
      ensures !dispatch ==> |jobs| <= |old(jobs)| && Attempted(job)
      ensures old(Excused()) ==> Excused()
      decreases |jobs|, 4
    {
      if dispatch && !dry {
        var offered: bool := *;
        if offered {
          SubmitFileJob(job);
          return;
        }
      }
      CopyInline(job);
    }

    method CopyInline(job: Job)
      requires Valid() && Open(job.dir)
      modifies this`folders, this`streak, this`breaker, this`health, counters`files, counters`log
      modifies this`canceled, this`jobs, this`fileJobsOutstanding, this`dirOutstanding, this`trail
      ensures Valid() && FilesOwed() == old(FilesOwed()) - 1
      ensures |jobs| <= |old(jobs)| && Attempted(job)
      ensures old(Excused()) ==> Excused()
      decreases |jobs|, 3
    {
      var path := job.dir + [job.name];
      if sameSpindle && !dry {
        DrainFileWorkers();
      }
      var failure, logicalBytes := InspectSource(job);
      if failure.Some? {
        RecordFile(path, FileFailed, logicalBytes, failure.value);
      } else if dry {
        RecordFile(path, FileNotAttempted, logicalBytes, Internal);
      } else {
        Touch(job.dir);
        // an inline copy is never handed back: it has no promotion threshold
        var result: Result := *;
        FinishAttempt(job.(size := logicalBytes), if result.Promoted? then Broken(Internal) else result);
      }
    }

    /** Revalidates the source, lists its streams and revalidates it again. */
    method InspectSource(job: Job) returns (failure: Option<Category>, bytes: nat)
      ensures failure.None? || bytes >= job.size
    {
      bytes := job.size;
      failure := *;
      if failure.Some? { return; }
      failure := *;
      if failure.Some? { return; }
      var named: nat :| named >= 0;
      bytes := job.size + named;
      failure := *;
    }

    /** Drains completions until the pool has room and the shard's queue takes one
        more. Of that queue only this is used here: what it holds is outstanding
        (`Workers.FileWorkers.Submit` is the same loop on the pool itself). */
    method MakeRoom()
      requires Valid()
      modifies this`folders, this`streak, this`breaker, this`health, counters`files, counters`log
      modifies this`canceled, this`jobs, this`fileJobsOutstanding, this`dirOutstanding, this`trail
      ensures Valid() && FilesOwed() == old(FilesOwed())
      ensures |jobs| < capacity && |jobs| <= |old(jobs)|
      ensures old(Excused()) ==> Excused()
      decreases |jobs|, 1
    {
      if fileJobsOutstanding >= capacity {
        ReceiveFileJob();
      }
      // the shard's queue holds some of the outstanding jobs
      var queued: nat :| queued <= |jobs|;
      while queued >= PER_WORKER_QUEUE
        invariant Valid() && FilesOwed() == old(FilesOwed())
        invariant |jobs| < capacity && |jobs| <= |old(jobs)| && queued <= |jobs|
        invariant old(Excused()) ==> Excused()
        decreases |jobs|
      {
        ReceiveFileJob();
        queued :| queued <= |jobs|;
      }
    }

    method SubmitFileJob(job: Job)
      requires Valid() && Open(job.dir)
      modifies this`folders, this`streak, this`breaker, this`health, counters`files, counters`log
      modifies this`canceled, this`jobs, this`fileJobsOutstanding, this`dirOutstanding, this`trail
      ensures Valid() && FilesOwed() == old(FilesOwed()) - 1
      ensures old(Excused()) ==> Excused()
      decreases |jobs|, 2
    {
      MakeRoom();
      GiveJob(job);
    }

    // ---- subtrees that are accounted without being attempted

    /** A link that is settled as soon as it is seen. */
    method SettleLink(end: LinkEnd, error: Option<Category>)
      requires Valid()
      modifies this`streak, this`breaker, this`health
      modifies counters`linksDiscovered, counters`linksSeen, counters`links, counters`linkLog
      ensures Valid() && (old(breaker.Some?) ==> breaker.Some?)
      ensures LinksOwed() == old(LinksOwed()) && counters.linkLog == old(counters.linkLog) + [end]
    {
      SeeLink();
      EndLink(end, error);
    }

    method SeeLink()
      requires Valid()
      modifies counters`linksDiscovered, counters`linksSeen
      ensures Valid() && LinksOwed() == old(LinksOwed()) + 1
    {
      OwedMore(counters.linksSeen, counters.linkLog, NO_JOBS);
      counters.NoteLink();
    }

    method SeeFile()
      requires Valid()
      modifies counters`filesDiscovered, counters`filesSeen
      ensures Valid() && FilesOwed() == old(FilesOwed()) + 1
    {
      OwedMore(counters.filesSeen, counters.log, jobs);
      counters.NoteFileDiscovered();
    }

    method SeeDir()
      requires Valid()
      modifies counters`dirsDiscovered, counters`dirsSeen
      ensures Valid() && DirsOwed() == old(DirsOwed()) + 1
    {
      OwedMore(counters.dirsSeen, counters.dirLog, NO_JOBS);
      counters.NoteDir();
    }

    method SettleDir(end: DirEnd)
      requires Valid()
      modifies counters`dirs, counters`dirLog
      ensures Valid() && DirsOwed() == old(DirsOwed()) - 1 && counters.dirLog == old(counters.dirLog) + [end]
    {
      OwedLess(counters.dirsSeen, counters.dirLog, NO_JOBS, end);
      counters.SettleDir(end);
    }

    method EndLink(end: LinkEnd, error: Option<Category>)
      requires Valid()
      modifies this`streak, this`breaker, this`health, counters`links, counters`linkLog
      ensures Valid() && (old(breaker.Some?) ==> breaker.Some?)
      ensures LinksOwed() == old(LinksOwed()) - 1 && counters.linkLog == old(counters.linkLog) + [end]
    {
      OwedLess(counters.linksSeen, counters.linkLog, NO_JOBS, end);
      counters.SettleLink(end);
      if error.Some? {
        AggregateError(error.value);
      }
    }

    /** A file that is left out as soon as it is seen. */
    method SkipFile(path: Path, size: nat)
      requires Valid() && Excused()
      modifies this`folders, this`streak, this`breaker, this`health
      modifies counters`filesDiscovered, counters`filesSeen, counters`files, counters`log
      ensures Valid() && Excused() && FilesOwed() == old(FilesOwed())
    {
      SeeFile();
      RecordFile(path, FileNotAttempted, size, Internal);
    }

    /** A directory that is never entered: seen and settled at once. */
    method SettleUnentered(end: DirEnd)
      requires Valid()
      modifies counters`dirsDiscovered, counters`dirsSeen, counters`dirs, counters`dirLog
      ensures Valid() && DirsOwed() == old(DirsOwed())
      ensures counters.dirLog == old(counters.dirLog) + [end]
    {
      SeeDir();
      SettleDir(end);
    }

    /** Accounts one descendant of a failed directory; a directory among them
        joins the work list. */
    method AccountEntryNotAttempted(node: Node, path: Path, waiting: seq<(Node, Path)>)
      returns (now: seq<(Node, Path)>)
      requires Valid() && Excused()
      modifies this`folders, this`streak, this`breaker, this`health, counters
      ensures Valid() && Excused() && SameOwed(old(FilesOwed()), old(DirsOwed()), old(LinksOwed()))
      ensures now == if node.DirNode? then waiting + [(node, path)] else waiting
    {
      now := waiting;
      match node {
        case FileNode(_, size) =>
          SkipFile(path, size);
        case DirNode(_, _) =>
          SettleUnentered(DirFailed);
          now := waiting + [(node, path)];
        case LinkNode(_) =>
          SettleLink(LinkNotAttempted, None);
      }
    }

    ghost predicate SameOwed(files: int, dirs: int, links: int)
      reads this, counters
    {
      FilesOwed() == files && DirsOwed() == dirs && LinksOwed() == links
    }

    /** Accounts every reachable descendant; an unreadable subtree stays
        silent. */
    method DrainNotAttempted(start: seq<(Node, Path)>)
      requires Valid() && Excused()
      requires forall i :: 0 <= i < |start| ==> start[i].0.DirNode?
      modifies this`folders, this`streak, this`breaker, this`health, counters
      ensures Valid() && Excused() && SameOwed(old(FilesOwed()), old(DirsOwed()), old(LinksOwed()))
    {
      var waiting := start;
      while waiting != []
        invariant Valid() && Excused() && SameOwed(old(FilesOwed()), old(DirsOwed()), old(LinksOwed()))
        invariant forall i :: 0 <= i < |waiting| ==> waiting[i].0.DirNode?
        decreases WaitingSize(waiting)
      {
        var (node, path) := waiting[|waiting| - 1];
        waiting := waiting[..|waiting| - 1];
        var readable: bool := *;
        if readable {
          waiting := AccountChildren(node.children, path, waiting);
        }
      }
    }

    method AccountChildren(nodes: seq<Node>, parent: Path, waiting: seq<(Node, Path)>)
      returns (now: seq<(Node, Path)>)
      requires Valid() && Excused()
      requires forall i :: 0 <= i < |waiting| ==> waiting[i].0.DirNode?
      modifies this`folders, this`streak, this`breaker, this`health, counters
      ensures Valid() && Excused() && SameOwed(old(FilesOwed()), old(DirsOwed()), old(LinksOwed()))
      ensures forall i :: 0 <= i < |now| ==> now[i].0.DirNode?
      ensures WaitingSize(now) <= WaitingSize(waiting) + SizeAll(nodes)
    {
      now := waiting;
      for i := 0 to |nodes|
        invariant Valid() && Excused() && SameOwed(old(FilesOwed()), old(DirsOwed()), old(LinksOwed()))
        invariant forall i :: 0 <= i < |now| ==> now[i].0.DirNode?
        invariant WaitingSize(now) <= WaitingSize(waiting) + SizeAll(nodes[..i])
      {
        var path := parent + [nodes[i].name];
        WaitingMore(waiting, now, nodes, i, path);
        now := AccountEntryNotAttempted(nodes[i], path, now);
      }
      assert nodes[..|nodes|] == nodes;
    }

    method AccountFailedSubtree(node: Node, path: Path, error: Category)
      requires Valid() && node.DirNode?
      modifies this`folders, this`streak, this`breaker, this`health, counters
      ensures Valid() && SameOwed(old(FilesOwed()), old(DirsOwed()), old(LinksOwed()))
      ensures Excused()
    {
      SettleUnentered(DirFailed);
      AggregateError(error);
      DrainNotAttempted([(node, path)]);
    }

    /** Accounts an entry whose name cannot be matched. A file has been counted
        as discovered by the caller. */
    method RecordEntryFailure(node: Node, path: Path, error: Category)
      requires Valid()
      modifies this`folders, this`streak, this`breaker, this`health, counters
      ensures Valid() && (old(Excused()) ==> Excused())
      ensures DirsOwed() == old(DirsOwed()) && LinksOwed() == old(LinksOwed())
      ensures node.FileNode? ==> FilesOwed() == old(FilesOwed()) - 1
      ensures !node.FileNode? ==> FilesOwed() == old(FilesOwed())
    {
      match node {
        case FileNode(_, size) => RecordFile(path, FileFailed, size, error);
        case DirNode(_, _) => AccountFailedSubtree(node, path, error);
        case LinkNode(_) =>
          SettleLink(LinkFailed, Some(error));
      }
    }

    method RecordExclusion(node: Node, path: Path)
      requires Valid()
      modifies this`folders, this`streak, this`breaker, this`health, counters
      ensures Valid() && (old(Excused()) ==> Excused())
      ensures DirsOwed() == old(DirsOwed()) && LinksOwed() == old(LinksOwed())
      ensures node.FileNode? ==> FilesOwed() == old(FilesOwed()) - 1
      ensures !node.FileNode? ==> FilesOwed() == old(FilesOwed())
    {
      match node {
        case FileNode(_, size) => RecordFile(path, FileExcluded, size, Internal);
        case DirNode(_, _) => SettleUnentered(DirExcluded);
        case LinkNode(_) =>
          SettleLink(LinkExcluded, None);
      }
    }

    /** Accounts an entry met after the breaker tripped: a directory's subtree
        stays undiscovered. */
    method RecordAfterBreaker(node: Node, path: Path)
      requires Valid() && breaker.Some?
      modifies this`folders, this`streak, this`breaker, this`health, counters
      ensures Valid() && Excused()
      ensures DirsOwed() == old(DirsOwed()) && LinksOwed() == old(LinksOwed())
      ensures node.FileNode? ==> FilesOwed() == old(FilesOwed()) - 1
      ensures !node.FileNode? ==> FilesOwed() == old(FilesOwed())
    {
      match node {
        case FileNode(_, size) => RecordFile(path, FileNotAttempted, size, Internal);
        case DirNode(_, _) => SettleUnentered(DirFailed);
        case LinkNode(_) =>
          SettleLink(LinkNotAttempted, None);
      }
    }

    // ---- one entry of a directory

    /** Takes one discovered file to its end, or into the pool. */
    method HandleFile(dir: Path, name: string, size: nat)
      requires Valid() && Open(dir)
      modifies this`folders, this`streak, this`breaker, this`health, counters`files, counters`log
      modifies this`canceled, this`jobs, this`fileJobsOutstanding, this`dirOutstanding, this`trail
      ensures Valid() && FilesOwed() == old(FilesOwed()) - 1
      ensures old(Excused()) ==> Excused()
    {
      var path := dir + [name];
      if maximumFileSize.Some? && size > maximumFileSize.value {
        RecordFile(path, FileFailed, size, FsLimit);
        return;
      }
      var verdict: Verdict := *;
      match verdict {
        case New => CopyClassified(Job(dir, name, size, false), true);
        case Replace => CopyClassified(Job(dir, name, size, true), true);
        case Same => RecordFile(path, SkippedSame, size, Internal);
        case SkipDifferent => RecordFile(path, SkippedDiff, size, Internal);
        case TypeConflicts => RecordFile(path, FileFailed, size, TypeConflict);
        case MetadataDiff => RepairMetadata(dir, path, size);
      }
    }

    method RepairMetadata(dir: Path, path: Path, size: nat)
      requires Valid() && Open(dir)
      modifies this`folders, this`streak, this`breaker, this`health, counters`files, counters`log, this`trail
      ensures Valid() && FilesOwed() == old(FilesOwed()) - 1
      ensures old(Excused()) ==> Excused()
    {
      if dry {
        RecordFile(path, FileNotAttempted, size, Internal);
      } else {
        Touch(dir);
        var failure: Option<Category> := *;
        RecordFile(path, if failure.Some? then FileFailed else MetaFixed, size,
                   if failure.Some? then failure.value else Internal);
      }
    }

    /** Takes one link to its end; the same-spindle worker settles before the
        link is written. */
    method HandleReparse(dir: Path)
      requires Valid() && Open(dir)
      modifies this`folders, this`streak, this`breaker, this`health, counters
      modifies this`canceled, this`jobs, this`fileJobsOutstanding, this`dirOutstanding, this`trail
      ensures Valid() && SameOwed(old(FilesOwed()), old(DirsOwed()), old(LinksOwed()))
      ensures old(Excused()) ==> Excused()
    {
      SeeLink();
      if !linksSupported {
        EndLink(LinkFailed, Some(FsLimit));
        return;
      }
      var verdict: Verdict := *;
      match verdict {
        case Same => EndLink(LinkSkipped, None);
        case SkipDifferent => EndLink(LinkNotAttempted, None);
        case TypeConflicts => EndLink(LinkFailed, Some(TypeConflict));
        case _ => WriteLink(dir);
      }
    }

    method WriteLink(dir: Path)
      requires Valid() && Open(dir)
      modifies this`folders, this`streak, this`breaker, this`health, counters`files, counters`log
      modifies this`canceled, this`jobs, this`fileJobsOutstanding, this`dirOutstanding, this`trail
      modifies counters`links, counters`linkLog
      ensures Valid() && FilesOwed() == old(FilesOwed()) && LinksOwed() == old(LinksOwed()) - 1
      ensures old(Excused()) ==> Excused()
    {
      if dry {
        EndLink(LinkPlanned, None);
        return;
      }
      if sameSpindle {
        DrainFileWorkers();
      }
      Touch(dir);
      var failure: Option<Category> := *;
      EndLink(if failure.Some? then LinkFailed else LinkCopied, failure);
    }

    /** Handles one entry of directory `dir`; says whether it is a child
        directory to be entered later. */
    method HandleEntry(dir: Path, node: Node, seen: set<string>) returns (enter: bool, now: set<string>)
      requires Valid() && Open(dir)
      modifies this`folders, this`streak, this`breaker, this`health, counters
      modifies this`canceled, this`jobs, this`fileJobsOutstanding, this`dirOutstanding, this`trail
      ensures Valid() && SameOwed(old(FilesOwed()), old(DirsOwed()), old(LinksOwed()))
      ensures old(Excused()) ==> Excused()
      ensures seen <= now
      ensures enter ==> node.DirNode? && fold(node.name).Some?
                        && fold(node.name).value !in seen && fold(node.name).value in now
    {
      var path := dir + [node.name];
      enter, now := false, seen;
      if node.FileNode? {
        SeeFile();
      }
      if breaker.Some? {
        RecordAfterBreaker(node, path);
        return;
      }
      var key := fold(node.name);
      if key.None? {
        RecordEntryFailure(node, path, Internal);
        return;
      }
      if key.value in seen {
        RecordEntryFailure(node, path, TypeConflict);
        return;
      }
      now := seen + {key.value};
      var excluded: bool := *;
      if excluded {
        RecordExclusion(node, path);
        return;
      }
      match node {
        case FileNode(name, size) => HandleFile(dir, name, size);
        case LinkNode(_) => HandleReparse(dir);
        case DirNode(_, _) => enter := true;
      }
    }

    // ---- the walk

    /** The tasks fit together, and the open directories are those with an exit
        task. */
    ghost predicate Walking(tasks: seq<Task>)
      reads this`entered, this`done
    {
      && Placed(tasks, done)
      && entered == done + ExitPaths(tasks)
      && forall i :: 0 <= i < |tasks| && tasks[i].Enter? ==> tasks[i].node.DirNode?
    }

    ghost method OpenDirectory(dir: Path)
      requires PoolOk() && dir !in entered && dir !in done
      modifies this`trail, this`entered
      ensures PoolOk() && entered == old(entered) + {dir}
    {
      Opens(jobs, dirOutstanding, trail, dir);
      trail := trail + [Opened(dir)];
      entered := entered + {dir};
    }

    /** Waits for the directory's own jobs only, then stamps it. */
    method ExitDirectory(dir: Path, present: bool)
      requires Valid() && Open(dir)
      modifies this`folders, this`streak, this`breaker, this`health, counters
      modifies this`canceled, this`jobs, this`fileJobsOutstanding, this`dirOutstanding, this`trail, this`done
      ensures Valid() && SameOwed(old(FilesOwed()), old(DirsOwed()) - 1, old(LinksOwed()))
      ensures done == old(done) + {dir}
      ensures old(Excused()) ==> Excused()
    {
      WaitFor(dir);
      Finalizes(jobs, dirOutstanding, trail, dir);
      trail := trail + [Finalized(dir)];
      done := done + {dir};
      Stamp(present);
    }

    method WaitFor(dir: Path)
      requires Valid()
      modifies this`folders, this`streak, this`breaker, this`health, counters`files, counters`log
      modifies this`canceled, this`jobs, this`fileJobsOutstanding, this`dirOutstanding, this`trail
      ensures Valid() && FilesOwed() == old(FilesOwed())
      ensures dir !in dirOutstanding
      ensures old(Excused()) ==> Excused()
    {
      while dir in dirOutstanding
        invariant Valid() && FilesOwed() == old(FilesOwed())
        invariant old(Excused()) ==> Excused()
        decreases |jobs|
      {
        OutstandingMeansJobs(jobs, dirOutstanding, dir);
        ReceiveFileJob();
      }
    }

    /** Revalidates both directories, copies streams and attributes and sets
        the timestamps; any of it may fail. */
    method Stamp(present: bool)
      requires Valid()
      modifies this`streak, this`breaker, this`health, counters`dirs, counters`dirLog
      ensures Valid() && DirsOwed() == old(DirsOwed()) - 1
      ensures old(Excused()) ==> Excused()
    {
      if dry {
        SettleDir(DirPlanned);
        return;
      }
      var failure: Option<Category> := *;
      if present && failure.Some? {
        SettleDir(DirMetaFailed);
        AggregateError(failure.value);
      } else {
        SettleDir(DirDone);
      }
    }

    /** Handles every entry in listing order; child directories are kept for
        later, no two of them under one name. */
    method HandleEntries(dir: Path, nodes: seq<Node>) returns (kids: seq<Node>)
      requires Valid() && Open(dir)
      modifies this`folders, this`streak, this`breaker, this`health, counters
      modifies this`canceled, this`jobs, this`fileJobsOutstanding, this`dirOutstanding, this`trail
      ensures Valid() && SameOwed(old(FilesOwed()), old(DirsOwed()), old(LinksOwed()))
      ensures old(Excused()) ==> Excused()
      ensures AllDirs(kids) && NamesDiffer(kids) && SizeAll(kids) <= SizeAll(nodes)
    {
      kids := [];
      var seen: set<string> := {};
      for i := 0 to |nodes|
        invariant Valid() && SameOwed(old(FilesOwed()), old(DirsOwed()), old(LinksOwed()))
        invariant old(Excused()) ==> Excused()
        invariant AllDirs(kids) && SizeAll(kids) <= SizeAll(nodes[..i])
        invariant KeysSeen(kids, seen) && NamesDiffer(kids)
      {
        ghost var before := seen;
        var enter: bool;
        enter, seen := HandleEntry(dir, nodes[i], seen);
        SizeAllTake(nodes, i);
        if enter {
          SizeAllAppend(kids, nodes[i]);
          KeepKid(kids, nodes[i], before, seen);
          kids := kids + [nodes[i]];
        }
      }
      assert nodes[..|nodes|] == nodes;
    }

    ghost predicate KeysSeen(kids: seq<Node>, seen: set<string>) {
      forall i :: 0 <= i < |kids| ==> fold(kids[i].name).Some? && fold(kids[i].name).value in seen
    }

    lemma KeepKid(kids: seq<Node>, kid: Node, before: set<string>, now: set<string>)
      requires KeysSeen(kids, before) && before <= now && NamesDiffer(kids)
      requires fold(kid.name).Some? && fold(kid.name).value !in before && fold(kid.name).value in now
      ensures KeysSeen(kids + [kid], now) && NamesDiffer(kids + [kid])
    {
    }

    /** Deletes identity-proven orphaned temporaries (see Reclaim), counts other
        extras. */
    method SettleExtras(dir: Path, extras: nat)
      requires PoolOk() && Open(dir)
      modifies this`trail
      ensures PoolOk()
    {
      for i := 0 to extras
        invariant PoolOk()
      {
        var proven: bool := *;
        if proven && !dry {
          Touch(dir);
        }
      }
    }

    method EnterDirectory(task: Task, tasks: seq<Task>) returns (now: seq<Task>)
      requires Valid() && Walking(tasks)
      requires task.Enter? && task.node.DirNode? && Fits(task, tasks, done)
      modifies this`folders, this`streak, this`breaker, this`health, counters
      modifies this`canceled, this`jobs, this`fileJobsOutstanding, this`dirOutstanding, this`trail, this`entered
      ensures Valid() && Walking(now)
      ensures FilesOwed() == old(FilesOwed()) && LinksOwed() == old(LinksOwed())
      ensures DirsOwed() - Exits(now) == old(DirsOwed()) - Exits(tasks)
      ensures Pending(now) < Pending(tasks) + Size(task.node)
      ensures old(Excused()) ==> Excused()
    {
      var dir, children := task.path, task.node.children;
      now := tasks;
      var listed := ListBothSides(dir, children, task.present);
      if listed {
        now := EnterListed(task, tasks);
      }
    }

    /** Enters a directory that is listed on both sides. */
    method EnterListed(task: Task, tasks: seq<Task>) returns (now: seq<Task>)
      requires Valid() && Walking(tasks)
      requires task.Enter? && task.node.DirNode? && Fits(task, tasks, done)
      modifies this`folders, this`streak, this`breaker, this`health, counters
      modifies this`canceled, this`jobs, this`fileJobsOutstanding, this`dirOutstanding, this`trail, this`entered
      ensures Valid() && Walking(now)
      ensures SameOwed(old(FilesOwed()), old(DirsOwed()), old(LinksOwed()))
      ensures Exits(now) == Exits(tasks) + 1 && Pending(now) < Pending(tasks) + Size(task.node)
      ensures old(Excused()) ==> Excused()
    {
      var dir, children := task.path, task.node.children;
      NotYetEntered(task, tasks);
      OpenDirectory(dir);
      var kids := HandleEntries(dir, children);
      var extras: nat :| extras >= 0;
      SettleExtras(dir, extras);
      var exit := Exit(dir, task.present || dry);
      ExitIsPlaced(tasks, task, exit, kids, done);
      now := PushChildren(task, kids, tasks + [exit]);
    }

    /** Enumerates the source directory and joins the destination; a directory
        that fails here is settled at once, and its children with it. */
    method ListBothSides(dir: Path, children: seq<Node>, present: bool) returns (listed: bool)
      requires Valid()
      modifies this`folders, this`streak, this`breaker, this`health, counters
      ensures Valid() && FilesOwed() == old(FilesOwed()) && LinksOwed() == old(LinksOwed())
      ensures listed ==> DirsOwed() == old(DirsOwed()) + 1
      ensures !listed ==> DirsOwed() == old(DirsOwed())
      ensures old(Excused()) ==> Excused()
    {
      SeeDir();
      listed := false;
      var unreadable: Option<Category> := *;
      var unjoinable: Option<Category> := *;
      if unreadable.Some? {
        SettleDir(DirFailed);
        AggregateError(unreadable.value);
      } else if present && unjoinable.Some? {
        SettleDir(DirFailed);
        AggregateError(unjoinable.value);
        var waiting := AccountChildren(children, dir, []);
        DrainNotAttempted(waiting);
      } else {
        listed := true;
      }
    }

    lemma NotYetEntered(task: Task, tasks: seq<Task>)
      requires Walking(tasks) && task.Enter? && Fits(task, tasks, done)
      ensures task.path !in entered && task.path !in done
    {
      assert IsPrefix(task.path, task.path);
      forall i | 0 <= i < |tasks| && tasks[i].Exit? ensures tasks[i].path != task.path {
        assert Apart(tasks[i], task);
      }
    }

    /** Pushes the child directories last first, each created at the
        destination if it is missing there. */
    method PushChildren(task: Task, kids: seq<Node>, tasks: seq<Task>) returns (now: seq<Task>)
      requires Valid() && Walking(tasks) && Open(task.path)
      requires AllDirs(kids) && NamesDiffer(kids)
      requires RoomFor(task.path, kids, tasks, done)
      modifies this`folders, this`streak, this`breaker, this`health, counters, this`trail
      ensures Valid() && Walking(now)
      ensures SameOwed(old(FilesOwed()), old(DirsOwed()), old(LinksOwed()))
      ensures Exits(now) == Exits(tasks) && Pending(now) <= Pending(tasks) + SizeAll(kids)
      ensures old(Excused()) ==> Excused()
    {
      now := tasks;
      var i := |kids|;
      assert kids[..i] == kids;
      while i > 0
        invariant 0 <= i <= |kids|
        invariant Valid() && Walking(now)
        invariant SameOwed(old(FilesOwed()), old(DirsOwed()), old(LinksOwed()))
        invariant Exits(now) == Exits(tasks) && Pending(now) + SizeAll(kids[..i]) <= Pending(tasks) + SizeAll(kids)
        invariant RoomFor(task.path, kids[..i], now, done)
        invariant old(Excused()) ==> Excused()
      {
        i := i - 1;
        SizeAllTake(kids, i);
        now := PushChild(task, kids, i, now);
      }
    }

    method PushChild(task: Task, kids: seq<Node>, i: nat, tasks: seq<Task>) returns (now: seq<Task>)
      requires Valid() && Walking(tasks) && Open(task.path)
      requires AllDirs(kids) && NamesDiffer(kids) && i < |kids|
      requires RoomFor(task.path, kids[..i + 1], tasks, done)
      modifies this`folders, this`streak, this`breaker, this`health, counters, this`trail
      ensures Valid() && Walking(now) && RoomFor(task.path, kids[..i], now, done)
      ensures SameOwed(old(FilesOwed()), old(DirsOwed()), old(LinksOwed()))
      ensures Exits(now) == Exits(tasks) && Pending(now) <= Pending(tasks) + Size(kids[i])
      ensures old(Excused()) ==> Excused()
    {
      now := tasks;
      var child := task.path + [kids[i].name];
      var found: Found := *;
      var failed, present := PrepareChild(task, if task.present then found else Absent);
      RoomForFewer(task.path, kids, i, now, done);
      if failed.Some? {
        AccountFailedSubtree(kids[i], child, failed.value);
      } else {
        var enter := Enter(child, kids[i], present);
        RoomForNext(task.path, kids, i, now, enter, done);
        PlacedPush(now, enter, done);
        TasksAppend(now, enter);
        now := now + [enter];
      }
    }

    method PrepareChild(parent: Task, found: Found) returns (failed: Option<Category>, present: bool)
      requires PoolOk() && Open(parent.path)
      modifies this`trail
      ensures PoolOk()
      ensures found == Other ==> failed == Some(TypeConflict)
      ensures found == Directory ==> failed == None && present
      ensures found == Absent && failed == None ==> present == !dry
    {
      failed, present := None, false;
      match found {
        case Directory => present := true;
        case Other => failed := Some(TypeConflict);
        case Absent =>
          if !dry {
            failed := *;
            if failed.None? {
              Touch(parent.path);
              present := true;
              failed := *;
            }
          }
      }
    }

    /** The whole walk: every directory that is listed on both sides is
        stamped once, nothing is worked on after its directory was stamped, and
        everything discovered reaches exactly one terminal outcome. */
    method CopyTree(root: Node, present: bool)
      requires Valid() && root.DirNode?
      requires trail == [] && health == [] && jobs == []
      requires SameOwed(0, 0, 0)
      modifies this, counters
      ensures Valid() && SameOwed(0, 0, 0)
      ensures jobs == [] && counters.Balanced()
      ensures Clean(trail) && OpenedIn(trail) == FinalizedIn(trail)
    {
      var tasks := [Enter([], root, present)];
      RootIsPlaced(tasks);
      while tasks != []
        invariant Valid() && Walking(tasks)
        invariant SameOwed(0, Exits(tasks), 0)
        decreases Pending(tasks), |tasks|, |jobs|
      {
        assert tasks == tasks[..|tasks| - 1] + [tasks[|tasks| - 1]];
        tasks := RunTask(tasks[..|tasks| - 1], tasks[|tasks| - 1]);
      }
      AllStamped(jobs, dirOutstanding, trail);
      DrainFileWorkers();
      OwedIs(counters.filesSeen, counters.log, jobs);
      OwedIs(counters.dirsSeen, counters.dirLog, NO_JOBS);
      OwedIs(counters.linksSeen, counters.linkLog, NO_JOBS);
    }

    /** Runs the task popped from the back. The measure is lexicographic:
        unvisited nodes, then tasks, then jobs in flight. */
    method RunTask(tasks: seq<Task>, task: Task) returns (now: seq<Task>)
      requires Valid() && Walking(tasks + [task])
      modifies this, counters
      ensures Valid() && Walking(now)
      ensures FilesOwed() == old(FilesOwed()) && LinksOwed() == old(LinksOwed())
      ensures DirsOwed() - Exits(now) == old(DirsOwed()) - Exits(tasks + [task])
      ensures old(Excused()) ==> Excused()
      ensures Below((Pending(now), |now|, |jobs|), (Pending(tasks + [task]), |tasks| + 1, |old(jobs)|))
    {
      TasksAppend(tasks, task);
      PlacedPop(tasks, task, done);
      assert (tasks + [task])[|tasks|] == task;
      assert forall i :: 0 <= i < |tasks| ==> (tasks + [task])[i] == tasks[i];
      var requested: bool := *;
      ObserveCancellation(requested);
      if task.Enter? {
        if !canceled && breaker.None? {
          now := EnterDirectory(task, tasks);
        } else {
          SettleUnentered(DirFailed);
          now := tasks;
        }
      } else {
        now := RunExit(tasks, task);
      }
    }

    /** An exit whose own jobs are still out goes to the front of the deque
        after one completion, unless nothing else is left to do. */
    method RunExit(tasks: seq<Task>, task: Task) returns (now: seq<Task>)
      requires Valid() && Placed(tasks, done) && task.Exit? && Fits(task, tasks, done)
      requires entered == done + ExitPaths(tasks) + {task.path}
      requires forall i :: 0 <= i < |tasks| && tasks[i].Enter? ==> tasks[i].node.DirNode?
      modifies this`folders, this`streak, this`breaker, this`health, counters
      modifies this`canceled, this`jobs, this`fileJobsOutstanding, this`dirOutstanding, this`trail, this`done
      ensures Valid() && Walking(now)
      ensures FilesOwed() == old(FilesOwed()) && LinksOwed() == old(LinksOwed())
      ensures DirsOwed() - Exits(now) == old(DirsOwed()) - (Exits(tasks) + 1)
      ensures old(Excused()) ==> Excused()
      ensures Pending(now) == Pending(tasks)
      ensures |now| == |tasks| || (|now| == |tasks| + 1 && |jobs| < |old(jobs)|)
    {
      if task.path in dirOutstanding && tasks != [] {
        OutstandingMeansJobs(jobs, dirOutstanding, task.path);
        ReceiveFileJob();
        PlacedPushFront(tasks, task, done);
        TasksRotate(tasks, task);
        TasksAppend(tasks, task);
        ExitPathsRotate(tasks, task);
        now := [task] + tasks;
      } else {
        StampedTask(tasks, task);
        ExitDirectory(task.path, task.present);
        now := tasks;
      }
    }

    lemma RootIsPlaced(tasks: seq<Task>)
      requires Valid() && trail == [] && |tasks| == 1 && tasks[0].Enter? && tasks[0].node.DirNode?
      ensures Walking(tasks) && Exits(tasks) == 0
    {
    }

    lemma StampedTask(tasks: seq<Task>, task: Task)
      requires Placed(tasks, done) && task.Exit? && Fits(task, tasks, done)
      ensures Placed(tasks, done + {task.path}) && task.path !in done && task.path !in ExitPaths(tasks)
    {
      PlacedFinalize(tasks, task, done);
    }
  }

  // ---- the not-attempted work list

  ghost function WaitingSize(waiting: seq<(Node, Path)>): nat {
    if waiting == [] then 0 else WaitingSize(waiting[..|waiting| - 1]) + Size(waiting[|waiting| - 1].0)
  }

  lemma WaitingAppend(waiting: seq<(Node, Path)>, w: (Node, Path))
    ensures WaitingSize(waiting + [w]) == WaitingSize(waiting) + Size(w.0)
  {
    assert (waiting + [w])[..|waiting|] == waiting;
  }

  lemma WaitingMore(start: seq<(Node, Path)>, now: seq<(Node, Path)>, nodes: seq<Node>, i: nat, path: Path)
    requires i < |nodes| && WaitingSize(now) <= WaitingSize(start) + SizeAll(nodes[..i])
    ensures WaitingSize(now) <= WaitingSize(start) + SizeAll(nodes[..i + 1])
    ensures WaitingSize(now + [(nodes[i], path)]) <= WaitingSize(start) + SizeAll(nodes[..i + 1])
  {
    WaitingAppend(now, (nodes[i], path));
    SizeAllTake(nodes, i);
  }

  lemma SizeAllTake(nodes: seq<Node>, i: nat)
    requires i < |nodes|
    ensures SizeAll(nodes[..i + 1]) == SizeAll(nodes[..i]) + Size(nodes[i])
  {
    assert nodes[..i + 1] == nodes[..i] + [nodes[i]];
    SizeAllAppend(nodes[..i], nodes[i]);
  }

  lemma OutstandingMeansJobs(jobs: seq<Job>, outstanding: map<Path, int>, d: Path)
    requires Counted(outstanding, jobs) && d in outstanding
    ensures jobs != []
  {
    assert OutOf(outstanding, d) == CountIn(jobs, d);
  }

  ghost predicate Below(a: (int, int, int), b: (int, int, int)) {
    || a.0 < b.0
    || (a.0 == b.0 && a.1 < b.1)
    || (a.0 == b.0 && a.1 == b.1 && a.2 < b.2)
  }

  // ---- child directories

  ghost predicate AllDirs(kids: seq<Node>) { forall i :: 0 <= i < |kids| ==> kids[i].DirNode? }

  ghost predicate NamesDiffer(kids: seq<Node>) {
    forall i, j :: 0 <= i < j < |kids| ==> kids[i].name != kids[j].name
  }

  /** Every one of these children could be pushed next. */
  ghost predicate RoomFor(parent: Path, kids: seq<Node>, tasks: seq<Task>, done: set<Path>) {
    forall i :: 0 <= i < |kids| ==> Fits(Enter(parent + [kids[i].name], kids[i], true), tasks, done)
  }

  /** With its exit task pushed there is room for a directory's children. */
  lemma ExitIsPlaced(tasks: seq<Task>, task: Task, exit: Task, kids: seq<Node>, done: set<Path>)
    requires task.Enter? && Placed(tasks, done) && Fits(task, tasks, done)
    requires exit == Exit(task.path, exit.present)
    ensures Placed(tasks + [exit], done) && RoomFor(task.path, kids, tasks + [exit], done)
    ensures Pending(tasks + [exit]) == Pending(tasks) && Exits(tasks + [exit]) == Exits(tasks) + 1
    ensures ExitPaths(tasks + [exit]) == ExitPaths(tasks) + {task.path}
  {
    EnterMakesRoom(tasks, task, exit.present, done);
    TasksAppend(tasks, exit);
    KidsFit(tasks, task, exit, kids, done);
  }

  lemma KidsFit(tasks: seq<Task>, task: Task, exit: Task, kids: seq<Node>, done: set<Path>)
    requires task.Enter? && exit.Exit? && exit.path == task.path && Fits(task, tasks, done)
    ensures RoomFor(task.path, kids, tasks + [exit], done)
  {
    forall i | 0 <= i < |kids| ensures Fits(Enter(task.path + [kids[i].name], kids[i], true), tasks + [exit], done) {
      ChildFits(tasks, task, exit, Enter(task.path + [kids[i].name], kids[i], true), done);
    }
  }

  lemma RoomForFewer(parent: Path, kids: seq<Node>, i: nat, tasks: seq<Task>, done: set<Path>)
    requires i < |kids| && RoomFor(parent, kids[..i + 1], tasks, done)
    ensures RoomFor(parent, kids[..i], tasks, done)
  {
    assert forall j :: 0 <= j < i ==> kids[..i + 1][j] == kids[..i][j];
  }

  /** Pushing one child leaves room for its remaining siblings. */
  lemma RoomForNext(parent: Path, kids: seq<Node>, i: nat, tasks: seq<Task>, enter: Task, done: set<Path>)
    requires i < |kids| && NamesDiffer(kids) && RoomFor(parent, kids[..i + 1], tasks, done)
    requires enter.Enter? && enter.path == parent + [kids[i].name]
    ensures Fits(enter, tasks, done)
    ensures RoomFor(parent, kids[..i], tasks + [enter], done)
  {
    assert kids[..i + 1][i] == kids[i];
    forall j | 0 <= j < i
      ensures Fits(Enter(parent + [kids[j].name], kids[j], true), tasks + [enter], done)
    {
      assert kids[..i + 1][j] == kids[j];
      SiblingsApart(parent, kids[i].name, kids[j].name, enter, Enter(parent + [kids[j].name], kids[j], true));
    }
  }
}
