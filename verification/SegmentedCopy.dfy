/**
  A segmented transfer running, and the copy around it. Any interleaving, short
  reads, partial writes, failures, cancellation and panics are allowed.
*/
module SegmentedCopy {
  import opened Bytes
  import opened JournalRecords
  import opened EngineWorld
  import opened Checkpoints
  import opened EngineCopy
  import opened EngineSparse
  import opened Segments
  import opened SegmentThreads

  /** What joining the first n writers adds to the run's counters: a panicked
      thread's counters are lost with it. */
  function Counted(ws: seq<Writer>, n: int): (int, int) {
    if n <= 0 || n > |ws| then (0, 0)
    else
      var before, o := Counted(ws, n - 1), ws[n - 1];
      if o.pc == Ended(Panicked) then before else (before.0 + o.read, before.1 + o.written)
  }

  /** Ended writers take no further step. */
  ghost predicate EndedStay(before: seq<Writer>, now: seq<Writer>) {
    |now| == |before| && forall j :: 0 <= j < |before| && before[j].pc.Ended? ==> now[j] == before[j]
  }

  lemma {:induction false} CountedStays(before: seq<Writer>, now: seq<Writer>, n: nat)
    requires EndedStay(before, now) && n <= |before| && forall j :: 0 <= j < n ==> before[j].pc.Ended?
    ensures Counted(now, n) == Counted(before, n)
  {
    if n == 0 {
    } else {
      CountedStays(before, now, n - 1);
    }
  }

  /** The run's counters hold what the joined writers counted. */
  ghost predicate ReportIs(ws: seq<Writer>, c: Coordinator, read: int, written: int) {
    forall u {:trigger Unfold(u)} :: Unfold(u) ==> (read, written) == Counted(ws, JoinedCount(c, |ws|))
  }

  /** These numbers of bytes are what the writers have moved. */
  ghost predicate Tallied(ws: seq<Writer>, read: int, landed: int) {
    forall u {:trigger Unfold(u)} :: Unfold(u) ==> read == Sum(ws, Read) && landed == Sum(ws, Landed)
  }

  lemma ReportStays(t: Threads, i: nat, next: Writer, read: int, written: int)
    requires JoinsOk(t.coordinator, t.writers, t.slot) && i < |t.writers| && !t.writers[i].pc.Ended?
    requires ReportIs(t.writers, t.coordinator, read, written)
    ensures ReportIs(t.writers[i := next], t.coordinator, read, written)
  {
    assert Unfold(0);
    CountedStays(t.writers, t.writers[i := next], JoinedCount(t.coordinator, |t.writers|));
  }

  lemma TalliedPut(ws: seq<Writer>, i: nat, next: Writer, read: int, landed: int)
    requires i < |ws| && Tallied(ws, read, landed)
    ensures Tallied(ws[i := next], read + (next.read - ws[i].read), landed + (next.landed - ws[i].landed))
  {
    assert Unfold(0);
    SumUpdate(ws, i, next, Read);
    SumUpdate(ws, i, next, Landed);
  }

  /** What the coordinator's next step adds to the report. */
  function CountedNow(t: Threads): (int, int) {
    if t.coordinator.Joining? && 0 <= t.coordinator.index < |t.writers|
       && t.writers[t.coordinator.index].pc != Ended(Panicked)
    then (t.writers[t.coordinator.index].read, t.writers[t.coordinator.index].written) else (0, 0)
  }

  lemma ReportSteps(t: Threads, read: int, written: int)
    requires JoinsOk(t.coordinator, t.writers, t.slot) && !t.coordinator.Hashing? && !t.coordinator.Joined?
    requires t.coordinator.Joining? && t.coordinator.index < |t.writers| ==> t.writers[t.coordinator.index].pc.Ended?
    requires ReportIs(t.writers, t.coordinator, read, written)
    ensures var now := CoordinatorStep(t);
      && now.writers == t.writers
      && ReportIs(now.writers, now.coordinator, read + CountedNow(t).0, written + CountedNow(t).1)
  {
    assert Unfold(0);
  }

  /** Writer i once it holds the piece it has read. */
  method Holding(t: Threads, i: nat, piece: Data, ghost k: Task, ghost main: Data) returns (next: Writer)
    requires ThreadsOk(t, k, main) && i < |t.writers| && t.writers[i].pc.Reading?
    requires 0 < |piece| <= t.writers[i].segment.length - t.writers[i].moved
    requires var from := t.writers[i].segment.offset + t.writers[i].moved;
      k.clean ==> from + |piece| <= |k.content| && piece == k.content[from..from + |piece|]
    ensures ThreadsOk(Put(t, i, next, false, false), k, main) && Rank(next) < Rank(t.writers[i])
    ensures next.read == t.writers[i].read + |piece| && next.landed == t.writers[i].landed
  {
    ReadStepOk(t, k, main, i, piece);
    next := t.writers[i].(pc := Writing(piece), read := t.writers[i].read + |piece|);
  }

  /** The coordinator's next step without I/O, and what the report becomes. */
  method Coordinated(t: Threads, ghost k: Task, ghost main: Data, read: int, written: int)
    returns (now: Threads, readNow: int, writtenNow: int)
    requires ThreadsOk(t, k, main) && !t.coordinator.Hashing? && !t.coordinator.Joined?
    requires t.coordinator.Joining? && t.coordinator.index < |t.writers| ==> t.writers[t.coordinator.index].pc.Ended?
    requires ReportIs(t.writers, t.coordinator, read, written)
    ensures ThreadsOk(now, k, main) && now.writers == t.writers
    ensures CoordinatorRank(now.coordinator, |k.plan|, |k.content|)
          < CoordinatorRank(t.coordinator, |k.plan|, |k.content|)
    ensures ReportIs(now.writers, now.coordinator, readNow, writtenNow)
  {
    ReportSteps(t, read, written);
    CoordinatorStepOk(t, k, main);
    now := CoordinatorStep(t);
    var more := CountedNow(t);
    readNow, writtenNow := read + more.0, written + more.1;
  }

  lemma NothingMoved(ws: seq<Writer>)
    requires forall i :: 0 <= i < |ws| ==> ws[i].read == 0 && ws[i].landed == 0
    ensures Tallied(ws, 0, 0)
  {
    SumZero(ws, Read);
    SumZero(ws, Landed);
  }

  /** Bytes this writer moved that the run does not report. */
  function UnreportedRead(w: Writer): int { if w.pc == Ended(Panicked) then w.read else 0 }

  function UnreportedWritten(w: Writer): int { if w.pc == Ended(Panicked) then w.landed else w.landed - w.written }

  /** The report is short of the actual I/O by what the writers did not report. */
  lemma {:induction false} CountedGap(ws: seq<Writer>, n: nat)
    requires n <= |ws|
    ensures Sum(ws[..n], Read) == Counted(ws, n).0 + Sum(ws[..n], UnreportedRead)
    ensures Sum(ws[..n], Landed) == Counted(ws, n).1 + Sum(ws[..n], UnreportedWritten)
  {
    if n == 0 {
    } else {
      CountedGap(ws, n - 1);
      assert ws[..n][..n - 1] == ws[..n - 1];
    }
  }

  /** A sum of natural numbers is zero exactly when all of them are. */
  lemma {:induction false} SumZero(ws: seq<Writer>, f: Writer -> int)
    requires forall i :: 0 <= i < |ws| ==> f(ws[i]) >= 0
    ensures Sum(ws, f) >= 0
    ensures Sum(ws, f) == 0 <==> forall i :: 0 <= i < |ws| ==> f(ws[i]) == 0
  {
    if ws == [] {
    } else {
      SumZero(ws[..|ws| - 1], f);
    }
  }

  /** Complete writers have moved the whole file. */
  lemma {:induction false} MovedAll(ws: seq<Writer>, plan: seq<Segment>, chunk: nat, n: nat)
    requires |ws| == |plan| && Laid(plan, chunk) && 0 < n <= |plan|
    requires forall i :: 0 <= i < n ==> ws[i].read == ws[i].landed == plan[i].length
    ensures Sum(ws[..n], Read) == Sum(ws[..n], Landed) == plan[n - 1].End()
  {
    assert ws[..n][..n - 1] == ws[..n - 1];
    if n == 1 {
      assert ws[..0] == [];
    } else {
      MovedAll(ws, plan, chunk, n - 1);
    }
  }

  /** When every segment holds the source's bytes, so does the file. */
  lemma {:induction false} HeldUpTo(plan: seq<Segment>, chunk: nat, main: Data, content: Data, n: nat)
    requires Laid(plan, chunk) && 0 < n <= |plan| && plan[n - 1].End() <= |main|
    requires forall i :: 0 <= i < n ==> Holds(main, content, plan[i].offset, plan[i].length)
    ensures plan[n - 1].End() <= |content| && main[..plan[n - 1].End()] == content[..plan[n - 1].End()]
  {
    var s := plan[n - 1];
    if n == 1 {
      assert s.offset == 0;
    } else {
      HeldUpTo(plan, chunk, main, content, n - 1);
      assert main[..s.End()] == main[..s.offset] + main[s.offset..s.End()];
      assert content[..s.End()] == content[..s.offset] + content[s.offset..s.End()];
    }
  }

  /** All joined without a recorded error: every writer completed. */
  lemma JoinedClean(t: Threads, k: Task, main: Data)
    requires ThreadsOk(t, k, main) && t.coordinator.Joined? && !t.slot
    ensures forall j :: 0 <= j < |t.writers| ==>
              t.writers[j].pc == Ended(Complete)
              && t.writers[j].read == t.writers[j].landed == t.writers[j].written == k.plan[j].length
    ensures |main| == |k.content| && (k.clean ==> main == k.content)
    ensures k.hashSource && k.clean ==> t.hashed == main
  {
    var n := |k.plan|;
    forall j | 0 <= j < n
      ensures t.writers[j].pc == Ended(Complete)
      ensures t.writers[j].read == t.writers[j].landed == t.writers[j].written == k.plan[j].length
      ensures k.clean ==> Holds(main, k.content, k.plan[j].offset, k.plan[j].length)
    {
      assert OneOk(t.writers[j], k.plan[j], main, k, t.slot, t.stop);
      assert JoinedOk(t.writers[j], t.slot);
    }
    assert OneOk(t.writers[n - 1], k.plan[n - 1], main, k, t.slot, t.stop);
    if k.clean {
      HeldUpTo(k.plan, k.chunk, main, k.content, n);
      assert main[..|main|] == main && k.content[..|k.content|] == k.content;
    }
  }

  class Transfer {
    const w: World
    const req: Request
    const temp: Temp
    const plan: seq<Segment>
    const chunk: nat
    /** The coordinator hashes the local source while the writers run. */
    const hashSource: bool
    var t: Threads
    var reportedRead: int
    var reportedWritten: int
    /** Bytes of the source the writers read, and bytes that reached the file:
        counted where the I/O happens. */
    ghost var actualRead: int
    ghost var actualWritten: int

    ghost function Fixed(): Task
      reads w`stale
    {
      Task(plan, chunk, w.setting.content(req.snapshot, BASE), req.snapshot !in w.stale, hashSource)
    }

    ghost predicate Valid()
      reads this, w, temp
    {
      && Running(w, req, temp) && ThreadsOk(t, Fixed(), temp.main)
      && CountersOk(0, 0) && ReportOk()
    }

    /** The threads' own counters agree with the I/O, up to bytes just moved. */
    ghost predicate CountersOk(read: int, landed: int)
      reads this`t, this`actualRead, this`actualWritten
    {
      Tallied(t.writers, actualRead - read, actualWritten - landed)
    }

    /** The run's counters hold what the joined writers counted. */
    ghost predicate ReportOk()
      reads this`t, this`reportedRead, this`reportedWritten
    {
      ReportIs(t.writers, t.coordinator, reportedRead, reportedWritten)
    }

    constructor (w: World, req: Request, temp: Temp, plan: seq<Segment>, chunk: nat, hashSource: bool)
      requires Running(w, req, temp)
      requires Partition(plan, req.snapshot.size, chunk) && chunk > 0 && |temp.main| <= req.snapshot.size
      ensures Valid() && this.w == w && this.req == req && this.temp == temp && this.plan == plan
      ensures this.hashSource == hashSource && this.chunk == chunk
    {
      this.w, this.req, this.temp, this.plan, this.chunk, this.hashSource := w, req, temp, plan, chunk, hashSource;
      t := Threads(seq(|plan|, i requires 0 <= i < |plan| => Writer(plan[i], 0, Opening, 0, 0, 0)), false, false,
                   if hashSource then Hashing(0) else Joining(0), []);
      reportedRead, reportedWritten, actualRead, actualWritten := 0, 0, 0, 0;
      new;
      forall i | 0 <= i < |plan| ensures plan[i].End() <= req.snapshot.size {
        SegmentsFit(plan, req.snapshot.size, chunk, i);
      }
      NothingMoved(t.writers);
    }

    /** Puts a writer back after a step; its counters account for the I/O just
        done. */
    method Replace(i: nat, next: Writer, slot: bool, stop: bool)
      requires i < |t.writers| && !t.writers[i].pc.Ended? && Running(w, req, temp) && ReportOk()
      requires ThreadsOk(Put(t, i, next, slot, stop), Fixed(), temp.main) && ThreadsOk(t, Fixed(), temp.main)
      requires CountersOk(next.read - t.writers[i].read, next.landed - t.writers[i].landed)
      requires Rank(next) < Rank(t.writers[i])
      modifies this`t
      ensures Valid() && t.coordinator == old(t).coordinator
      ensures Sum(t.writers, Rank) < old(Sum(t.writers, Rank))
    {
      TalliedPut(t.writers, i, next, actualRead - (next.read - t.writers[i].read),
                 actualWritten - (next.landed - t.writers[i].landed));
      SumUpdate(t.writers, i, next, Rank);
      ReportStays(t, i, next, reportedRead, reportedWritten);
      t := Put(t, i, next, slot, stop);
    }

    /** Reads some bytes of the source: one at least, a chunk at most. */
    method FetchSome(position: nat, left: nat) returns (piece: Data)
      requires Valid() && 0 < left && position + left <= req.snapshot.size
      modifies w`facts, w`stale
      ensures Valid() && old(w.stale) <= w.stale && 0 < |piece| <= left
      ensures Fixed().clean ==> piece == Fixed().content[position..position + |piece|]
    {
      var n: nat :| n >= 0;
      ghost var before := Fixed();
      piece := ReadSource(w, req, BASE, position, Min(n, Min(chunk, left) - 1) + 1);
      StillOk(t, before, temp.main, Fixed());
    }

    /** Writer i takes its next step. */
    method StepWriter(i: nat)
      requires Valid() && i < |t.writers| && !t.writers[i].pc.Ended?
      modifies this`t, this`actualRead, this`actualWritten, w`facts, w`stale, temp`main
      ensures Valid() && old(w.stale) <= w.stale && t.coordinator == old(t).coordinator
      ensures Sum(t.writers, Rank) < old(Sum(t.writers, Rank))
    {
      var fails: bool := *;
      var panics: bool := *;
      var o := t.writers[i];
      if o.pc.Writing? {
        WriteOut(i, fails || panics, panics);
      } else if panics {
        FaultStepOk(t, Fixed(), temp.main, i, 0, true);
        Replace(i, Faulty(o, 0, true), false, false);
      } else if o.pc.Reading? && !fails {
        ReadIn(i);
      } else {
        OwnStepOk(t, Fixed(), temp.main, i, fails);
        Replace(i, OwnStep(o, fails, t.stop), o.pc.Recording?, o.pc.Tripping?);
      }
    }

    method ReadIn(i: nat)
      requires Valid() && i < |t.writers| && t.writers[i].pc.Reading?
      modifies this`t, this`actualRead, w`facts, w`stale
      ensures Valid() && old(w.stale) <= w.stale && t.coordinator == old(t).coordinator
      ensures Sum(t.writers, Rank) < old(Sum(t.writers, Rank))
    {
      var o := t.writers[i];
      ReadBounds(t, Fixed(), temp.main, i);
      var piece := FetchSome(o.segment.offset + o.moved, o.segment.length - o.moved);
      TakeIn(i, piece);
    }

    method TakeIn(i: nat, piece: Data)
      requires Valid() && i < |t.writers| && t.writers[i].pc.Reading?
      requires 0 < |piece| <= t.writers[i].segment.length - t.writers[i].moved
      requires var from := t.writers[i].segment.offset + t.writers[i].moved;
        Fixed().clean ==> from + |piece| <= |Fixed().content| && piece == Fixed().content[from..from + |piece|]
      modifies this`t, this`actualRead
      ensures Valid() && t.coordinator == old(t).coordinator
      ensures Sum(t.writers, Rank) < old(Sum(t.writers, Rank))
    {
      var next := Holding(t, i, piece, Fixed(), temp.main);
      actualRead := actualRead + |piece|;
      Replace(i, next, false, false);
    }

    /** Writes a piece out; a write that fails, or a thread that panics in it, may
        have put a part of the piece into the file. */
    method WriteOut(i: nat, fails: bool, panics: bool)
      requires Valid() && i < |t.writers| && t.writers[i].pc.Writing? && (panics ==> fails)
      modifies this`t, this`actualWritten, temp`main
      ensures Valid() && t.coordinator == old(t).coordinator
      ensures Sum(t.writers, Rank) < old(Sum(t.writers, Rank))
    {
      var o := t.writers[i];
      ReadBounds(t, Fixed(), temp.main, i);
      var part: nat :| part < |o.pc.piece|;
      var n := if fails then part else |o.pc.piece|;
      ghost var before := temp.main;
      Land(i, if fails then o.pc.piece[..n] else o.pc.piece);
      if fails {
        WriteFailed(i, n, panics);
      } else {
        WriteStepOk(t, Fixed(), before, temp.main, i);
        Replace(i, Moved(o), false, false);
      }
    }

    method WriteFailed(i: nat, n: nat, panics: bool)
      requires Running(w, req, temp) && ThreadsOk(t, Fixed(), temp.main) && ReportOk() && CountersOk(0, n)
      requires i < |t.writers| && t.writers[i].pc.Writing?
      modifies this`t
      ensures Valid() && t.coordinator == old(t).coordinator
      ensures Sum(t.writers, Rank) < old(Sum(t.writers, Rank))
    {
      FaultStepOk(t, Fixed(), temp.main, i, n, panics);
      Replace(i, Faulty(t.writers[i], n, panics), false, false);
    }

    /** Some bytes reach the file, after those the writer has moved. */
    method Land(i: nat, bytes: Data)
      requires Valid() && i < |t.writers| && t.writers[i].moved + |bytes| <= t.writers[i].segment.length
      modifies this`actualWritten, temp`main
      ensures Running(w, req, temp) && ThreadsOk(t, Fixed(), temp.main) && ReportOk() && CountersOk(0, |bytes|)
      ensures bytes != [] ==>
                temp.main == WriteAt(old(temp.main), t.writers[i].segment.offset + t.writers[i].moved, bytes)
    {
      if bytes != [] {
        LandKeeps(t, Fixed(), temp.main, i, bytes);
        temp.main := WriteAt(temp.main, t.writers[i].segment.offset + t.writers[i].moved, bytes);
        actualWritten := actualWritten + |bytes|;
      }
    }

    /** The coordinator takes its next step, if it is not waiting for a writer. */
    method StepCoordinator()
      requires Valid() && !t.coordinator.Joined?
      requires t.coordinator.Joining? && t.coordinator.index < |t.writers| ==> t.writers[t.coordinator.index].pc.Ended?
      modifies this`t, this`reportedRead, this`reportedWritten, w`facts, w`stale
      ensures Valid() && old(w.stale) <= w.stale && t.writers == old(t).writers
      ensures CoordinatorRank(t.coordinator, |plan|, req.snapshot.size)
            < CoordinatorRank(old(t).coordinator, |plan|, req.snapshot.size)
    {
      if t.coordinator.Hashing? {
        HashSome();
      } else {
        Coordinate();
      }
    }

    method Coordinate()
      requires Valid() && !t.coordinator.Hashing? && !t.coordinator.Joined?
      requires t.coordinator.Joining? && t.coordinator.index < |t.writers| ==> t.writers[t.coordinator.index].pc.Ended?
      modifies this`t, this`reportedRead, this`reportedWritten
      ensures Valid() && t.writers == old(t).writers
      ensures CoordinatorRank(t.coordinator, |plan|, req.snapshot.size)
            < CoordinatorRank(old(t).coordinator, |plan|, req.snapshot.size)
    {
      t, reportedRead, reportedWritten := Coordinated(t, Fixed(), temp.main, reportedRead, reportedWritten);
    }

    method HashSome()
      requires Valid() && t.coordinator.Hashing?
      modifies this`t, w`facts, w`stale
      ensures Valid() && old(w.stale) <= w.stale && t.writers == old(t).writers
      ensures CoordinatorRank(t.coordinator, |plan|, req.snapshot.size)
            < CoordinatorRank(old(t).coordinator, |plan|, req.snapshot.size)
    {
      var position := t.coordinator.position;
      var fails: bool := *;
      if position == req.snapshot.size || t.stop {
        HashStepOk(t, Fixed(), temp.main, []);
        t := t.(coordinator := Joining(0));
      } else if fails {
        HashStepOk(t, Fixed(), temp.main, []);
        t := t.(coordinator := HashRecording);
      } else {
        var piece := FetchSome(position, req.snapshot.size - position);
        HashStepOk(t, Fixed(), temp.main, piece);
        t := t.(hashed := t.hashed + piece, coordinator := Hashing(position + |piece|));
      }
    }

    /** Writer i moves if it can; otherwise the coordinator does, or the writer
        it waits for. */
    method Step(i: nat)
      requires Valid() && !t.coordinator.Joined?
      modifies this, w`facts, w`stale, temp`main
      ensures Valid() && old(w.stale) <= w.stale
      ensures Sum(t.writers, Rank) < old(Sum(t.writers, Rank))
              || (t.writers == old(t).writers
                  && CoordinatorRank(t.coordinator, |plan|, req.snapshot.size)
                   < CoordinatorRank(old(t).coordinator, |plan|, req.snapshot.size))
    {
      var j := i;
      if (i >= |t.writers| || t.writers[i].pc.Ended?) && t.coordinator.Joining? {
        j := t.coordinator.index;
      }
      if j < |t.writers| && !t.writers[j].pc.Ended? {
        StepWriter(j);
      } else {
        StepCoordinator();
      }
    }

    /** Runs the threads, in any interleaving, until all are joined. */
    method Run()
      requires Valid()
      modifies this, w`facts, w`stale, temp`main
      ensures Valid() && old(w.stale) <= w.stale && t.coordinator.Joined?
    {
      while !t.coordinator.Joined?
        invariant Valid() && old(w.stale) <= w.stale
        decreases Sum(t.writers, Rank), CoordinatorRank(t.coordinator, |plan|, req.snapshot.size)
      {
        RanksNatural(t, Fixed(), temp.main);
        var i: nat :| i >= 0;
        Step(i);
      }
    }

    /** After the run the counters never report more than was moved; they report
        all of it exactly when no thread panicked after moving something or
        failed in the middle of a write. Without a recorded error they do, and
        the temporary is the source. */
    lemma Outcome()
      requires Valid() && t.coordinator.Joined?
      ensures reportedRead <= actualRead && reportedWritten <= actualWritten
      ensures reportedRead == actualRead <==> forall j :: 0 <= j < |t.writers| ==> UnreportedRead(t.writers[j]) == 0
      ensures reportedWritten == actualWritten
              <==> forall j :: 0 <= j < |t.writers| ==> UnreportedWritten(t.writers[j]) == 0
      ensures !t.slot ==> reportedRead == actualRead == reportedWritten == actualWritten == req.snapshot.size
      ensures !t.slot ==> |temp.main| == req.snapshot.size && Sourced(w, req, BASE, temp.main)
      ensures !t.slot && hashSource ==> req.snapshot in w.stale || t.hashed == temp.main
    {
      var ws := t.writers;
      forall j | 0 <= j < |ws| ensures UnreportedRead(ws[j]) >= 0 && UnreportedWritten(ws[j]) >= 0 {
        assert OneOk(ws[j], plan[j], temp.main, Fixed(), t.slot, t.stop);
      }
      ReportGap(ws, reportedRead, reportedWritten, actualRead, actualWritten);
      if !t.slot {
        JoinedClean(t, Fixed(), temp.main);
        AllReported(ws, plan, chunk, reportedRead, reportedWritten, actualRead, actualWritten);
        assert temp.main[..|temp.main|] == temp.main;
      }
    }
  }

  /** How far the report may be from the I/O once all writers are joined. */
  lemma ReportGap(ws: seq<Writer>, reportedRead: int, reportedWritten: int, read: int, landed: int)
    requires ReportIs(ws, Joined, reportedRead, reportedWritten) && Tallied(ws, read, landed)
    requires forall j :: 0 <= j < |ws| ==> UnreportedRead(ws[j]) >= 0 && UnreportedWritten(ws[j]) >= 0
    ensures reportedRead <= read && reportedWritten <= landed
    ensures reportedRead == read <==> forall j :: 0 <= j < |ws| ==> UnreportedRead(ws[j]) == 0
    ensures reportedWritten == landed <==> forall j :: 0 <= j < |ws| ==> UnreportedWritten(ws[j]) == 0
  {
    assert Unfold(0);
    assert ws[..|ws|] == ws;
    CountedGap(ws, |ws|);
    SumZero(ws, UnreportedRead);
    SumZero(ws, UnreportedWritten);
  }

  lemma AllReported(ws: seq<Writer>, plan: seq<Segment>, chunk: nat, reportedRead: int, reportedWritten: int, read: int,
                    landed: int)
    requires ReportIs(ws, Joined, reportedRead, reportedWritten) && Tallied(ws, read, landed)
    requires |ws| == |plan| > 0 && Laid(plan, chunk)
    requires forall j :: 0 <= j < |ws| ==>
               ws[j].pc == Ended(Complete) && ws[j].read == ws[j].landed == ws[j].written == plan[j].length
    ensures reportedRead == read == reportedWritten == landed == plan[|plan| - 1].End()
  {
    assert Unfold(0);
    assert ws[..|ws|] == ws;
    MovedAll(ws, plan, chunk, |ws|);
    ReportGap(ws, reportedRead, reportedWritten, read, landed);
  }

  lemma RanksNatural(t: Threads, k: Task, main: Data)
    requires ThreadsOk(t, k, main)
    ensures Sum(t.writers, Rank) >= 0
  {
    forall j | 0 <= j < |t.writers| ensures Rank(t.writers[j]) >= 0 {
      assert OneOk(t.writers[j], k.plan[j], main, k, t.slot, t.stop);
    }
    SumZero(t.writers, Rank);
  }

  /** Copies one file in parallel segments. Only a transfer without any recorded
      error is published, and then the file is the source. */
  method CopySegmented(w: World, req: Request, log: Log, streams: seq<StreamInfo>, plan: seq<Segment>,
                       remote: bool, shouldHash: bool) returns (ok: bool, read: int, written: int)
    requires w.Safe() && w.Seen(req.snapshot)
    requires Listing(w, req, streams) && Partition(plan, req.snapshot.size, req.chunk)
    modifies w, log
    ensures w.Safe()
    ensures ok ==> IsPublished(w, req.snapshot, map[]) && read == written == req.snapshot.size
    ensures !ok ==> (|| IsPublished(w, req.snapshot, map[])
                     || Unpublished(w, old(w.published), old(w.publishedFor), old(w.publishedOver)))
  {
    read, written := 0, 0;
    var name: Text := *;
    var identity: Identity := *;
    var temp := new Temp(name, identity, [], map[], false);
    ok := w.Create(name, req.snapshot);
    var prepared: bool := *;
    if !ok || !prepared || req.chunk == 0 {
      return false, 0, 0;
    }
    if remote {
      temp.main := Resized(temp.main, req.snapshot.size);
    }
    var hasher;
    ok, read, written, hasher := TransferAll(w, req, temp, plan, remote, shouldHash);
    if ok {
      ok := Finish(w, req, log, temp, streams, hasher, shouldHash);
    }
  }

  /** Runs the transfer, with the digest taken from the local side. */
  method TransferAll(w: World, req: Request, temp: Temp, plan: seq<Segment>, remote: bool, shouldHash: bool)
    returns (ok: bool, read: int, written: int, hasher: Option<Data>)
    requires Running(w, req, temp) && |temp.main| <= req.snapshot.size
    requires Partition(plan, req.snapshot.size, req.chunk) && req.chunk > 0
    modifies w`facts, w`stale, temp`main
    ensures Running(w, req, temp) && old(w.stale) <= w.stale
    ensures ok ==> |temp.main| == req.snapshot.size && Sourced(w, req, BASE, temp.main)
    ensures ok ==> req.snapshot in w.stale || (hasher.Some? ==> hasher.value == temp.main)
    ensures ok ==> read == written == req.snapshot.size
  {
    var t := new Transfer(w, req, temp, plan, req.chunk, remote && shouldHash);
    t.Run();
    t.Outcome();
    ok, read, written := !t.t.slot, t.reportedRead, t.reportedWritten;
    hasher := if remote && shouldHash then Some(t.t.hashed) else None;
    if ok && !remote && shouldHash {
      var hashed := HashPrefix(temp.main, req.snapshot.size, req.chunk);
      assert temp.main[..req.snapshot.size] == temp.main;
      ok := hashed.Hashed?;
      hasher := if ok then Some(hashed.fed) else None;
    }
  }
}
