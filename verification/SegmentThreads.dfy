/**
  The threads of a segmented transfer as values: what is always true of them,
  and that every step keeps it.
*/
module SegmentThreads {
  import opened Bytes
  import opened EngineWorld
  import opened EngineSparse
  import opened Checkpoints
  import opened Segments

  /** What the threads share. */
  datatype Threads = Threads(writers: seq<Writer>, slot: bool, stop: bool, coordinator: Coordinator, hashed: Data)

  /** What is fixed for a transfer; `clean` says the source is unchanged. */
  datatype Task = Task(plan: seq<Segment>, chunk: nat, content: Data, clean: bool, hashSource: bool)
  {
    ghost predicate Valid() { chunk > 0 && Partition(plan, |content|, chunk) }
  }

  lemma {:induction false} SegmentsDisjoint(plan: seq<Segment>, chunk: nat, i: nat, j: nat)
    requires Laid(plan, chunk) && i < j < |plan|
    ensures plan[i].End() <= plan[j].offset
    decreases j
  {
    if i == j - 1 {
    } else {
      SegmentsDisjoint(plan, chunk, i, j - 1);
    }
  }

  lemma {:induction false} SegmentsFit(plan: seq<Segment>, size: nat, chunk: nat, i: nat)
    requires Partition(plan, size, chunk) && i < |plan|
    ensures plan[i].End() <= size
  {
    if i == |plan| - 1 {
    } else {
      SegmentsDisjoint(plan, chunk, i, |plan| - 1);
    }
  }

  // ---- writers

  ghost predicate OneOk(w: Writer, s: Segment, main: Data, k: Task, slot: bool, stop: bool) {
    w.segment == s && WriterOk(w, main, k.content, k.clean, slot, stop)
  }

  /** Every writer is in order, each on its own segment. */
  ghost predicate WritersOk(ws: seq<Writer>, main: Data, k: Task, slot: bool, stop: bool) {
    && |ws| == |k.plan|
    && forall i :: 0 <= i < |ws| ==> OneOk(ws[i], k.plan[i], main, k, slot, stop)
  }

  /** Writers joined so far. */
  function JoinedCount(c: Coordinator, writers: int): int {
    match c
    case Joining(n) => n
    case JoinRecording(n) => n
    case JoinTripping(n) => n
    case Joined => writers
    case _ => 0
  }

  /** Joined writers have ended, and a panic among them is recorded. */
  ghost predicate JoinsOk(c: Coordinator, ws: seq<Writer>, slot: bool) {
    var n := JoinedCount(c, |ws|);
    && 0 <= n <= |ws|
    && (forall j :: 0 <= j < n ==> JoinedOk(ws[j], slot))
    && (c.JoinRecording? || c.JoinTripping? ==> n < |ws| && ws[n].pc == Ended(Panicked))
    && (c.HashTripping? || c.JoinTripping? ==> slot)
  }

  ghost predicate JoinedOk(w: Writer, slot: bool) { w.pc.Ended? && (w.pc.how.Panicked? ==> slot) }

  /** The digest is of the source, as far as it got, or an error is recorded. */
  ghost predicate DigestOk(t: Threads, k: Task) {
    match t.coordinator
    case Hashing(p) => |t.hashed| == p <= |k.content| && (k.clean ==> t.hashed == k.content[..p])
    case HashRecording => true
    case HashTripping => true
    case _ => k.hashSource && k.clean ==> t.slot || t.hashed == k.content
  }

  ghost predicate ThreadsOk(t: Threads, k: Task, main: Data) {
    && k.Valid() && |main| <= |k.content|
    && WritersOk(t.writers, main, k, t.slot, t.stop)
    && (t.stop ==> t.slot)
    && JoinsOk(t.coordinator, t.writers, t.slot) && DigestOk(t, k)
  }

  // ---- a writer's steps

  function Read(w: Writer): int { w.read }

  function Landed(w: Writer): int { w.landed }

  function Rank(w: Writer): int { WriterRank(w) }

  /** Writer i is put back after a step; the flags may have been set. */
  function Put(t: Threads, i: nat, next: Writer, slot: bool, stop: bool): Threads
    requires i < |t.writers|
  {
    t.(writers := t.writers[i := next], slot := t.slot || slot, stop := t.stop || stop)
  }

  lemma FlagsKeep(w: Writer, s: Segment, main: Data, k: Task, slot: bool, stop: bool, slotNow: bool, stopNow: bool)
    requires OneOk(w, s, main, k, slot, stop) && (slot ==> slotNow) && (stop ==> stopNow)
    ensures OneOk(w, s, main, k, slotNow, stopNow)
  {
  }

  lemma PutKeepsWriters(t: Threads, k: Task, main: Data, i: nat, next: Writer, slot: bool, stop: bool)
    requires WritersOk(t.writers, main, k, t.slot, t.stop) && i < |t.writers|
    requires OneOk(next, k.plan[i], main, k, t.slot || slot, t.stop || stop)
    ensures WritersOk(Put(t, i, next, slot, stop).writers, main, k, t.slot || slot, t.stop || stop)
  {
    var now := Put(t, i, next, slot, stop).writers;
    forall j | 0 <= j < |now| ensures OneOk(now[j], k.plan[j], main, k, t.slot || slot, t.stop || stop) {
      if j != i {
        FlagsKeep(t.writers[j], k.plan[j], main, k, t.slot, t.stop, t.slot || slot, t.stop || stop);
      }
    }
  }

  lemma PutKeepsJoins(t: Threads, i: nat, next: Writer, slot: bool, stop: bool)
    requires JoinsOk(t.coordinator, t.writers, t.slot) && i < |t.writers| && !t.writers[i].pc.Ended?
    ensures JoinsOk(t.coordinator, Put(t, i, next, slot, stop).writers, t.slot || slot)
  {
  }

  /** A writer that has not ended may take a step of its own. */
  lemma PutKeeps(t: Threads, k: Task, main: Data, i: nat, next: Writer, slot: bool, stop: bool)
    requires ThreadsOk(t, k, main) && i < |t.writers| && !t.writers[i].pc.Ended?
    requires OneOk(next, k.plan[i], main, k, t.slot || slot, t.stop || stop) && (stop ==> t.slot || slot)
    ensures ThreadsOk(Put(t, i, next, slot, stop), k, main)
  {
    PutKeepsWriters(t, k, main, i, next, slot, stop);
    PutKeepsJoins(t, i, next, slot, stop);
  }

  /** The steps that touch neither file nor counters. */
  function OwnStep(w: Writer, fails: bool, stop: bool): Writer
    requires !w.pc.Writing? && !w.pc.Ended? && (w.pc.Reading? ==> fails)
  {
    match w.pc
    case Opening => w.(pc := if fails then Recording else Polling)
    case Polling => w.(pc := if stop then Ended(Halted) else if fails then Recording else Reading)
    case Reading => w.(pc := Recording)
    case Flushing => w.(pc := if fails then Recording else Ended(Complete))
    case Recording => w.(pc := Tripping)
    case Tripping => w.(pc := Ended(Broken))
  }

  lemma OwnStepOk(t: Threads, k: Task, main: Data, i: nat, fails: bool)
    requires ThreadsOk(t, k, main) && i < |t.writers|
    requires var w := t.writers[i]; !w.pc.Writing? && !w.pc.Ended? && (w.pc.Reading? ==> fails)
    ensures var w := t.writers[i]; var next := OwnStep(w, fails, t.stop);
      && ThreadsOk(Put(t, i, next, w.pc.Recording?, w.pc.Tripping?), k, main)
      && Rank(next) < Rank(w) && next.read == w.read && next.landed == w.landed
  {
    var w := t.writers[i];
    var next := OwnStep(w, fails, t.stop);
    assert OneOk(w, k.plan[i], main, k, t.slot, t.stop);
    PutKeeps(t, k, main, i, next, w.pc.Recording?, w.pc.Tripping?);
  }

  lemma ReadBounds(t: Threads, k: Task, main: Data, i: nat)
    requires ThreadsOk(t, k, main) && i < |t.writers|
    ensures t.writers[i].segment.End() <= |k.content| && t.writers[i].moved <= t.writers[i].segment.length
    ensures t.writers[i].pc.Reading? ==> t.writers[i].moved < t.writers[i].segment.length
    ensures t.writers[i].pc.Writing? ==>
              0 < |t.writers[i].pc.piece| && t.writers[i].moved + |t.writers[i].pc.piece| <= t.writers[i].segment.length
  {
    assert OneOk(t.writers[i], k.plan[i], main, k, t.slot, t.stop);
  }

  lemma ReadStepOk(t: Threads, k: Task, main: Data, i: nat, piece: Data)
    requires ThreadsOk(t, k, main) && i < |t.writers| && t.writers[i].pc.Reading?
    requires var w := t.writers[i]; var from := w.segment.offset + w.moved;
      && 0 < |piece| <= w.segment.length - w.moved
      && (k.clean ==> from + |piece| <= |k.content| && piece == k.content[from..from + |piece|])
    ensures var w := t.writers[i]; var next := w.(pc := Writing(piece), read := w.read + |piece|);
      ThreadsOk(Put(t, i, next, false, false), k, main) && Rank(next) < Rank(w)
  {
    var w := t.writers[i];
    var next := w.(pc := Writing(piece), read := w.read + |piece|);
    assert OneOk(next, k.plan[i], main, k, t.slot, t.stop) && Rank(next) < Rank(w) by {
      assert OneOk(w, k.plan[i], main, k, t.slot, t.stop);
      HoldsPiece(w, k.plan[i], main, k, t.slot, t.stop, piece);
    }
    PutKeeps(t, k, main, i, next, false, false);
  }

  lemma HoldsPiece(w: Writer, s: Segment, main: Data, k: Task, slot: bool, stop: bool, piece: Data)
    requires OneOk(w, s, main, k, slot, stop) && w.pc.Reading? && 0 < |piece| <= w.segment.length - w.moved
    requires var from := w.segment.offset + w.moved;
      k.clean ==> from + |piece| <= |k.content| && piece == k.content[from..from + |piece|]
    ensures OneOk(w.(pc := Writing(piece), read := w.read + |piece|), s, main, k, slot, stop)
  {
  }

  // ---- a write reaches the file

  lemma OtherStays(o: Writer, s: Segment, main: Data, k: Task, slot: bool, stop: bool, position: nat, piece: Data)
    requires OneOk(o, s, main, k, slot, stop)
    requires o.segment.offset + o.moved <= position || position + |piece| <= o.segment.offset
    ensures OneOk(o, s, WriteAt(main, position, piece), k, slot, stop)
  {
    WriteAtFacts(main, position, piece);
    if k.clean {
      WriteElsewhere(main, k.content, position, piece, o.segment.offset, o.moved);
    }
  }

  /** Bytes landing after what writer i has moved disturb no writer. */
  lemma LandKeeps(t: Threads, k: Task, main: Data, i: nat, part: Data)
    requires ThreadsOk(t, k, main) && i < |t.writers|
    requires t.writers[i].moved + |part| <= t.writers[i].segment.length
    ensures ThreadsOk(t, k, WriteAt(main, t.writers[i].segment.offset + t.writers[i].moved, part))
  {
    var position := t.writers[i].segment.offset + t.writers[i].moved;
    var now := WriteAt(main, position, part);
    assert OneOk(t.writers[i], k.plan[i], main, k, t.slot, t.stop);
    forall j | 0 <= j < |t.writers| ensures OneOk(t.writers[j], k.plan[j], now, k, t.slot, t.stop) {
      assert OneOk(t.writers[j], k.plan[j], main, k, t.slot, t.stop);
      if i < j {
        SegmentsDisjoint(k.plan, k.chunk, i, j);
      } else if j < i {
        SegmentsDisjoint(k.plan, k.chunk, j, i);
      }
      OtherStays(t.writers[j], k.plan[j], main, k, t.slot, t.stop, position, part);
    }
    WriteAtFacts(main, position, part);
  }

  /** What a successful write makes of its writer. */
  function Moved(w: Writer): Writer
    requires w.pc.Writing?
  {
    var n := |w.pc.piece|;
    w.(moved := w.moved + n, written := w.written + n, landed := w.landed + n,
       pc := if w.moved + n == w.segment.length then Flushing else Polling)
  }

  lemma WriteStepOk(t: Threads, k: Task, before: Data, main: Data, i: nat)
    requires ThreadsOk(t, k, before) && ThreadsOk(t, k, main) && i < |t.writers| && t.writers[i].pc.Writing?
    requires main == WriteAt(before, t.writers[i].segment.offset + t.writers[i].moved, t.writers[i].pc.piece)
    ensures ThreadsOk(Put(t, i, Moved(t.writers[i]), false, false), k, main)
    ensures Rank(Moved(t.writers[i])) < Rank(t.writers[i])
  {
    var w := t.writers[i];
    assert OneOk(w, k.plan[i], before, k, t.slot, t.stop);
    WriteAtFacts(before, w.segment.offset + w.moved, w.pc.piece);
    if k.clean {
      WriteNext(before, k.content, w.segment.offset, w.moved, w.pc.piece);
    }
    PutKeeps(t, k, main, i, Moved(w), false, false);
  }

  /** A write that fails after `n` of its bytes have landed; or a panic. */
  function Faulty(w: Writer, n: int, panics: bool): Writer {
    w.(pc := if panics then Ended(Panicked) else Recording, landed := w.landed + n)
  }

  lemma FaultStepOk(t: Threads, k: Task, main: Data, i: nat, n: nat, panics: bool)
    requires ThreadsOk(t, k, main) && i < |t.writers| && !t.writers[i].pc.Ended?
    requires t.writers[i].pc.Writing? || panics
    ensures var w := t.writers[i];
      ThreadsOk(Put(t, i, Faulty(w, n, panics), false, false), k, main) && Rank(Faulty(w, n, panics)) < Rank(w)
  {
    var w := t.writers[i];
    assert OneOk(w, k.plan[i], main, k, t.slot, t.stop);
    PutKeeps(t, k, main, i, Faulty(w, n, panics), false, false);
  }

  /** Nothing but the claims about the bytes depends on the source's version. */
  lemma StillOk(t: Threads, k: Task, main: Data, now: Task)
    requires ThreadsOk(t, k, main) && now == k.(clean := now.clean) && (now.clean ==> k.clean)
    ensures ThreadsOk(t, now, main)
  {
    forall i | 0 <= i < |t.writers| ensures OneOk(t.writers[i], now.plan[i], main, now, t.slot, t.stop) {
      assert OneOk(t.writers[i], k.plan[i], main, k, t.slot, t.stop);
    }
  }

  // ---- the coordinator's steps

  /** The steps that take no I/O; joining a panicked writer records an error. */
  function CoordinatorStep(t: Threads): Threads
    requires !t.coordinator.Hashing? && !t.coordinator.Joined?
    requires t.coordinator.Joining? ==> 0 <= t.coordinator.index <= |t.writers|
    requires t.coordinator.Joining? && t.coordinator.index < |t.writers| ==> t.writers[t.coordinator.index].pc.Ended?
  {
    match t.coordinator
    case HashRecording => t.(slot := true, coordinator := HashTripping)
    case HashTripping => t.(stop := true, coordinator := Joining(0))
    case JoinRecording(n) => t.(slot := true, coordinator := JoinTripping(n))
    case JoinTripping(n) => t.(stop := true, coordinator := Joining(n + 1))
    case Joining(n) =>
      if n == |t.writers| then t.(coordinator := Joined)
      else if t.writers[n].pc.how.Panicked? then t.(coordinator := JoinRecording(n))
      else t.(coordinator := Joining(n + 1))
  }

  lemma FlagsKeepAll(ws: seq<Writer>, main: Data, k: Task, slot: bool, stop: bool, slotNow: bool, stopNow: bool)
    requires WritersOk(ws, main, k, slot, stop) && (slot ==> slotNow) && (stop ==> stopNow)
    ensures WritersOk(ws, main, k, slotNow, stopNow)
  {
    forall j | 0 <= j < |ws| ensures OneOk(ws[j], k.plan[j], main, k, slotNow, stopNow) {
      FlagsKeep(ws[j], k.plan[j], main, k, slot, stop, slotNow, stopNow);
    }
  }

  lemma CoordinatorStepOk(t: Threads, k: Task, main: Data)
    requires ThreadsOk(t, k, main) && !t.coordinator.Hashing? && !t.coordinator.Joined?
    requires t.coordinator.Joining? && t.coordinator.index < |t.writers| ==> t.writers[t.coordinator.index].pc.Ended?
    ensures ThreadsOk(CoordinatorStep(t), k, main)
    ensures CoordinatorRank(CoordinatorStep(t).coordinator, |k.plan|, |k.content|)
          < CoordinatorRank(t.coordinator, |k.plan|, |k.content|)
  {
    var now := CoordinatorStep(t);
    FlagsKeepAll(t.writers, main, k, t.slot, t.stop, now.slot, now.stop);
    JoinsStep(t);
  }

  lemma JoinsStep(t: Threads)
    requires JoinsOk(t.coordinator, t.writers, t.slot) && !t.coordinator.Hashing? && !t.coordinator.Joined?
    requires t.coordinator.Joining? && t.coordinator.index < |t.writers| ==> t.writers[t.coordinator.index].pc.Ended?
    ensures var now := CoordinatorStep(t); JoinsOk(now.coordinator, now.writers, now.slot)
  {
  }

  /** Hashing goes on, ends, or fails. */
  lemma HashStepOk(t: Threads, k: Task, main: Data, piece: Data)
    requires ThreadsOk(t, k, main) && t.coordinator.Hashing?
    requires var p := t.coordinator.position;
      p + |piece| <= |k.content| && (k.clean ==> piece == k.content[p..p + |piece|])
    ensures piece != [] ==>
              ThreadsOk(t.(hashed := t.hashed + piece,
                           coordinator := Hashing(t.coordinator.position + |piece|)), k, main)
    ensures t.stop || t.coordinator.position == |k.content| ==> ThreadsOk(t.(coordinator := Joining(0)), k, main)
    ensures ThreadsOk(t.(coordinator := HashRecording), k, main)
  {
    var p := t.coordinator.position;
    if k.clean {
      assert k.content[..p + |piece|] == k.content[..p] + piece;
      assert k.content[..|k.content|] == k.content;
    }
  }
}
