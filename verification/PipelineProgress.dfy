/**
  Progress and shutdown of the pipeline. Every step that is not an idle
  time-out or an interrupted call lowers one measure, and until the writer has
  finished some such step is possible, with a single exception: the state in
  which the reader is blocked in its final `Done` send on a full channel that
  nobody drains any more. That state is characterised exactly.
*/
module PipelineProgress {
  import opened Bytes
  import opened Pipeline
  import opened PipelineSafety

  function ReaderWeight(pc: ReaderPc, stopped: bool): int {
    match pc
    case RHead => 40
    case RPoll => 39
    case RAwait => if stopped then 38 else 36
    case RTimedOut => 37
    case RRead => 35
    case RSend(p) => (if p.Data? then 60 else 20) + (if stopped then 2 else 0)
    case RSendTimedOut(p) => if p.Data? then 61 else 21
    case RLast => 30
    case RSendDone => 20
    case RExited => 0
  }

  function HasherWeight(pc: HasherPc, stopped: bool): int {
    match pc
    case HAbsent => 0
    case HAwait => if stopped then 3 else 1
    case HTimedOut => 2
    case HConsume(_) => 17
    case HSend(_) => if stopped then 16 else 14
    case HSendTimedOut(_) => 15
    case HExited(_) => 0
  }

  function WriterWeight(pc: WriterPc, canceled: bool): int {
    match pc
    case WHead => 15
    case WAwait => if canceled then 14 else 12
    case WTimedOut => 13
    case WWrite => 23
    case WGive => 20
    case WStop(_) => 10
    case WJoinReader(_) => 8
    case WJoinHasher(_) => 6
    case WFinished(_) => 0
  }

  /** Work left before the pipeline has finished. */
  function Measure(c: Config, s: State): int {
    30 * s.reader.remaining + ReaderWeight(s.reader.pc, s.stopped)
    + 17 * |s.filled| + HasherWeight(s.hasher.pc, s.stopped)
    + 12 * |s.hashed| + WriterWeight(s.writer.pc, s.canceled)
    + (c.length - |s.writer.dest|) + (if s.stopped then 0 else 10) + (if s.canceled then 0 else 5)
  }

  /** Waiting that has to be repeated: a time-out while the flag tested after
      it is clear, or an interrupted call. */
  predicate Idle(s: State, step: Step) {
    || (step.R? && (step.r.WaitTimeout? || step.r.SendTimeout?) && !s.stopped)
    || (step.R? && step.r.ReadInterrupted? && !s.stopped && !s.canceled)
    || (step.H? && (step.h.HashWaitTimeout? || step.h.HashSendTimeout?) && !s.stopped)
    || (step.W? && step.w.WriteWaitTimeout? && !s.canceled)
    || (step.W? && step.w.WriteInterrupted?)
  }

  /** A step the threads take on their own: no idle wait, no cancellation, no failing call. */
  predicate Productive(c: Config, s: State, step: Step) {
    Enabled(c, s, step) && step != Cancel && !Idle(s, step) && !IsFault(step)
  }

  predicate IsFault(step: Step) {
    (step.R? && step.r.ReadFails?) || (step.W? && step.w.WriteFails?)
  }

  lemma MeasureNonNegative(c: Config, s: State)
    requires Flow(c, s)
    ensures 0 <= Measure(c, s)
  {
    Prefixes(c, s);
  }

  lemma ReaderStepMeasure(c: Config, s: State, step: ReaderStep)
    requires ReaderShape(c, s.reader, s.stopped) && ReaderEnabled(c, s, step)
    ensures var d := Measure(c, ReaderApply(c, s, step)) - Measure(c, s);
      if Idle(s, R(step)) then d <= 1 else d < 0
  {
  }

  lemma HasherStepMeasure(c: Config, s: State, step: HasherStep)
    requires HasherShape(c, s.hasher, s.stopped) && HasherEnabled(c, s, step)
    ensures var d := Measure(c, HasherApply(c, s, step)) - Measure(c, s);
      if Idle(s, H(step)) then d <= 1 else d < 0
  {
  }

  lemma WriterStepMeasure(c: Config, s: State, step: WriterStep)
    requires WriterEnabled(c, s, step)
    ensures var d := Measure(c, WriterApply(c, s, step)) - Measure(c, s);
      if Idle(s, W(step)) then d <= 1 else d < 0
  {
  }

  /** Every step except idle waiting brings the pipeline closer to its end,
      and one idle wait is undone by the retry that follows it. */
  lemma StepMeasure(c: Config, s: State, step: Step)
    requires c.Valid() && Reachable(c, s) && Enabled(c, s, step)
    ensures 0 <= Measure(c, Apply(c, s, step))
    ensures !Idle(s, step) ==> Measure(c, Apply(c, s, step)) < Measure(c, s)
    ensures Idle(s, step) ==> Measure(c, Apply(c, s, step)) <= Measure(c, s) + 1
  {
    ReachableKeeps(c, s);
    StepKeeps(c, s, step);
    MeasureNonNegative(c, Apply(c, s, step));
    match step {
      case Cancel =>
      case R(r) => ReaderStepMeasure(c, s, r);
      case H(h) => HasherStepMeasure(c, s, h);
      case W(w) => WriterStepMeasure(c, s, w);
    }
  }

  // ---- the blocked state

  /** The writer waits for a reader that waits for room nobody will make. */
  predicate Hung(c: Config, s: State) {
    && s.writer.pc.WJoinReader? && s.reader.pc.RSendDone? && |s.filled| == c.depth
    && (s.hasher.pc.HAbsent? || s.hasher.pc.HExited?)
  }

  /** A hung pipeline stays hung: no thread has a step left. */
  lemma HungForever(c: Config, s: State, step: Step)
    requires Hung(c, s) && Enabled(c, s, step)
    ensures step == Cancel && Hung(c, Apply(c, s, step))
  {
  }

  /** Some free buffer exists whenever nothing is under way and the reader still wants one. */
  lemma FreeBuffer(c: Config, s: State)
    requires Inv(c, s) && s.reader.pc.RAwait? && s.filled == [] && s.hashed == []
    requires WriterActive(s.writer.pc) && WriterBuffers(s.writer.pc) == 0
    requires !HasherHolding(s.hasher.pc) && s.hasher.spent == 0
    ensures s.free > 0
  {
  }

  /** A step for the reader, when it has one that is not idle. */
  function ReaderMove(c: Config, s: State): ReaderStep {
    match s.reader.pc
    case RHead => TestLoop
    case RPoll => Poll
    case RAwait => if s.free > 0 then TakeBuffer else WaitTimeout
    case RTimedOut => WaitTest
    case RRead => if s.reader.bytesRead < |c.source| then ReadBytes(1) else ReadEnd
    case RSend(_) => if |s.filled| < c.depth then Send else SendTimeout
    case RSendTimedOut(_) => SendTest
    case RLast => LastTest
    case _ => SendDone
  }

  function HasherMove(c: Config, s: State): HasherStep {
    match s.hasher.pc
    case HAwait =>
      if s.filled != [] then HashTake else if s.reader.pc.RExited? then HashSeesEnd else HashWaitTimeout
    case HTimedOut => HashWaitTest
    case HConsume(_) => HashConsume
    case HSend(_) => if |s.hashed| < c.depth then HashSend else HashSendTimeout
    case _ => HashSendTest
  }

  function WriterMove(c: Config, s: State): WriterStep {
    match s.writer.pc
    case WHead => WriteTestLoop
    case WAwait =>
      if Inbox(c, s) != [] then WriteTake else if UpstreamGone(c, s) then WriteSeesEnd else WriteWaitTimeout
    case WTimedOut => WriteWaitTest
    case WWrite => if s.canceled then WritePoll else WriteBytes(1)
    case WGive => ReturnBuffer
    case WStop(_) => SetStopped
    case WJoinReader(_) => JoinReader
    case _ => JoinHasher
  }

  /** While the writer waits for a packet, somebody upstream can move. */
  lemma UpstreamMoves(c: Config, s: State)
    requires Inv(c, s) && s.writer.pc.WAwait? && Inbox(c, s) == [] && !UpstreamGone(c, s)
    ensures Productive(c, s, R(ReaderMove(c, s))) || Productive(c, s, H(HasherMove(c, s)))
  {
    if c.Staged() && s.filled == [] && s.hasher.pc.HAwait? && !s.reader.pc.RExited? && s.reader.pc.RAwait? {
      FreeBuffer(c, s);
    } else if !c.Staged() && s.reader.pc.RAwait? {
      FreeBuffer(c, s);
    }
  }

  /** After the writer has left its loop the stages drain, unless hung. */
  lemma StagesDrain(c: Config, s: State)
    requires ReaderShape(c, s.reader, s.stopped) && HasherShape(c, s.hasher, s.stopped) && TerminalShape(c, s)
    requires c.Valid() && s.reader.bytesRead <= |c.source| && s.stopped && !Hung(c, s)
    requires s.writer.pc.WJoinReader? || s.writer.pc.WJoinHasher?
    ensures Productive(c, s, R(ReaderMove(c, s))) || Productive(c, s, H(HasherMove(c, s)))
            || Productive(c, s, W(WriterMove(c, s)))
  {
  }

  /** Main result: no reachable state is stuck, except the hung one. */
  lemma NoStuckState(c: Config, s: State)
    requires c.Valid() && Reachable(c, s) && !s.writer.pc.WFinished?
    ensures Hung(c, s) <==> !exists step :: Productive(c, s, step)
  {
    ReachableKeeps(c, s);
    if Hung(c, s) {
      forall step ensures !Productive(c, s, step) {
        if Enabled(c, s, step) {
          HungForever(c, s, step);
        }
      }
    } else {
      if s.writer.pc.WAwait? && Inbox(c, s) == [] && !UpstreamGone(c, s) {
        UpstreamMoves(c, s);
      } else if s.writer.pc.WJoinReader? || s.writer.pc.WJoinHasher? {
        assert s.stopped;
        StagesDrain(c, s);
      } else {
        WriterMoves(c, s);
      }
      assert exists step :: Productive(c, s, step);
    }
  }

  lemma WriterMoves(c: Config, s: State)
    requires WriterShape(c, s.writer, s.stopped) && Conserved(c, s)
    requires !s.writer.pc.WFinished? && !s.writer.pc.WJoinReader? && !s.writer.pc.WJoinHasher?
    requires s.writer.pc.WAwait? ==> Inbox(c, s) != [] || UpstreamGone(c, s)
    ensures Productive(c, s, W(WriterMove(c, s)))
  {
  }

  // ---- when the blocked state can arise

  /** The hash thread leaves early only after a stop, and the packets it then
      leaves behind are still queued while the reader waits to send `Done`. */
  predicate ExitRecord(s: State) {
    s.hasher.pc.HExited? ==>
      && (s.stopped || s.reader.pc.RExited?)
      && (s.reader.pc.RSendDone? ==> s.hasher.pc.waiting == |s.filled|)
  }

  lemma ExitRecordStep(c: Config, s: State, step: Step)
    requires TerminalShape(c, s) && HasherShape(c, s.hasher, s.stopped) && ExitRecord(s)
    requires Enabled(c, s, step)
    ensures ExitRecord(Apply(c, s, step))
  {
    match step {
      case Cancel =>
      case R(r) => assert Apply(c, s, step) == ReaderApply(c, s, r);
      case H(h) => assert Apply(c, s, step) == HasherApply(c, s, h);
      case W(w) => assert Apply(c, s, step) == WriterApply(c, s, w);
    }
  }

  lemma {:induction false} ExitRecordRun(c: Config, steps: seq<Step>)
    requires c.Valid() && Run(c, steps).Some?
    ensures ExitRecord(Run(c, steps).value)
  {
    if steps == [] {
    } else {
      var last := |steps| - 1;
      RunKeeps(c, steps[..last]);
      ExitRecordRun(c, steps[..last]);
      ExitRecordStep(c, Run(c, steps[..last]).value, steps[last]);
    }
  }

  lemma {:induction false} AllData(c: Config, q: seq<Packet>)
    requires QueueOk(c, q) && !EndsTerminal(q)
    ensures Buffers(q) == |q|
  {
    if q == [] {
    } else {
      AllData(c, q[1..]);
    }
  }

  /** Exactly what a hung pipeline looks like: every buffer is queued before a
      stage that has left, and it is a cancellation that made the writer leave. */
  lemma HungCharacterised(c: Config, s: State)
    requires c.Valid() && Reachable(c, s) && Hung(c, s)
    ensures s.canceled && s.writer.pc.outcome == Failure(Canceled)
    ensures Buffers(s.filled) == c.depth && s.free == 0
    ensures c.Staged() ==> s.hasher.pc.HExited? && s.hasher.pc.waiting == c.depth
    ensures c.depth <= c.length <= |c.source|
  {
    ReachableKeeps(c, s);
    var steps :| Run(c, steps) == Some(s);
    ExitRecordRun(c, steps);
    AllData(c, s.filled);
    FlatBound(c, s.filled);
    Prefixes(c, s);
    QueuedBytesUnwritten(c, s);
  }

  lemma QueuedBytesUnwritten(c: Config, s: State)
    requires Flow(c, s) && HasherShape(c, s.hasher, s.stopped)
    ensures |s.writer.dest| + |Flat(s.filled)| <= s.reader.bytesRead
  {
    if c.Staged() {
      assert |s.consumed + (HasherTaken(s.hasher.pc) + Upstream(s))| == s.reader.bytesRead;
    } else {
      assert |s.writer.dest + (s.writer.rest + Upstream(s))| == |s.consumed|;
    }
  }

  /** Everything idle, `k` bytes through. */
  function Between(c: Config, k: nat): State
    requires k <= c.length <= |c.source|
  {
    var i := Init(c);
    i.(reader := i.reader.(remaining := c.length - k, bytesRead := k),
       writer := i.writer.(dest := c.source[..k]), consumed := c.source[..k])
  }

  /** The reader takes a buffer, reads one byte and queues it. */
  lemma ReaderQueuesOne(c: Config, s: State) returns (t: State)
    requires c.Valid() && Reachable(c, s) && s.reader.pc.RHead? && !s.stopped && !s.canceled
    requires s.reader.remaining > 0 && s.free > 0 && |s.filled| < c.depth && s.reader.bytesRead < |c.source|
    ensures Reachable(c, t)
    ensures var chunk := c.source[s.reader.bytesRead..s.reader.bytesRead + 1];
      t == s.(reader := s.reader.(remaining := s.reader.remaining - 1, bytesRead := s.reader.bytesRead + 1),
              free := s.free - 1, filled := s.filled + [Data(chunk)],
              consumed := if c.Staged() then s.consumed else s.consumed + chunk)
  {
    t := s;
    ReachableStep(c, t, R(TestLoop));
    t := Apply(c, t, R(TestLoop));
    ReachableStep(c, t, R(Poll));
    t := Apply(c, t, R(Poll));
    ReachableStep(c, t, R(TakeBuffer));
    t := Apply(c, t, R(TakeBuffer));
    ReachableStep(c, t, R(ReadBytes(1)));
    t := Apply(c, t, R(ReadBytes(1)));
    ReachableStep(c, t, R(Send));
    t := Apply(c, t, R(Send));
  }

  /** The hash stage passes the only queued packet on. */
  lemma HasherPassesOne(c: Config, s: State) returns (t: State)
    requires c.Valid() && Reachable(c, s) && s.hasher.pc.HAwait? && |s.filled| == 1 && s.hashed == []
    requires s.filled[0].Data?
    ensures Reachable(c, t)
    ensures t == s.(filled := [], hashed := s.filled, consumed := s.consumed + s.filled[0].bytes)
  {
    t := s;
    ReachableStep(c, t, H(HashTake));
    t := Apply(c, t, H(HashTake));
    ReachableStep(c, t, H(HashConsume));
    t := Apply(c, t, H(HashConsume));
    ReachableStep(c, t, H(HashSend));
    t := Apply(c, t, H(HashSend));
  }

  /** The writer receives and writes the only packet in its inbox. */
  lemma WriterWritesOne(c: Config, s: State, chunk: seq<Byte>) returns (t: State)
    requires c.Valid() && Reachable(c, s) && s.writer.pc.WHead? && !s.canceled && |s.writer.dest| < c.length
    requires Inbox(c, s) == [Data(chunk)] && |chunk| == 1 && s.writer.rest == [] && s.free < c.depth
    ensures Reachable(c, t)
    ensures t.reader == s.reader && t.hasher == s.hasher && t.consumed == s.consumed
    ensures t.stopped == s.stopped && t.canceled == s.canceled && t.free == s.free + 1
    ensures t.writer == s.writer.(dest := s.writer.dest + chunk)
    ensures t.filled == (if c.Staged() then s.filled else []) && t.hashed == (if c.Staged() then [] else s.hashed)
  {
    t := s;
    ReachableStep(c, t, W(WriteTestLoop));
    t := Apply(c, t, W(WriteTestLoop));
    ReachableStep(c, t, W(WriteTake));
    t := Apply(c, t, W(WriteTake));
    ReachableStep(c, t, W(WriteBytes(1)));
    t := Apply(c, t, W(WriteBytes(1)));
    ReachableStep(c, t, W(ReturnBuffer));
    t := Apply(c, t, W(ReturnBuffer));
  }

  /** One byte goes all the way through. */
  lemma OneByteThrough(c: Config, s: State, k: nat) returns (t: State)
    requires c.Valid() && k < c.length <= |c.source| && s == Between(c, k) && Reachable(c, s)
    ensures t == Between(c, k + 1) && Reachable(c, t)
  {
    var chunk := c.source[k..k + 1];
    assert c.source[..k] + chunk == c.source[..k + 1];
    t := ReaderQueuesOne(c, s);
    assert t.filled == [Data(chunk)];
    if c.Staged() {
      t := HasherPassesOne(c, t);
    }
    t := WriterWritesOne(c, t, chunk);
  }

  lemma {:induction false} BetweenReachable(c: Config, k: nat)
    requires c.Valid() && k <= c.length <= |c.source|
    ensures Reachable(c, Between(c, k))
  {
    if k == 0 {
      ReachableInit(c);
      assert Between(c, 0) == Init(c);
    } else {
      BetweenReachable(c, k - 1);
      var t := OneByteThrough(c, Between(c, k - 1), k - 1);
    }
  }

  /** The reader queues all `n` remaining bytes while nobody receives. */
  lemma {:induction false} ReaderQueuesAll(c: Config, s: State, n: nat) returns (t: State)
    requires c.Valid() && Reachable(c, s) && s.reader.pc.RHead? && !s.stopped && !s.canceled
    requires s.reader.remaining == n == s.free && |s.filled| + n == c.depth
    requires s.reader.bytesRead + n <= |c.source|
    ensures Reachable(c, t)
    ensures t.reader.pc.RHead? && t.reader.remaining == 0 && |t.filled| == c.depth
    ensures !t.stopped && !t.canceled && t.writer == s.writer && t.hasher == s.hasher
    decreases n
  {
    t := s;
    if n > 0 {
      t := ReaderQueuesOne(c, s);
      t := ReaderQueuesAll(c, t, n - 1);
    }
  }

  /** A schedule that ends in the hung state. */
  lemma HangSchedule(c: Config) returns (t: State)
    requires c.Valid() && c.depth <= c.length <= |c.source|
    ensures Reachable(c, t) && Hung(c, t)
  {
    BetweenReachable(c, c.length - c.depth);
    t := Between(c, c.length - c.depth);
    if c.Staged() {
      ReachableStep(c, t, H(HashWaitTimeout));
      t := Apply(c, t, H(HashWaitTimeout));
    }
    t := ReaderQueuesAll(c, t, c.depth);
    t := WriterLeaves(c, t);
  }

  /** Everything is queued; the writer sees a cancellation and leaves. */
  lemma WriterLeaves(c: Config, s: State) returns (t: State)
    requires c.Valid() && Reachable(c, s) && s.reader.pc.RHead? && s.reader.remaining == 0 && |s.filled| == c.depth
    requires !s.stopped && !s.canceled && s.writer.pc.WHead? && |s.writer.dest| < c.length
    requires if c.Staged() then s.hasher.pc.HTimedOut? else s.hasher.pc.HAbsent?
    ensures Reachable(c, t) && Hung(c, t)
  {
    ReachableStep(c, s, R(TestLoop));
    t := Apply(c, s, R(TestLoop));
    ReachableStep(c, t, R(LastTest));
    t := Apply(c, t, R(LastTest));
    ReachableStep(c, t, Cancel);
    t := Apply(c, t, Cancel);
    ReachableStep(c, t, W(WriteTestLoop));
    t := Apply(c, t, W(WriteTestLoop));
    ReachableStep(c, t, W(SetStopped));
    t := Apply(c, t, W(SetStopped));
    if c.Staged() {
      ReachableStep(c, t, H(HashWaitTest));
      t := Apply(c, t, H(HashWaitTest));
    }
  }

  /** Main result: shutdown can block if and only if the segment is at least
      as many bytes as there are buffers and the source really has them. */
  lemma HangExactly(c: Config)
    requires c.Valid()
    ensures (exists s :: Reachable(c, s) && Hung(c, s)) <==> c.depth <= c.length <= |c.source|
  {
    if c.depth <= c.length <= |c.source| {
      var t := HangSchedule(c);
    }
    forall s | Reachable(c, s) && Hung(c, s)
      ensures c.depth <= c.length <= |c.source|
    {
      HungCharacterised(c, s);
    }
  }

  /** The same for every call, whatever request size and depth are asked for:
      the depth in effect is 2 or 3. */
  lemma HangForEveryCall(source: seq<Byte>, length: nat, requestBytes: nat, depth: nat)
    ensures var c := Configure(source, length, requestBytes, depth);
      && PIPELINE_BUFFERS <= c.depth <= LOCAL_PIPELINE_BUFFERS
      && ((exists s :: Reachable(c, s) && Hung(c, s)) <==> c.depth <= length <= |source|)
  {
    HangExactly(Configure(source, length, requestBytes, depth));
  }

  /** Every call keeps the destination a prefix of the source and reads ahead by
      at most three requests. */
  lemma SafeForEveryCall(source: seq<Byte>, length: nat, requestBytes: nat, depth: nat, s: State)
    requires Reachable(Configure(source, length, requestBytes, depth), s)
    ensures |s.writer.dest| <= s.reader.bytesRead <= |source| && s.writer.dest == source[..|s.writer.dest|]
    ensures s.reader.bytesRead - |s.writer.dest|
         <= LOCAL_PIPELINE_BUFFERS * (if requestBytes == 0 then 1 else requestBytes)
    ensures Left(s.writer.pc) && s.writer.pc.outcome == Success ==>
              length <= |source| && s.writer.dest == source[..length]
  {
    var c := Configure(source, length, requestBytes, depth);
    PipelineSafe(c, s);
    assert c.depth * c.requestBytes <= LOCAL_PIPELINE_BUFFERS * c.requestBytes;
  }

  /** At local depth the hang needs the hash thread to time out on an empty
      queue and to test `stopped` only after all its buffers were queued: a
      hash thread that leaves nothing behind always lets shutdown complete. */
  lemma StagedDrainsWhenHasherLeavesNothing(c: Config, s: State)
    requires c.Valid() && Reachable(c, s) && c.Staged()
    requires s.hasher.pc.HExited? ==> s.hasher.pc.waiting < c.depth
    ensures !Hung(c, s)
  {
    if Hung(c, s) {
      HungCharacterised(c, s);
    }
  }

  // ---- cancellation reported as a panic

  lemma PanicSchedule(c: Config) returns (t: State)
    requires c.Valid() && c.length > 0
    ensures Reachable(c, t) && t.writer.pc == WStop(Failure(ReaderPanicked))
  {
    ReachableInit(c);
    t := Init(c);
    ReachableStep(c, t, W(WriteTestLoop));
    t := Apply(c, t, W(WriteTestLoop));
    ReachableStep(c, t, Cancel);
    t := Apply(c, t, Cancel);
    ReachableStep(c, t, R(TestLoop));
    t := Apply(c, t, R(TestLoop));
    ReachableStep(c, t, R(Poll));
    t := Apply(c, t, R(Poll));
    ReachableStep(c, t, R(LastTest));
    t := Apply(c, t, R(LastTest));
    if c.Staged() {
      ReachableStep(c, t, H(HashSeesEnd));
      t := Apply(c, t, H(HashSeesEnd));
    }
    ReachableStep(c, t, W(WriteSeesEnd));
    t := Apply(c, t, W(WriteSeesEnd));
  }

  /** A clean cancellation can be reported as a reader panic for every segment
      that has a byte to copy, and for no other. */
  lemma CancelReportedAsPanicExactly(c: Config)
    requires c.Valid()
    ensures (exists s :: Reachable(c, s) && Left(s.writer.pc) && s.writer.pc.outcome == Failure(ReaderPanicked))
            <==> c.length > 0
  {
    if c.length > 0 {
      var t := PanicSchedule(c);
    }
    forall s | Reachable(c, s) && Left(s.writer.pc) && s.writer.pc.outcome == Failure(ReaderPanicked)
      ensures c.length > 0
    {
      ReachableKeeps(c, s);
    }
  }

  // ---- clean runs

  predicate CleanSchedule(steps: seq<Step>) {
    forall i :: 0 <= i < |steps| ==> steps[i] != Cancel && !IsFault(steps[i])
  }

  predicate NoFault(s: State) {
    && !s.canceled && !UnderWay(s, Failed)
    && (Left(s.writer.pc) ==> s.writer.pc.outcome != Failure(ReadError) && s.writer.pc.outcome != Failure(WriteError))
  }

  lemma NoFaultStep(c: Config, s: State, step: Step)
    requires TerminalShape(c, s) && NoFault(s) && Enabled(c, s, step) && step != Cancel && !IsFault(step)
    ensures NoFault(Apply(c, s, step))
  {
    match step {
      case R(r) => NoFaultReader(c, s, r);
      case H(h) => assert Apply(c, s, step) == HasherApply(c, s, h);
      case W(w) => NoFaultWriter(c, s, w);
    }
  }

  lemma NoFaultReader(c: Config, s: State, step: ReaderStep)
    requires TerminalShape(c, s) && NoFault(s) && ReaderEnabled(c, s, step) && !step.ReadFails?
    ensures NoFault(ReaderApply(c, s, step))
  {
  }

  lemma NoFaultWriter(c: Config, s: State, step: WriterStep)
    requires TerminalShape(c, s) && NoFault(s) && WriterEnabled(c, s, step) && !step.WriteFails?
    ensures NoFault(WriterApply(c, s, step))
  {
    if step.WriteTake? {
      var q := Inbox(c, s);
      assert !q[0].Data? ==> |q| == 1 && EndsWith(q, q[0]);
    }
  }

  lemma {:induction false} NoFaultRun(c: Config, steps: seq<Step>)
    requires c.Valid() && Run(c, steps).Some? && CleanSchedule(steps)
    ensures NoFault(Run(c, steps).value)
  {
    if steps == [] {
    } else {
      var last := |steps| - 1;
      RunKeeps(c, steps[..last]);
      NoFaultRun(c, steps[..last]);
      NoFaultStep(c, Run(c, steps[..last]).value, steps[last]);
    }
  }

  /** Without a cancellation or a failing call, a run over a long enough
      source never blocks, and when it ends it has copied everything. */
  lemma CleanRunSucceeds(c: Config, steps: seq<Step>)
    requires c.Valid() && Run(c, steps).Some? && CleanSchedule(steps) && c.length <= |c.source|
    ensures var s := Run(c, steps).value;
      if s.writer.pc.WFinished? then s.writer.pc.outcome == Success && s.writer.dest == c.source[..c.length]
      else exists step :: Productive(c, s, step)
  {
    var s := Run(c, steps).value;
    assert Reachable(c, s);
    NoFaultRun(c, steps);
    PipelineSafe(c, s);
    if !s.writer.pc.WFinished? {
      NoStuckState(c, s);
      if Hung(c, s) {
        HungCharacterised(c, s);
      }
    }
  }
}
