/**
  The read / hash / write pipeline that moves one stream segment: a reader
  thread, an optional hash thread and the calling writer thread pass `depth`
  recycled buffers through bounded channels, under cancellation.

  The protocol is a transition system. Every shared access that another thread
  can get between is a step of its own; in particular a timed receive or send
  that times out and the test of the `stopped` flag that follows it are two
  steps, and the reader's final `Done` is a plain blocking send.
*/
module Pipeline {
  import opened Bytes

  const PIPELINE_BUFFERS: nat := 2
  const LOCAL_PIPELINE_BUFFERS: nat := 3

  /** One call: the bytes the source can deliver, how many are wanted, and the
      sizes after clamping. */
  datatype Config = Config(source: seq<Byte>, length: nat, requestBytes: nat, depth: nat) {
    predicate Valid() {
      1 <= requestBytes && PIPELINE_BUFFERS <= depth <= LOCAL_PIPELINE_BUFFERS
    }

    /** At local depth a dedicated thread runs the digest. */
    predicate Staged() { LOCAL_PIPELINE_BUFFERS <= depth }
  }

  datatype Packet = Data(bytes: seq<Byte>) | Failed | UnexpectedEof | Done

  datatype Fault = Canceled | ReadError | WriteError | Eof | ReaderPanicked

  datatype Outcome = Success | Failure(fault: Fault)

  datatype ReaderPc =
    | RHead                            // loop test: bytes left and not stopped
    | RPoll                            // cancellation poll
    | RAwait                           // timed receive of a free buffer
    | RTimedOut                        // that receive timed out
    | RRead                            // holds a buffer, issues the read
    | RSend(packet: Packet)            // timed send to the next stage
    | RSendTimedOut(packet: Packet)
    | RLast                            // loop left, last test of `stopped`
    | RSendDone                        // blocking send of `Done`
    | RExited

  datatype HasherPc =
    | HAbsent                          // two-buffer transports have no hash stage
    | HAwait
    | HTimedOut
    | HConsume(packet: Packet)
    | HSend(packet: Packet)
    | HSendTimedOut(packet: Packet)
    | HExited(waiting: nat)            // packets it left behind in its input

  datatype WriterPc =
    | WHead
    | WAwait
    | WTimedOut
    | WWrite                           // part of a packet still to be written
    | WGive                            // packet written, buffer to be returned
    | WStop(outcome: Outcome)          // loop left, `stopped` not yet set
    | WJoinReader(outcome: Outcome)
    | WJoinHasher(outcome: Outcome)
    | WFinished(outcome: Outcome)

  // `lost` and `spent` record what a stage dropped when it left: the bytes of
  // an undelivered packet, and how many buffers went with it.

  /** `sawCancel`: the reader left because its own poll saw the cancellation. */
  datatype Reader = Reader(pc: ReaderPc, remaining: nat, bytesRead: nat,
                           sawCancel: bool, lost: seq<Byte>, spent: nat)

  datatype Hasher = Hasher(pc: HasherPc, lost: seq<Byte>, spent: nat)

  /** `dest` is what has been written; `rest` was received but not yet written. */
  datatype Writer = Writer(pc: WriterPc, dest: seq<Byte>, rest: seq<Byte>, spent: nat)

  /** `consumed` is everything handed to the digest, in order. */
  datatype State = State(
    free: nat, filled: seq<Packet>, hashed: seq<Packet>,
    reader: Reader, hasher: Hasher, writer: Writer,
    consumed: seq<Byte>, stopped: bool, canceled: bool)

  datatype ReaderStep =
    | TestLoop | Poll | TakeBuffer | WaitTimeout | WaitTest
    | ReadBytes(count: nat) | ReadEnd | ReadFails | ReadInterrupted
    | Send | SendTimeout | SendTest | LastTest | SendDone

  datatype HasherStep =
    | HashTake | HashWaitTimeout | HashWaitTest | HashSeesEnd | HashConsume
    | HashSend | HashSendTimeout | HashSendTest

  datatype WriterStep =
    | WriteTestLoop | WriteTake | WriteWaitTimeout | WriteWaitTest | WriteSeesEnd
    | WriteBytes(count: nat) | WriteFails | WriteInterrupted | WritePoll
    | ReturnBuffer | SetStopped | JoinReader | JoinHasher

  datatype Step = Cancel | R(r: ReaderStep) | H(h: HasherStep) | W(w: WriterStep)

  /** The clamping done on entry. */
  function Configure(source: seq<Byte>, length: nat, requestBytes: nat, depth: nat): (c: Config)
    ensures c.Valid()
    ensures c.Staged() <==> depth >= LOCAL_PIPELINE_BUFFERS
  {
    Config(source, length, if requestBytes == 0 then 1 else requestBytes,
           if depth < PIPELINE_BUFFERS then PIPELINE_BUFFERS
           else if depth > LOCAL_PIPELINE_BUFFERS then LOCAL_PIPELINE_BUFFERS
           else depth)
  }

  function Init(c: Config): State {
    State(c.depth, [], [],
          Reader(RHead, c.length, 0, false, [], 0),
          Hasher(if c.Staged() then HAwait else HAbsent, [], 0),
          Writer(WHead, [], [], 0),
          [], false, false)
  }

  function DataBytes(p: Packet): seq<Byte> { if p.Data? then p.bytes else [] }

  function BufferCount(p: Packet): nat { if p.Data? then 1 else 0 }

  // ---- the reader thread

  predicate ReaderEnabled(c: Config, s: State, step: ReaderStep) {
    var pc := s.reader.pc;
    match step
    case TestLoop => pc.RHead?
    case Poll => pc.RPoll?
    case TakeBuffer => pc.RAwait? && s.free > 0
    case WaitTimeout => pc.RAwait? && s.free == 0
    case WaitTest => pc.RTimedOut?
    case ReadBytes(n) =>
      pc.RRead? && 1 <= n <= s.reader.remaining && n <= c.requestBytes && s.reader.bytesRead + n <= |c.source|
    case ReadEnd => pc.RRead? && s.reader.bytesRead >= |c.source|
    case ReadFails => pc.RRead?
    case ReadInterrupted => pc.RRead?
    case Send => pc.RSend? && |s.filled| < c.depth
    case SendTimeout => pc.RSend? && |s.filled| >= c.depth
    case SendTest => pc.RSendTimedOut?
    case LastTest => pc.RLast?
    case SendDone => pc.RSendDone? && |s.filled| < c.depth
  }

  function ReaderApply(c: Config, s: State, step: ReaderStep): State
    requires ReaderEnabled(c, s, step)
  {
    var r := s.reader;
    match step
    case TestLoop => s.(reader := r.(pc := if r.remaining > 0 && !s.stopped then RPoll else RLast))
    case Poll =>
      if s.canceled then s.(reader := r.(pc := RLast, sawCancel := true), stopped := true)
      else s.(reader := r.(pc := RAwait))
    case TakeBuffer => s.(reader := r.(pc := RRead), free := s.free - 1)
    case WaitTimeout => s.(reader := r.(pc := RTimedOut))
    case WaitTest => s.(reader := r.(pc := if s.stopped then RExited else RAwait))
    case ReadBytes(n) =>
      var chunk := c.source[r.bytesRead..r.bytesRead + n];
      s.(reader := r.(pc := RSend(Data(chunk)), bytesRead := r.bytesRead + n, remaining := r.remaining - n),
         consumed := if c.Staged() then s.consumed else s.consumed + chunk)
    case ReadEnd => s.(reader := r.(pc := RSend(UnexpectedEof), spent := r.spent + 1))
    case ReadFails => s.(reader := r.(pc := RSend(Failed), spent := r.spent + 1))
    case ReadInterrupted =>
      if s.canceled || s.stopped then
        s.(reader := r.(pc := RExited, spent := r.spent + 1, sawCancel := r.sawCancel || s.canceled))
      else s
    case Send =>
      s.(reader := r.(pc := if r.pc.packet.Data? then RHead else RExited), filled := s.filled + [r.pc.packet])
    case SendTimeout => s.(reader := r.(pc := RSendTimedOut(r.pc.packet)))
    case SendTest =>
      if s.stopped then
        s.(reader := r.(pc := RExited, lost := DataBytes(r.pc.packet), spent := r.spent + BufferCount(r.pc.packet)))
      else s.(reader := r.(pc := RSend(r.pc.packet)))
    case LastTest => s.(reader := r.(pc := if s.stopped then RExited else RSendDone))
    case SendDone => s.(reader := r.(pc := RExited), filled := s.filled + [Done])
  }

  // ---- the hash thread

  predicate HasherEnabled(c: Config, s: State, step: HasherStep) {
    var pc := s.hasher.pc;
    match step
    case HashTake => pc.HAwait? && s.filled != []
    case HashWaitTimeout => pc.HAwait? && s.filled == []
    case HashWaitTest => pc.HTimedOut?
    case HashSeesEnd => pc.HAwait? && s.filled == [] && s.reader.pc.RExited?
    case HashConsume => pc.HConsume?
    case HashSend => pc.HSend? && |s.hashed| < c.depth
    case HashSendTimeout => pc.HSend? && |s.hashed| >= c.depth
    case HashSendTest => pc.HSendTimedOut?
  }

  function HasherApply(c: Config, s: State, step: HasherStep): State
    requires HasherEnabled(c, s, step)
  {
    var h := s.hasher;
    match step
    case HashTake => s.(hasher := h.(pc := HConsume(s.filled[0])), filled := s.filled[1..])
    case HashWaitTimeout => s.(hasher := h.(pc := HTimedOut))
    case HashWaitTest => s.(hasher := h.(pc := if s.stopped then HExited(|s.filled|) else HAwait))
    case HashSeesEnd => s.(hasher := h.(pc := HExited(0)))
    case HashConsume =>
      s.(hasher := h.(pc := HSend(h.pc.packet)), consumed := s.consumed + DataBytes(h.pc.packet))
    case HashSend =>
      s.(hasher := h.(pc := if h.pc.packet.Data? then HAwait else HExited(|s.filled|)),
         hashed := s.hashed + [h.pc.packet])
    case HashSendTimeout => s.(hasher := h.(pc := HSendTimedOut(h.pc.packet)))
    case HashSendTest =>
      if s.stopped then
        s.(hasher := h.(pc := HExited(|s.filled|), lost := DataBytes(h.pc.packet),
                        spent := h.spent + BufferCount(h.pc.packet)))
      else s.(hasher := h.(pc := HSend(h.pc.packet)))
  }

  // ---- the writer, on the calling thread

  /** The channel the writer receives from. */
  function Inbox(c: Config, s: State): seq<Packet> {
    if c.Staged() then s.hashed else s.filled
  }

  predicate UpstreamGone(c: Config, s: State) {
    if c.Staged() then s.hasher.pc.HExited? else s.reader.pc.RExited?
  }

  predicate WriterEnabled(c: Config, s: State, step: WriterStep) {
    var pc := s.writer.pc;
    match step
    case WriteTestLoop => pc.WHead?
    case WriteTake => pc.WAwait? && Inbox(c, s) != []
    case WriteWaitTimeout => pc.WAwait? && Inbox(c, s) == []
    case WriteWaitTest => pc.WTimedOut?
    case WriteSeesEnd => pc.WAwait? && Inbox(c, s) == [] && UpstreamGone(c, s)
    case WriteBytes(n) => pc.WWrite? && !s.canceled && 1 <= n <= |s.writer.rest|
    case WriteFails => pc.WWrite? && !s.canceled
    case WriteInterrupted => pc.WWrite? && !s.canceled
    case WritePoll => pc.WWrite? && s.canceled
    case ReturnBuffer => pc.WGive? && s.free < c.depth
    case SetStopped => pc.WStop?
    case JoinReader => pc.WJoinReader? && s.reader.pc.RExited?
    case JoinHasher => pc.WJoinHasher? && (s.hasher.pc.HExited? || s.hasher.pc.HAbsent?)
  }

  function Receive(c: Config, w: Writer, p: Packet): Writer {
    match p
    case Data(bytes) => w.(pc := WWrite, rest := bytes)
    case Failed => w.(pc := WStop(Failure(ReadError)))
    case UnexpectedEof => w.(pc := WStop(Failure(Eof)))
    case Done => w.(pc := WStop(if |w.dest| != c.length then Failure(Eof) else Success))
  }

  function WriterApply(c: Config, s: State, step: WriterStep): State
    requires WriterEnabled(c, s, step)
  {
    var w := s.writer;
    match step
    case WriteTestLoop =>
      s.(writer := w.(pc := if |w.dest| >= c.length then WStop(Success)
                            else if s.canceled then WStop(Failure(Canceled)) else WAwait))
    case WriteTake =>
      if c.Staged() then s.(writer := Receive(c, w, s.hashed[0]), hashed := s.hashed[1..])
      else s.(writer := Receive(c, w, s.filled[0]), filled := s.filled[1..])
    case WriteWaitTimeout => s.(writer := w.(pc := WTimedOut))
    case WriteWaitTest => s.(writer := w.(pc := if s.canceled then WStop(Failure(Canceled)) else WAwait))
    case WriteSeesEnd => s.(writer := w.(pc := WStop(Failure(ReaderPanicked))))
    case WriteBytes(n) =>
      s.(writer := w.(pc := if n == |w.rest| then WGive else WWrite,
                      dest := w.dest + w.rest[..n], rest := w.rest[n..]))
    case WriteFails => s.(writer := w.(pc := WStop(Failure(WriteError)), spent := w.spent + 1))
    case WriteInterrupted => s
    case WritePoll => s.(writer := w.(pc := WStop(Failure(Canceled)), spent := w.spent + 1))
    case ReturnBuffer => s.(writer := w.(pc := WHead), free := s.free + 1)
    case SetStopped => s.(writer := w.(pc := WJoinReader(w.pc.outcome)), stopped := true)
    case JoinReader => s.(writer := w.(pc := WJoinHasher(w.pc.outcome)))
    case JoinHasher => s.(writer := w.(pc := WFinished(w.pc.outcome)))
  }

  // ---- runs

  predicate Enabled(c: Config, s: State, step: Step) {
    match step
    case Cancel => !s.canceled
    case R(r) => ReaderEnabled(c, s, r)
    case H(h) => HasherEnabled(c, s, h)
    case W(w) => WriterEnabled(c, s, w)
  }

  function Apply(c: Config, s: State, step: Step): State
    requires Enabled(c, s, step)
  {
    match step
    case Cancel => s.(canceled := true)
    case R(r) => ReaderApply(c, s, r)
    case H(h) => HasherApply(c, s, h)
    case W(w) => WriterApply(c, s, w)
  }

  /** The state after a schedule, when every step of it could be taken. */
  function Run(c: Config, steps: seq<Step>): Option<State> {
    if steps == [] then Some(Init(c))
    else
      var last := |steps| - 1;
      match Run(c, steps[..last])
      case None => None
      case Some(s) => if Enabled(c, s, steps[last]) then Some(Apply(c, s, steps[last])) else None
  }

  ghost predicate Reachable(c: Config, s: State) {
    exists steps :: Run(c, steps) == Some(s)
  }

  lemma ReachableInit(c: Config)
    ensures Reachable(c, Init(c))
  {
    assert Run(c, []) == Some(Init(c));
  }

  lemma ReachableStep(c: Config, s: State, step: Step)
    requires Reachable(c, s) && Enabled(c, s, step)
    ensures Reachable(c, Apply(c, s, step))
  {
    var steps :| Run(c, steps) == Some(s);
    assert (steps + [step])[..|steps|] == steps;
    assert Run(c, steps + [step]) == Some(Apply(c, s, step));
  }
}
