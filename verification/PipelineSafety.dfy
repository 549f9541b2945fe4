/**
  What every interleaving of the pipeline keeps: order, exactly-once delivery,
  the read-ahead window, conservation of the buffers, and what each outcome
  of the writer means.
*/
module PipelineSafety {
  import opened Bytes
  import opened Pipeline

  /** The data bytes of a queue, oldest first. */
  function Flat(q: seq<Packet>): seq<Byte> {
    if q == [] then [] else DataBytes(q[0]) + Flat(q[1..])
  }

  function Buffers(q: seq<Packet>): nat {
    if q == [] then 0 else BufferCount(q[0]) + Buffers(q[1..])
  }

  /** A buffer is never sent empty and never holds more than one request. */
  predicate PacketOk(c: Config, p: Packet) {
    p.Data? ==> 1 <= |p.bytes| <= c.requestBytes
  }

  /** Data packets first: a terminal packet can only be the last. */
  predicate QueueOk(c: Config, q: seq<Packet>) {
    q != [] ==> PacketOk(c, q[0]) && (|q| > 1 ==> q[0].Data?) && QueueOk(c, q[1..])
  }

  predicate EndsWith(q: seq<Packet>, p: Packet) { q != [] && q[|q| - 1] == p }

  predicate EndsTerminal(q: seq<Packet>) { q != [] && !q[|q| - 1].Data? }

  lemma {:induction false} Enqueue(c: Config, q: seq<Packet>, p: Packet)
    requires QueueOk(c, q) && !EndsTerminal(q) && PacketOk(c, p)
    ensures QueueOk(c, q + [p])
    ensures Flat(q + [p]) == Flat(q) + DataBytes(p)
    ensures Buffers(q + [p]) == Buffers(q) + BufferCount(p)
  {
    if q == [] {
      assert q + [p] == [p];
      assert [p][1..] == [];
    } else {
      Enqueue(c, q[1..], p);
      assert (q + [p])[1..] == q[1..] + [p];
      assert DataBytes(q[0]) + (Flat(q[1..]) + DataBytes(p)) == Flat(q) + DataBytes(p);
    }
  }

  function ReaderHolds(pc: ReaderPc): seq<Byte> {
    if pc.RSend? || pc.RSendTimedOut? then DataBytes(pc.packet) else []
  }

  predicate HasherHolding(pc: HasherPc) { pc.HConsume? || pc.HSend? || pc.HSendTimedOut? }

  function HasherTaken(pc: HasherPc): seq<Byte> {
    if pc.HConsume? then DataBytes(pc.packet) else []
  }

  function HasherDigested(pc: HasherPc): seq<Byte> {
    if pc.HSend? || pc.HSendTimedOut? then DataBytes(pc.packet) else []
  }

  predicate WriterActive(pc: WriterPc) {
    pc.WHead? || pc.WAwait? || pc.WTimedOut? || pc.WWrite? || pc.WGive?
  }

  /** Read and not yet handed on by the reader's side of the pipeline. */
  function Upstream(s: State): seq<Byte> {
    Flat(s.filled) + (ReaderHolds(s.reader.pc) + s.reader.lost)
  }

  function Downstream(s: State): seq<Byte> {
    Flat(s.hashed) + (HasherDigested(s.hasher.pc) + s.hasher.lost)
  }

  /** No byte is lost, duplicated or reordered between the stages. */
  predicate Flow(c: Config, s: State) {
    && s.reader.bytesRead + s.reader.remaining == c.length
    && s.reader.bytesRead <= |c.source|
    && (if c.Staged() then
          && s.consumed + (HasherTaken(s.hasher.pc) + Upstream(s)) == c.source[..s.reader.bytesRead]
          && s.writer.dest + (s.writer.rest + Downstream(s)) == s.consumed
        else
          && s.consumed == c.source[..s.reader.bytesRead]
          && s.writer.dest + (s.writer.rest + Upstream(s)) == s.consumed)
  }

  function ReaderBuffers(pc: ReaderPc): nat {
    if pc.RRead? then 1 else if pc.RSend? || pc.RSendTimedOut? then BufferCount(pc.packet) else 0
  }

  function HasherBuffers(pc: HasherPc): nat { if HasherHolding(pc) then BufferCount(pc.packet) else 0 }

  function WriterBuffers(pc: WriterPc): nat { if pc.WWrite? || pc.WGive? then 1 else 0 }

  /** Every one of the `depth` buffers is in exactly one place. */
  predicate Conserved(c: Config, s: State) {
    s.free + Buffers(s.filled) + Buffers(s.hashed)
      + (ReaderBuffers(s.reader.pc) + s.reader.spent)
      + (HasherBuffers(s.hasher.pc) + s.hasher.spent)
      + (WriterBuffers(s.writer.pc) + s.writer.spent) == c.depth
  }

  predicate ReaderShape(c: Config, r: Reader, stopped: bool) {
    && (r.pc.RSend? || r.pc.RSendTimedOut? ==>
          PacketOk(c, r.pc.packet) && !r.pc.packet.Done? && r.spent == 1 - BufferCount(r.pc.packet))
    && (r.pc.RPoll? || r.pc.RAwait? || r.pc.RTimedOut? || r.pc.RRead? ==> r.remaining > 0)
    && (r.pc.RSendDone? ==> r.remaining == 0 && !r.sawCancel)
    && (!r.pc.RExited? && !r.pc.RSend? && !r.pc.RSendTimedOut? ==> r.spent == 0)
    && (!r.pc.RExited? ==> r.lost == [])
    && (r.pc.RLast? && r.remaining > 0 ==> stopped)
    && (r.sawCancel && !r.pc.RExited? ==> r.pc.RLast? && stopped)
    && r.spent <= 1
    && |r.lost| <= r.spent * c.requestBytes
  }

  predicate HasherShape(c: Config, h: Hasher, stopped: bool) {
    && (c.Staged() <==> !h.pc.HAbsent?)
    && (HasherHolding(h.pc) ==> PacketOk(c, h.pc.packet))
    && (h.spent > 0 ==> h.pc.HExited? && stopped)
    && (h.lost != [] ==> h.pc.HExited?)
    && h.spent <= 1
    && |h.lost| <= h.spent * c.requestBytes
  }

  predicate WriterShape(c: Config, w: Writer, stopped: bool) {
    && (WriterActive(w.pc) ==> w.spent == 0)
    && (w.spent == 1 ==> w.rest != [])
    && w.spent <= 1
    && (w.pc.WWrite? ==> w.rest != [])
    && (w.rest != [] ==> w.pc.WWrite? || w.spent == 1)
    && |w.rest| <= c.requestBytes
    && (w.pc.WAwait? || w.pc.WTimedOut? ==> |w.dest| < c.length)
    && (w.pc.WJoinReader? || w.pc.WJoinHasher? || w.pc.WFinished? ==> stopped)
  }

  /** A terminal packet is the last thing its sender does. */
  predicate TerminalShape(c: Config, s: State) {
    && QueueOk(c, s.filled) && QueueOk(c, s.hashed) && |s.filled| <= c.depth && |s.hashed| <= c.depth
    && (EndsTerminal(s.filled) ==> s.reader.pc.RExited? && s.reader.lost == [])
    && (HasherHolding(s.hasher.pc) && !s.hasher.pc.packet.Data? ==>
          s.reader.pc.RExited? && s.filled == [] && s.reader.lost == [])
    && (EndsTerminal(s.hashed) ==>
          s.hasher.pc.HExited? && s.reader.pc.RExited? && s.filled == [] && s.reader.lost == [] && s.hasher.lost == [])
    && (s.hasher.pc.HAbsent? ==> s.hashed == [])
    && (s.writer.pc.WJoinHasher? || s.writer.pc.WFinished? ==> s.reader.pc.RExited?)
    && (s.writer.pc.WFinished? ==> s.hasher.pc.HExited? || s.hasher.pc.HAbsent?)
  }

  /** A packet that some stage still holds or that is queued last. */
  predicate UnderWay(s: State, p: Packet) {
    || ((s.reader.pc.RSend? || s.reader.pc.RSendTimedOut?) && s.reader.pc.packet == p)
    || EndsWith(s.filled, p)
    || (HasherHolding(s.hasher.pc) && s.hasher.pc.packet == p)
    || EndsWith(s.hashed, p)
  }

  predicate Causes(c: Config, s: State) {
    && (UnderWay(s, Done) ==> s.reader.remaining == 0)
    && (UnderWay(s, UnexpectedEof) ==> s.reader.bytesRead == |c.source| < c.length)
    && (s.reader.sawCancel ==> s.canceled)
    && (WriterActive(s.writer.pc) && s.stopped ==> s.reader.sawCancel)
    && (WriterActive(s.writer.pc) && s.reader.pc.RExited? ==>
          s.reader.sawCancel || EndsTerminal(s.filled) || EndsTerminal(s.hashed)
          || (HasherHolding(s.hasher.pc) && !s.hasher.pc.packet.Data?))
    && (WriterActive(s.writer.pc) && s.hasher.pc.HExited? ==> s.reader.sawCancel || EndsTerminal(s.hashed))
  }

  predicate Left(pc: WriterPc) { pc.WStop? || pc.WJoinReader? || pc.WJoinHasher? || pc.WFinished? }

  /** What the writer's verdict says about the run so far. */
  predicate Verdict(c: Config, s: State) {
    Left(s.writer.pc) ==>
      match s.writer.pc.outcome
      case Success => |s.writer.dest| == c.length
      case Failure(Canceled) => s.canceled && |s.writer.dest| < c.length
      case Failure(ReaderPanicked) => s.reader.sawCancel && |s.writer.dest| < c.length
      case Failure(Eof) => s.reader.bytesRead == |c.source| < c.length && s.reader.pc.RExited?
      case Failure(ReadError) => s.reader.pc.RExited?
      case Failure(WriteError) => s.writer.spent == 1
  }

  predicate Inv(c: Config, s: State) {
    && c.Valid()
    && Flow(c, s)
    && Conserved(c, s)
    && ReaderShape(c, s.reader, s.stopped)
    && HasherShape(c, s.hasher, s.stopped)
    && WriterShape(c, s.writer, s.stopped)
    && TerminalShape(c, s)
    && Causes(c, s)
    && Verdict(c, s)
  }

  lemma InitKeeps(c: Config)
    requires c.Valid()
    ensures Inv(c, Init(c))
  {
  }

  // ---- the reader's steps

  lemma Assoc(a: seq<Byte>, b: seq<Byte>, d: seq<Byte>)
    ensures a + (b + d) == (a + b) + d
  {
  }

  lemma ReadBytesKeepsFlow(c: Config, s: State, n: nat)
    requires Flow(c, s) && ReaderEnabled(c, s, ReadBytes(n)) && s.reader.lost == []
    ensures Flow(c, ReaderApply(c, s, ReadBytes(n)))
  {
    var t := ReaderApply(c, s, ReadBytes(n));
    var chunk := c.source[s.reader.bytesRead..s.reader.bytesRead + n];
    assert c.source[..s.reader.bytesRead] + chunk == c.source[..t.reader.bytesRead];
    assert Upstream(s) == Flat(s.filled);
    assert Upstream(t) == Flat(s.filled) + chunk;
    if c.Staged() {
      AppendLast(s.consumed, HasherTaken(s.hasher.pc), Upstream(s), chunk);
    } else {
      AppendLast(s.writer.dest, s.writer.rest, Upstream(s), chunk);
    }
  }

  lemma AppendLast(a: seq<Byte>, b: seq<Byte>, d: seq<Byte>, chunk: seq<Byte>)
    ensures a + (b + (d + chunk)) == (a + (b + d)) + chunk
  {
  }

  lemma SendKeepsFlow(c: Config, s: State, step: ReaderStep)
    requires Flow(c, s) && TerminalShape(c, s) && ReaderShape(c, s.reader, s.stopped)
    requires ReaderEnabled(c, s, step) && (step.Send? || step.SendDone?)
    ensures Flow(c, ReaderApply(c, s, step))
  {
    SendMovesNothing(c, s, step);
    SameQueues(c, s, ReaderApply(c, s, step));
  }

  lemma SendMovesNothing(c: Config, s: State, step: ReaderStep)
    requires TerminalShape(c, s) && ReaderShape(c, s.reader, s.stopped)
    requires ReaderEnabled(c, s, step) && (step.Send? || step.SendDone?)
    ensures Upstream(ReaderApply(c, s, step)) == Upstream(s)
  {
    var t := ReaderApply(c, s, step);
    var p := if step.Send? then s.reader.pc.packet else Done;
    Enqueue(c, s.filled, p);
    assert Upstream(t) == Flat(s.filled) + DataBytes(p);
    assert Upstream(s) == Flat(s.filled) + DataBytes(p);
  }

  lemma SameQueues(c: Config, s: State, t: State)
    requires Flow(c, s) && Upstream(t) == Upstream(s) && t.hashed == s.hashed && t.hasher == s.hasher
    requires t.writer == s.writer && t.consumed == s.consumed
    requires t.reader.bytesRead == s.reader.bytesRead && t.reader.remaining == s.reader.remaining
    ensures Flow(c, t)
  {
  }

  lemma OtherReaderStepKeepsFlow(c: Config, s: State, step: ReaderStep)
    requires Flow(c, s) && ReaderShape(c, s.reader, s.stopped) && ReaderEnabled(c, s, step)
    requires !step.ReadBytes? && !step.Send? && !step.SendDone?
    ensures Flow(c, ReaderApply(c, s, step))
  {
    var t := ReaderApply(c, s, step);
    assert ReaderHolds(t.reader.pc) + t.reader.lost == ReaderHolds(s.reader.pc) + s.reader.lost;
  }

  lemma ReaderKeepsFlow(c: Config, s: State, step: ReaderStep)
    requires Inv(c, s) && ReaderEnabled(c, s, step)
    ensures Flow(c, ReaderApply(c, s, step))
  {
    if step.ReadBytes? {
      ReadBytesKeepsFlow(c, s, step.count);
    } else if step.Send? || step.SendDone? {
      SendKeepsFlow(c, s, step);
    } else {
      OtherReaderStepKeepsFlow(c, s, step);
    }
  }

  lemma ReaderKeepsConserved(c: Config, s: State, step: ReaderStep)
    requires Conserved(c, s) && ReaderShape(c, s.reader, s.stopped) && TerminalShape(c, s)
    requires ReaderEnabled(c, s, step)
    ensures Conserved(c, ReaderApply(c, s, step))
  {
    if step.Send? {
      Enqueue(c, s.filled, s.reader.pc.packet);
    } else if step.SendDone? {
      Enqueue(c, s.filled, Done);
    }
  }

  lemma ReaderKeepsShape(c: Config, s: State, step: ReaderStep)
    requires c.Valid() && ReaderShape(c, s.reader, s.stopped) && ReaderEnabled(c, s, step)
    requires s.reader.bytesRead + s.reader.remaining == c.length
    ensures var t := ReaderApply(c, s, step); ReaderShape(c, t.reader, t.stopped)
  {
  }

  /** Setting `stopped` never disturbs the other stages. */
  lemma StopKeepsShape(c: Config, h: Hasher, w: Writer, before: bool, after: bool)
    requires HasherShape(c, h, before) && WriterShape(c, w, before) && (before ==> after)
    ensures HasherShape(c, h, after) && WriterShape(c, w, after)
  {
  }

  lemma ReaderKeepsTerminals(c: Config, s: State, step: ReaderStep)
    requires ReaderShape(c, s.reader, s.stopped) && TerminalShape(c, s) && ReaderEnabled(c, s, step)
    ensures TerminalShape(c, ReaderApply(c, s, step))
  {
    if step.Send? {
      Enqueue(c, s.filled, s.reader.pc.packet);
    } else if step.SendDone? {
      Enqueue(c, s.filled, Done);
    }
  }

  lemma ReaderKeepsCauses(c: Config, s: State, step: ReaderStep)
    requires ReaderShape(c, s.reader, s.stopped) && TerminalShape(c, s) && Causes(c, s)
    requires s.reader.bytesRead + s.reader.remaining == c.length && s.reader.bytesRead <= |c.source|
    requires ReaderEnabled(c, s, step)
    ensures Causes(c, ReaderApply(c, s, step))
  {
    var t := ReaderApply(c, s, step);
    if step.Send? || step.SendDone? {
      assert EndsWith(t.filled, t.filled[|s.filled|]);
    } else {
      assert t.filled == s.filled;
    }
  }

  lemma ReaderKeepsVerdict(c: Config, s: State, step: ReaderStep)
    requires Verdict(c, s) && ReaderShape(c, s.reader, s.stopped) && ReaderEnabled(c, s, step)
    ensures Verdict(c, ReaderApply(c, s, step))
  {
  }

  // ---- the hash stage's steps

  lemma HashConsumeKeepsFlow(c: Config, s: State)
    requires Flow(c, s) && HasherShape(c, s.hasher, s.stopped) && HasherEnabled(c, s, HashConsume)
    ensures Flow(c, HasherApply(c, s, HashConsume))
  {
    var t := HasherApply(c, s, HashConsume);
    var taken := HasherTaken(s.hasher.pc);
    Assoc(s.consumed, taken, Upstream(s));
    assert Downstream(s) == Flat(s.hashed);
    assert Downstream(t) == Downstream(s) + taken;
    Assoc(s.writer.rest, Downstream(s), taken);
    Assoc(s.writer.dest, s.writer.rest + Downstream(s), taken);
  }

  lemma HashSendKeepsDownstream(c: Config, s: State)
    requires TerminalShape(c, s) && HasherShape(c, s.hasher, s.stopped) && HasherEnabled(c, s, HashSend)
    ensures Downstream(HasherApply(c, s, HashSend)) == Downstream(s)
  {
    var p := s.hasher.pc.packet;
    Enqueue(c, s.hashed, p);
    assert Downstream(s) == Flat(s.hashed) + DataBytes(p);
  }

  lemma HashTakeKeepsUpstream(c: Config, s: State)
    requires HasherEnabled(c, s, HashTake)
    ensures var t := HasherApply(c, s, HashTake);
      HasherTaken(t.hasher.pc) + Upstream(t) == HasherTaken(s.hasher.pc) + Upstream(s)
  {
    TakeFlat(s.filled, ReaderHolds(s.reader.pc) + s.reader.lost);
    assert HasherTaken(s.hasher.pc) + Upstream(s) == Upstream(s);
  }

  lemma HasherKeepsFlow(c: Config, s: State, step: HasherStep)
    requires Flow(c, s) && TerminalShape(c, s) && HasherShape(c, s.hasher, s.stopped)
    requires HasherEnabled(c, s, step)
    ensures Flow(c, HasherApply(c, s, step))
  {
    if step.HashTake? {
      HashTakeKeepsUpstream(c, s);
    } else if step.HashConsume? {
      HashConsumeKeepsFlow(c, s);
    } else if step.HashSend? {
      HashSendKeepsDownstream(c, s);
    } else {
      OtherHasherStepKeepsFlow(c, s, step);
    }
  }

  lemma OtherHasherStepKeepsFlow(c: Config, s: State, step: HasherStep)
    requires Flow(c, s) && HasherShape(c, s.hasher, s.stopped) && HasherEnabled(c, s, step)
    requires !step.HashTake? && !step.HashConsume? && !step.HashSend?
    ensures Flow(c, HasherApply(c, s, step))
  {
    var t := HasherApply(c, s, step);
    assert HasherDigested(t.hasher.pc) + t.hasher.lost == HasherDigested(s.hasher.pc) + s.hasher.lost;
  }

  lemma HasherKeepsConserved(c: Config, s: State, step: HasherStep)
    requires Conserved(c, s) && HasherShape(c, s.hasher, s.stopped) && TerminalShape(c, s)
    requires HasherEnabled(c, s, step)
    ensures Conserved(c, HasherApply(c, s, step))
  {
    if step.HashSend? {
      Enqueue(c, s.hashed, s.hasher.pc.packet);
    }
  }

  lemma HasherKeepsShape(c: Config, s: State, step: HasherStep)
    requires HasherShape(c, s.hasher, s.stopped) && TerminalShape(c, s) && HasherEnabled(c, s, step)
    ensures var t := HasherApply(c, s, step); HasherShape(c, t.hasher, t.stopped)
  {
  }

  lemma HasherKeepsTerminals(c: Config, s: State, step: HasherStep)
    requires HasherShape(c, s.hasher, s.stopped) && TerminalShape(c, s) && HasherEnabled(c, s, step)
    ensures TerminalShape(c, HasherApply(c, s, step))
  {
    if step.HashSend? {
      Enqueue(c, s.hashed, s.hasher.pc.packet);
    }
  }

  lemma HasherKeepsCauses(c: Config, s: State, step: HasherStep)
    requires TerminalShape(c, s) && Causes(c, s) && Verdict(c, s) && HasherEnabled(c, s, step)
    ensures var t := HasherApply(c, s, step); Causes(c, t) && Verdict(c, t)
  {
    if step.HashTake? {
      assert |s.filled| == 1 || EndsTerminal(s.filled[1..]) == EndsTerminal(s.filled);
    }
  }

  // ---- the writer's steps

  lemma WriteTakeKeepsFlow(c: Config, s: State)
    requires Flow(c, s) && TerminalShape(c, s) && s.writer.rest == []
    requires WriterEnabled(c, s, WriteTake)
    ensures Flow(c, WriterApply(c, s, WriteTake))
  {
    if c.Staged() {
      TakeHashedKeepsFlow(c, s);
    } else {
      TakeFilledKeepsFlow(c, s);
    }
  }

  lemma TakeHashedKeepsFlow(c: Config, s: State)
    requires Flow(c, s) && s.writer.rest == [] && WriterEnabled(c, s, WriteTake) && c.Staged()
    ensures Flow(c, WriterApply(c, s, WriteTake))
  {
    var t := WriterApply(c, s, WriteTake);
    TakeFlat(s.hashed, HasherDigested(s.hasher.pc) + s.hasher.lost);
    ReceivedRest(c, s.writer, s.hashed[0]);
    assert t.writer.rest + Downstream(t) == Downstream(s);
    assert s.writer.rest + Downstream(s) == Downstream(s);
  }

  /** A packet brings the writer its bytes, if it has any. */
  lemma ReceivedRest(c: Config, w: Writer, p: Packet)
    requires w.rest == []
    ensures Receive(c, w, p).rest == DataBytes(p) && Receive(c, w, p).dest == w.dest
  {
  }

  lemma TakeFilledKeepsFlow(c: Config, s: State)
    requires Flow(c, s) && s.writer.rest == [] && WriterEnabled(c, s, WriteTake) && !c.Staged()
    ensures Flow(c, WriterApply(c, s, WriteTake))
  {
    var t := WriterApply(c, s, WriteTake);
    TakeFlat(s.filled, ReaderHolds(s.reader.pc) + s.reader.lost);
    ReceivedRest(c, s.writer, s.filled[0]);
    assert t.writer.rest + Upstream(t) == Upstream(s);
    assert s.writer.rest + Upstream(s) == Upstream(s);
  }

  lemma TakeFlat(q: seq<Packet>, tail: seq<Byte>)
    requires q != []
    ensures Flat(q) + tail == DataBytes(q[0]) + (Flat(q[1..]) + tail)
  {
  }

  lemma WriteBytesKeepsFlow(c: Config, s: State, n: nat)
    requires Flow(c, s) && WriterEnabled(c, s, WriteBytes(n))
    ensures Flow(c, WriterApply(c, s, WriteBytes(n)))
  {
    var t := WriterApply(c, s, WriteBytes(n));
    var head := s.writer.rest[..n];
    var pending := if c.Staged() then Downstream(s) else Upstream(s);
    assert s.writer.rest == head + t.writer.rest;
    Assoc(head, t.writer.rest, pending);
    Assoc(s.writer.dest, head, t.writer.rest + pending);
  }

  lemma WriterKeepsFlow(c: Config, s: State, step: WriterStep)
    requires Inv(c, s) && WriterEnabled(c, s, step)
    ensures Flow(c, WriterApply(c, s, step))
  {
    if step.WriteTake? {
      WriteTakeKeepsFlow(c, s);
    } else if step.WriteBytes? {
      WriteBytesKeepsFlow(c, s, step.count);
    }
  }

  lemma WriterKeepsConserved(c: Config, s: State, step: WriterStep)
    requires Conserved(c, s) && TerminalShape(c, s) && WriterEnabled(c, s, step)
    ensures Conserved(c, WriterApply(c, s, step))
  {
    if step.WriteTake? {
      TakeKeepsConserved(c, s);
    }
  }

  lemma TakeKeepsConserved(c: Config, s: State)
    requires Conserved(c, s) && TerminalShape(c, s) && WriterEnabled(c, s, WriteTake)
    ensures Conserved(c, WriterApply(c, s, WriteTake))
  {
  }

  lemma WriterKeepsShape(c: Config, s: State, step: WriterStep)
    requires WriterShape(c, s.writer, s.stopped) && TerminalShape(c, s) && WriterEnabled(c, s, step)
    ensures var t := WriterApply(c, s, step); WriterShape(c, t.writer, t.stopped)
  {
  }

  lemma WriterKeepsTerminals(c: Config, s: State, step: WriterStep)
    requires TerminalShape(c, s) && WriterEnabled(c, s, step)
    ensures TerminalShape(c, WriterApply(c, s, step))
  {
    if step.WriteTake? {
      TakeKeepsTerminals(c, s);
    }
  }

  lemma TakeKeepsTerminals(c: Config, s: State)
    requires TerminalShape(c, s) && WriterEnabled(c, s, WriteTake)
    ensures TerminalShape(c, WriterApply(c, s, WriteTake))
  {
  }

  lemma WriterKeepsCauses(c: Config, s: State, step: WriterStep)
    requires TerminalShape(c, s) && HasherShape(c, s.hasher, s.stopped) && Causes(c, s)
    requires WriterEnabled(c, s, step)
    ensures Causes(c, WriterApply(c, s, step))
  {
    if step.WriteTake? {
      TakeKeepsCauses(c, s);
    }
  }

  lemma TakeKeepsCauses(c: Config, s: State)
    requires TerminalShape(c, s) && HasherShape(c, s.hasher, s.stopped) && Causes(c, s)
    requires WriterEnabled(c, s, WriteTake)
    ensures Causes(c, WriterApply(c, s, WriteTake))
  {
    var q := Inbox(c, s);
    assert |q| > 1 ==> q[1..][|q| - 2] == q[|q| - 1];
  }

  /** Bytes written, digested and read are nested prefixes of the source. */
  lemma Prefixes(c: Config, s: State)
    requires Flow(c, s)
    ensures |s.writer.dest| + |s.writer.rest| <= |s.consumed| <= s.reader.bytesRead <= c.length
    ensures s.reader.bytesRead <= |c.source|
    ensures s.consumed == c.source[..|s.consumed|]
    ensures s.writer.dest == c.source[..|s.writer.dest|]
  {
    var pending := if c.Staged() then Downstream(s) else Upstream(s);
    assert s.writer.dest == s.consumed[..|s.writer.dest|] by {
      assert s.writer.dest + (s.writer.rest + pending) == s.consumed;
    }
    if c.Staged() {
      assert s.consumed == c.source[..s.reader.bytesRead][..|s.consumed|];
    }
  }

  /** When `Done` is all the writer has left to receive, every byte is written. */
  lemma DoneMeansWritten(c: Config, s: State)
    requires Flow(c, s) && TerminalShape(c, s) && Causes(c, s) && HasherShape(c, s.hasher, s.stopped)
    requires s.writer.rest == [] && Inbox(c, s) != [] && Inbox(c, s)[0] == Done
    ensures |s.writer.dest| == c.length
  {
    assert |Inbox(c, s)| == 1 && Inbox(c, s)[1..] == [];
    assert EndsWith(Inbox(c, s), Done);
    assert Flat(Inbox(c, s)) == [];
    if c.Staged() {
      assert Downstream(s) == [] && Upstream(s) == [];
    } else {
      assert Upstream(s) == [];
    }
  }

  /** So `Done` never reaches the writer's loop. */
  lemma DoneNeverReceived(c: Config, s: State)
    requires Inv(c, s) && s.writer.pc.WAwait? && Inbox(c, s) != []
    ensures Inbox(c, s)[0] != Done
  {
    if Inbox(c, s)[0] == Done {
      DoneMeansWritten(c, s);
    }
  }

  lemma WriterKeepsVerdict(c: Config, s: State, step: WriterStep)
    requires Inv(c, s) && WriterEnabled(c, s, step)
    ensures Verdict(c, WriterApply(c, s, step))
  {
    if step.WriteTake? {
      DoneNeverReceived(c, s);
      if !Inbox(c, s)[0].Data? {
        TakenTerminal(c, s);
      }
    } else {
      Prefixes(c, s);
      LeavingVerdict(c, s, step);
    }
  }

  lemma TakenTerminal(c: Config, s: State)
    requires TerminalShape(c, s) && Causes(c, s) && Inbox(c, s) != [] && !Inbox(c, s)[0].Data?
    ensures s.reader.pc.RExited?
    ensures Inbox(c, s)[0].UnexpectedEof? ==> s.reader.bytesRead == |c.source| < c.length
  {
    assert |Inbox(c, s)| == 1;
    assert EndsWith(Inbox(c, s), Inbox(c, s)[0]);
  }

  lemma LeavingVerdict(c: Config, s: State, step: WriterStep)
    requires WriterShape(c, s.writer, s.stopped) && HasherShape(c, s.hasher, s.stopped) && TerminalShape(c, s)
             && Causes(c, s) && Verdict(c, s)
    requires |s.writer.dest| <= c.length && (s.writer.pc.WWrite? ==> |s.writer.dest| + |s.writer.rest| <= c.length)
    requires WriterEnabled(c, s, step) && !step.WriteTake?
    ensures Verdict(c, WriterApply(c, s, step))
  {
  }

  // ---- every run

  lemma ReaderKeeps(c: Config, s: State, step: ReaderStep)
    requires Inv(c, s) && ReaderEnabled(c, s, step)
    ensures Inv(c, ReaderApply(c, s, step))
  {
    var t := ReaderApply(c, s, step);
    ReaderKeepsFlow(c, s, step);
    ReaderKeepsConserved(c, s, step);
    ReaderKeepsShape(c, s, step);
    StopKeepsShape(c, s.hasher, s.writer, s.stopped, t.stopped);
    ReaderKeepsTerminals(c, s, step);
    ReaderKeepsCauses(c, s, step);
    ReaderKeepsVerdict(c, s, step);
  }

  lemma HasherKeeps(c: Config, s: State, step: HasherStep)
    requires Inv(c, s) && HasherEnabled(c, s, step)
    ensures Inv(c, HasherApply(c, s, step))
  {
    HasherKeepsFlow(c, s, step);
    HasherKeepsConserved(c, s, step);
    HasherKeepsShape(c, s, step);
    HasherKeepsTerminals(c, s, step);
    HasherKeepsCauses(c, s, step);
  }

  lemma WriterKeeps(c: Config, s: State, step: WriterStep)
    requires Inv(c, s) && WriterEnabled(c, s, step)
    ensures Inv(c, WriterApply(c, s, step))
  {
    var t := WriterApply(c, s, step);
    WriterKeepsFlow(c, s, step);
    WriterKeepsConserved(c, s, step);
    WriterKeepsShape(c, s, step);
    WriterKeepsTerminals(c, s, step);
    WriterKeepsCauses(c, s, step);
    WriterKeepsVerdict(c, s, step);
    assert t.reader == s.reader && t.hasher == s.hasher && (s.stopped ==> t.stopped);
  }

  lemma CancelKeeps(c: Config, s: State)
    requires Inv(c, s)
    ensures Inv(c, s.(canceled := true))
  {
    var t := s.(canceled := true);
    assert Upstream(t) == Upstream(s) && Downstream(t) == Downstream(s);
  }

  lemma StepKeeps(c: Config, s: State, step: Step)
    requires Inv(c, s) && Enabled(c, s, step)
    ensures Inv(c, Apply(c, s, step))
  {
    match step {
      case Cancel => CancelKeeps(c, s);
      case R(r) => ReaderKeeps(c, s, r);
      case H(h) => HasherKeeps(c, s, h);
      case W(w) => WriterKeeps(c, s, w);
    }
  }

  lemma {:induction false} RunKeeps(c: Config, steps: seq<Step>)
    requires c.Valid() && Run(c, steps).Some?
    ensures Inv(c, Run(c, steps).value)
  {
    if steps == [] {
      InitKeeps(c);
    } else {
      var last := |steps| - 1;
      RunKeeps(c, steps[..last]);
      StepKeeps(c, Run(c, steps[..last]).value, steps[last]);
    }
  }

  lemma ReachableKeeps(c: Config, s: State)
    requires c.Valid() && Reachable(c, s)
    ensures Inv(c, s)
  {
    var steps :| Run(c, steps) == Some(s);
    RunKeeps(c, steps);
  }

  lemma {:induction false} FlatBound(c: Config, q: seq<Packet>)
    requires QueueOk(c, q)
    ensures Buffers(q) <= |Flat(q)| <= Buffers(q) * c.requestBytes
  {
    if q == [] {
    } else {
      FlatBound(c, q[1..]);
      assert (BufferCount(q[0]) + Buffers(q[1..])) * c.requestBytes
          == BufferCount(q[0]) * c.requestBytes + Buffers(q[1..]) * c.requestBytes;
    }
  }

  /** Bytes held outside the queues are bounded by the buffers they sit in. */
  lemma HeldBound(c: Config, s: State)
    requires ReaderShape(c, s.reader, s.stopped) && HasherShape(c, s.hasher, s.stopped)
    requires WriterShape(c, s.writer, s.stopped)
    ensures |ReaderHolds(s.reader.pc) + s.reader.lost| <= (ReaderBuffers(s.reader.pc) + s.reader.spent) * c.requestBytes
    ensures |HasherTaken(s.hasher.pc)| + |HasherDigested(s.hasher.pc) + s.hasher.lost|
              <= (HasherBuffers(s.hasher.pc) + s.hasher.spent) * c.requestBytes
    ensures |s.writer.rest| <= (WriterBuffers(s.writer.pc) + s.writer.spent) * c.requestBytes
  {
  }

  lemma Distribute(a: nat, b: nat, d: nat, e: nat, f: nat, limit: nat, k: nat)
    requires a + b + d + e + f <= limit
    ensures a * k + b * k + d * k + e * k + f * k <= limit * k
  {
    assert (a + b + d + e + f) * k <= limit * k;
  }

  /** The bytes in flight are bounded by the buffers in use. */
  lemma InFlightBound(c: Config, s: State, f: nat, h: nat, r: nat, d: nat, w: nat)
    requires Flow(c, s) && QueueOk(c, s.filled) && QueueOk(c, s.hashed)
    requires ReaderShape(c, s.reader, s.stopped) && HasherShape(c, s.hasher, s.stopped)
    requires WriterShape(c, s.writer, s.stopped)
    requires f == Buffers(s.filled) && h == Buffers(s.hashed)
    requires r == ReaderBuffers(s.reader.pc) + s.reader.spent
    requires d == HasherBuffers(s.hasher.pc) + s.hasher.spent
    requires w == WriterBuffers(s.writer.pc) + s.writer.spent
    ensures s.reader.bytesRead - |s.writer.dest|
              <= f * c.requestBytes + h * c.requestBytes + r * c.requestBytes + d * c.requestBytes + w * c.requestBytes
  {
    FlatBound(c, s.filled);
    FlatBound(c, s.hashed);
    HeldBound(c, s);
    InFlight(c, s);
  }

  /** The reader never runs more than the buffer window ahead of the writer. */
  lemma Window(c: Config, s: State)
    requires Inv(c, s)
    ensures s.reader.bytesRead - |s.writer.dest| <= c.depth * c.requestBytes
  {
    var f, h := Buffers(s.filled), Buffers(s.hashed);
    var r := ReaderBuffers(s.reader.pc) + s.reader.spent;
    var d := HasherBuffers(s.hasher.pc) + s.hasher.spent;
    var w := WriterBuffers(s.writer.pc) + s.writer.spent;
    InFlightBound(c, s, f, h, r, d, w);
    Distribute(f, h, r, d, w, c.depth, c.requestBytes);
  }

  lemma InFlight(c: Config, s: State)
    requires Flow(c, s) && HasherShape(c, s.hasher, s.stopped)
    ensures s.reader.bytesRead - |s.writer.dest|
        <= |Flat(s.filled)| + |Flat(s.hashed)| + |ReaderHolds(s.reader.pc) + s.reader.lost|
           + (|HasherTaken(s.hasher.pc)| + |HasherDigested(s.hasher.pc) + s.hasher.lost|) + |s.writer.rest|
  {
    if c.Staged() {
      assert |s.consumed + (HasherTaken(s.hasher.pc) + Upstream(s))| == s.reader.bytesRead;
      assert |s.writer.dest + (s.writer.rest + Downstream(s))| == |s.consumed|;
    } else {
      assert |s.consumed| == s.reader.bytesRead;
      assert |s.writer.dest + (s.writer.rest + Upstream(s))| == |s.consumed|;
    }
  }

  /** Main result: what every interleaving of the pipeline guarantees. */
  lemma PipelineSafe(c: Config, s: State)
    requires c.Valid() && Reachable(c, s)
    // Written and digested bytes are source prefixes, in order, exactly once.
    ensures |s.writer.dest| <= |s.consumed| <= s.reader.bytesRead <= c.length
    ensures s.reader.bytesRead <= |c.source|
    ensures s.writer.dest == c.source[..|s.writer.dest|]
    ensures s.consumed == c.source[..|s.consumed|]
    // The read-ahead window is bounded by the buffers.
    ensures s.reader.bytesRead - |s.writer.dest| <= c.depth * c.requestBytes
    // No buffer is created or lost while the pipeline is running.
    ensures Conserved(c, s)
    ensures s.reader.spent + s.hasher.spent + s.writer.spent > 0 ==>
              s.stopped || Left(s.writer.pc) || s.reader.pc.RExited? || s.reader.pc.RSend? || s.reader.pc.RSendTimedOut?
    // Success means that every byte was read, digested and written.
    ensures Left(s.writer.pc) && s.writer.pc.outcome == Success ==>
              |s.writer.dest| == |s.consumed| == s.reader.bytesRead == c.length
              && s.writer.dest == s.consumed == c.source[..c.length]
    // Each failure has the cause its name claims, with one exception: a
    // cancellation seen first by the reader surfaces as a reader panic.
    ensures Left(s.writer.pc) && s.writer.pc.outcome.Failure? ==>
              match s.writer.pc.outcome.fault
              case Canceled => s.canceled
              case ReaderPanicked => s.canceled && s.reader.sawCancel
              case Eof => s.reader.bytesRead == |c.source| < c.length
              case _ => true
    ensures !s.canceled && Left(s.writer.pc) && s.writer.pc.outcome.Failure? ==>
              s.writer.pc.outcome.fault.ReadError? || s.writer.pc.outcome.fault.WriteError?
              || s.writer.pc.outcome.fault.Eof?
  {
    ReachableKeeps(c, s);
    Prefixes(c, s);
    Window(c, s);
  }
}
