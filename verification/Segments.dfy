/**
  The segmented parallel copy: a plan that partitions the file, and writer
  threads that interleave freely over one temporary. Each method of `Transfer`
  is one step of one thread; `Run` lets any thread that can take a step take
  the next one, until the coordinator has joined them all.
*/
module Segments {
  import opened Bytes
  import opened JournalRecords
  import opened EngineWorld
  import opened Checkpoints
  import opened EngineCopy
  import opened EngineSparse

  const SEGMENT_MIN: nat := 2
  const SEGMENT_MAX: nat := 8

  datatype Segment = Segment(offset: nat, length: nat)
  {
    function End(): nat { offset + length }
  }

  ghost predicate Aligned(offset: nat, chunk: nat) { exists k: nat :: IsMultiple(offset, chunk, k) }

  ghost predicate IsMultiple(n: nat, chunk: nat, k: nat) { n == k * chunk }

  /** Non-empty segments that start on chunk boundaries and follow one another
      from the start of the file to its end. */
  ghost predicate Partition(plan: seq<Segment>, size: nat, chunk: nat) {
    plan != [] && Laid(plan, chunk) && plan[|plan| - 1].End() == size
  }

  /** The layout of an eligible file; a file too small for whole chunks in every
      segment is not split. */
  method SegmentPlan(eligible: bool, size: nat, threshold: nat, chunk: nat) returns (plan: Option<seq<Segment>>)
    ensures plan.Some? ==>
              && eligible && size >= threshold
              && Partition(plan.value, size, chunk) && SEGMENT_MIN <= |plan.value| <= SEGMENT_MAX
    ensures eligible && size >= threshold && chunk > 0 && size >= SEGMENT_MAX * chunk ==> plan.Some?
  {
    if !eligible || size < threshold || chunk == 0 {
      return None;
    }
    var wanted := if threshold == 0 then 0 else size / threshold;
    var segments: nat := Max(SEGMENT_MIN, Min(wanted, SEGMENT_MAX));
    var units := size / segments / chunk;
    var base := BaseLength(size, segments, chunk);
    if base == 0 {
      return None;
    }
    var ranges := LayOut(size, segments, base, chunk, units);
    return Some(ranges);
  }

  method LayOut(size: nat, segments: nat, base: nat, chunk: nat, ghost units: nat) returns (ranges: seq<Segment>)
    requires segments >= 2 && base > 0 && base == units * chunk && segments * base <= size
    ensures Partition(ranges, size, chunk) && |ranges| == segments
  {
    ranges := [];
    for index := 0 to segments
      invariant |ranges| == index && Laid(ranges, chunk)
      invariant index > 0 ==> ranges[index - 1].End() == if index == segments then size else index * base
    {
      OffsetFits(index, segments, base, size);
      AlignedOffset(index, units, chunk);
      var offset := index * base;
      var segment := Segment(offset, if index == segments - 1 then size - offset else base);
      LaidStep(ranges, segment, chunk, index * units);
      ranges := ranges + [segment];
    }
  }

  /** Non-empty, aligned, and each where the previous one ends. */
  ghost predicate Laid(plan: seq<Segment>, chunk: nat) {
    && (plan != [] ==> plan[0].offset == 0)
    && (forall i :: 0 <= i < |plan| ==> plan[i].length > 0)
    && (forall i :: 0 <= i < |plan| ==> Aligned(plan[i].offset, chunk))
    && (forall i :: 0 < i < |plan| ==> plan[i].offset == plan[i - 1].End())
  }

  lemma LaidStep(plan: seq<Segment>, s: Segment, chunk: nat, k: nat)
    requires Laid(plan, chunk) && s.length > 0 && IsMultiple(s.offset, chunk, k)
    requires s.offset == if plan == [] then 0 else plan[|plan| - 1].End()
    ensures Laid(plan + [s], chunk)
  {
    var all := plan + [s];
    forall i | 0 <= i < |all| ensures Aligned(all[i].offset, chunk) {
      if i == |plan| {
        assert IsMultiple(all[i].offset, chunk, k);
      } else {
        assert all[i] == plan[i];
      }
    }
    forall i | 0 < i < |all| ensures all[i].offset == all[i - 1].End() {
      assert all[i - 1] == plan[i - 1];
      assert i < |plan| ==> all[i] == plan[i];
    }
  }

  /** Whole chunks of an equal share; nothing if the share holds none. */
  function BaseLength(size: nat, segments: nat, chunk: nat): (base: nat)
    requires 0 < segments <= SEGMENT_MAX && chunk > 0
    ensures base == size / segments / chunk * chunk && segments * base <= size
    ensures size >= SEGMENT_MAX * chunk ==> base > 0
  {
    BaseFits(size, segments, chunk);
    size / segments / chunk * chunk
  }

  lemma BaseFits(size: nat, segments: nat, chunk: nat)
    requires 0 < segments <= SEGMENT_MAX && chunk > 0
    ensures segments * (size / segments / chunk * chunk) <= size
    ensures size >= SEGMENT_MAX * chunk ==> size / segments / chunk * chunk > 0
  {
    var per := size / segments;
    DivFits(size, segments);
    DivFits(per, chunk);
    MulMonotone(per / chunk * chunk, per, segments);
    if size >= SEGMENT_MAX * chunk {
      MulMonotone(segments, SEGMENT_MAX, chunk);
      DivAtLeast(size, segments, chunk);
      DivAtLeast(per, chunk, 1);
    }
  }

  lemma DivFits(n: nat, d: nat)
    requires d > 0
    ensures n / d * d <= n < (n / d + 1) * d
  {
    assert n == d * (n / d) + n % d;
  }

  lemma DivAtLeast(n: nat, d: nat, k: nat)
    requires d > 0 && n >= d * k
    ensures n / d >= k
  {
    DivFits(n, d);
    if n / d + 1 <= k {
      MulMonotone(n / d + 1, k, d);
    }
  }

  lemma OffsetFits(i: nat, segments: nat, base: nat, size: nat)
    requires i < segments && segments * base <= size
    ensures (i + 1) * base == i * base + base <= size
  {
    MulMonotone(i + 1, segments, base);
  }

  lemma AlignedOffset(i: nat, units: nat, chunk: nat)
    ensures i * (units * chunk) == (i * units) * chunk
  {
  }

  // ---- threads

  datatype How = Complete | Halted | Broken | Panicked

  datatype Pc =
    | Opening
    | Polling                 // about to test the stop flag and cancellation
    | Reading
    | Writing(piece: Data)
    | Flushing
    | Recording               // about to take the first-error slot
    | Tripping                // about to set the stop flag
    | Ended(how: How)

  /** A writer: the bytes it has moved, and its own counters. `landed` is what
      really reached the file, also in a write that then failed. */
  datatype Writer = Writer(segment: Segment, moved: nat, pc: Pc, read: int, written: int, landed: int)

  /** The coordinator hashes the local source first if the destination is
      remote, then joins the writers in order. */
  datatype Coordinator =
    | Hashing(position: nat)
    | HashRecording
    | HashTripping
    | Joining(index: nat)
    | JoinRecording(index: nat)
    | JoinTripping(index: nat)
    | Joined

  function Sum(ws: seq<Writer>, f: Writer -> int): int {
    if ws == [] then 0 else Sum(ws[..|ws| - 1], f) + f(ws[|ws| - 1])
  }

  lemma {:induction false} SumUpdate(ws: seq<Writer>, i: nat, next: Writer, f: Writer -> int)
    requires i < |ws|
    ensures Sum(ws[i := next], f) == Sum(ws, f) - f(ws[i]) + f(next)
  {
    var n := |ws| - 1;
    if i == n {
      assert ws[i := next][..n] == ws[..n];
    } else {
      SumUpdate(ws[..n], i, next, f);
      assert ws[i := next][..n] == ws[..n][i := next];
    }
  }

  /** Steps a writer can still take, at most. */
  function WriterRank(w: Writer): int {
    var left := 4 * (w.segment.length - w.moved);
    match w.pc
    case Opening => left + 5
    case Polling => left + 4
    case Reading => left + 3
    case Writing(_) => left + 2
    case Flushing => 3
    case Recording => 2
    case Tripping => 1
    case Ended(_) => 0
  }

  function CoordinatorRank(c: Coordinator, writers: nat, size: nat): int {
    match c
    case Hashing(position) => size - position + 3 * writers + 4
    case HashRecording => 3 * writers + 3
    case HashTripping => 3 * writers + 2
    case Joining(index) => 3 * (writers - index) + 1
    case JoinRecording(index) => 3 * (writers - index)
    case JoinTripping(index) => 3 * (writers - index) - 1
    case Joined => 0
  }

  /** What is always true of one writer. `clean` says the source is unchanged. */
  ghost predicate WriterOk(w: Writer, main: Data, content: Data, clean: bool, slot: bool, stop: bool) {
    var s := w.segment;
    && w.moved <= s.length && s.End() <= |content|
    && w.written == w.moved && w.read >= w.moved && w.landed >= w.written
    && (w.landed > w.written ==> w.pc in {Recording, Tripping, Ended(Broken), Ended(Panicked)})
    && (w.moved > 0 ==> s.offset + w.moved <= |main|)
    && (clean ==> Holds(main, content, s.offset, w.moved))
    && match w.pc
       case Opening => w.moved < s.length && w.read == w.moved
       case Polling => w.moved < s.length && w.read == w.moved
       case Reading => w.moved < s.length && w.read == w.moved
       case Writing(piece) =>
         && 0 < |piece| <= s.length - w.moved && w.read == w.moved + |piece|
         && (clean ==> piece == content[s.offset + w.moved..s.offset + w.moved + |piece|])
       case Flushing => w.moved == s.length == w.read
       case Recording => true
       case Tripping => slot
       case Ended(how) =>
         && (how == Complete ==> w.moved == s.length == w.read)
         && (how == Halted ==> stop) && (how == Broken ==> slot)
  }

  /** The temporary holds the source's bytes on this stretch. */
  ghost predicate Holds(main: Data, content: Data, offset: nat, n: nat) {
    n > 0 ==> offset + n <= |main| && offset + n <= |content| && main[offset..offset + n] == content[offset..offset + n]
  }

  /** A positioned write; the file is extended with zeros up to it if needed. */
  function WriteAt(d: Data, position: nat, piece: Data): Data {
    Overwrite(if |d| < position then d + Zeros(position - |d|) else d, position, piece)
  }

  lemma WriteAtFacts(d: Data, position: nat, piece: Data)
    ensures |WriteAt(d, position, piece)| == Max(|d|, position + |piece|)
    ensures WriteAt(d, position, piece)[position..position + |piece|] == piece
    ensures forall p :: 0 <= p < |d| && (p < position || p >= position + |piece|)
              ==> WriteAt(d, position, piece)[p] == d[p]
  {
  }

  /** A write next to or outside a stretch leaves what it holds. */
  lemma WriteElsewhere(d: Data, content: Data, position: nat, piece: Data, offset: nat, n: nat)
    requires Holds(d, content, offset, n)
    requires position + |piece| <= offset || offset + n <= position
    ensures Holds(WriteAt(d, position, piece), content, offset, n)
  {
    WriteAtFacts(d, position, piece);
  }

  lemma WriteNext(d: Data, content: Data, offset: nat, n: nat, piece: Data)
    requires Holds(d, content, offset, n) && offset + n + |piece| <= |content|
    requires piece == content[offset + n..offset + n + |piece|] && |piece| > 0
    ensures Holds(WriteAt(d, offset + n, piece), content, offset, n + |piece|)
  {
    var now := WriteAt(d, offset + n, piece);
    WriteAtFacts(d, offset + n, piece);
    assert n > 0 ==> now[offset..offset + n] == d[offset..offset + n];
    assert now[offset..offset + n + |piece|] == now[offset..offset + n] + piece;
    assert content[offset..offset + n + |piece|] == content[offset..offset + n] + piece;
  }
}
