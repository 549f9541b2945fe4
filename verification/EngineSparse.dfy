/**
  The sparse copy: only allocated ranges are transferred, holes are hashed as
  zeros and never written. It leaves the temporary as the dense copy would.
*/
module EngineSparse {
  import opened Bytes
  import opened JournalRecords
  import opened EngineWorld
  import opened Checkpoints
  import opened EngineCopy

  /** An allocated range, as the file system reports it. */
  datatype Range = Range(offset: nat, length: nat)
  {
    function End(): nat { offset + length }
  }

  ghost predicate Sorted(ranges: seq<Range>) {
    forall i, j :: 0 <= i < j < |ranges| ==> ranges[i].offset <= ranges[j].offset
  }

  /** Every non-zero byte lies in some range; ranges may overlap. */
  ghost predicate Covers(ranges: seq<Range>, content: Data) {
    forall p :: 0 <= p < |content| && content[p] != 0 ==> exists i :: InRange(ranges, i, p)
  }

  ghost predicate InRange(ranges: seq<Range>, i: int, p: int) {
    0 <= i < |ranges| && ranges[i].offset <= p < ranges[i].End()
  }

  function Zeros(n: nat): Data { seq(n, _ => 0 as Byte) }

  predicate AllZero(d: Data) { forall i :: 0 <= i < |d| ==> d[i] == 0 }

  /** Sets the logical size: cuts, or extends with zeros. */
  function Resized(d: Data, n: nat): Data { if |d| >= n then d[..n] else d + Zeros(n - |d|) }

  /** The loop reaches byte p in range i: no earlier range has ended beyond it. */
  ghost predicate Reaches(ranges: seq<Range>, i: int, p: int) {
    InRange(ranges, i, p) && forall k :: 0 <= k < i ==> ranges[k].End() <= p
  }

  ghost predicate Reached(ranges: seq<Range>, p: int) { exists i :: Reaches(ranges, i, p) }

  /** Every non-zero byte is reached by some range. */
  ghost predicate AllReached(ranges: seq<Range>, content: Data) {
    forall p :: 0 <= p < |content| && content[p] != 0 ==> Reached(ranges, p)
  }

  /** Before the next range, and past the ends of all earlier ones, every byte is
      zero. */
  lemma HoleIsZero(ranges: seq<Range>, content: Data, i: nat, from: nat, to: nat)
    requires AllReached(ranges, content) && i <= |ranges|
    requires from <= to <= |content| && (i < |ranges| ==> to <= ranges[i].offset || to == from)
    requires forall k :: 0 <= k < i ==> ranges[k].End() <= from
    ensures AllZero(content[from..to])
  {
    forall p | from <= p < to ensures content[p] == 0 {
      forall k ensures !Reaches(ranges, k, p) {
        assert i < k < |ranges| ==> ranges[i].End() > p;
      }
    }
  }

  /** The temporary holds copied bytes up to the position, and zeros from there;
      if the ranges are trusted, the copied bytes are the source's. */
  ghost predicate Filled(w: World, req: Request, temp: Temp, position: nat, hasher: Option<Data>, trusted: bool)
    reads w`stale, temp`main
  {
    && position <= |temp.main| == req.snapshot.size
    && (trusted ==> Sourced(w, req, BASE, temp.main[..position]))
    && AllZero(temp.main[position..])
    && (hasher.Some? ==> hasher.value == temp.main[..position])
  }

  /** Hashes a hole in bounded steps; boundaries inside it are hit as well. */
  method HashHole(w: World, req: Request, log: Log, temp: Temp, cursor: Cursor, from: nat, to: nat, start: Option<Data>,
                  ghost trusted: bool) returns (ok: bool, hasher: Option<Data>)
    requires Running(w, req, temp) && req.chunk > 0
    requires from <= to && to <= |temp.main| && Filled(w, req, temp, from, start, trusted)
    requires trusted ==> Sourced(w, req, BASE, temp.main[..to])
    requires cursor.At(from) && cursor.total == req.snapshot.size && (cursor.next.Some? ==> trusted)
    modifies w`journal, w`recorded, temp`persistent, log, cursor`next
    ensures Running(w, req, temp)
    ensures ok ==> Filled(w, req, temp, to, hasher, trusted) && cursor.At(to) && (cursor.next.Some? ==> trusted)
    ensures hasher.Some? == start.Some?
  {
    var position := from;
    hasher := start;
    while position < to
      invariant position <= to && Running(w, req, temp)
      invariant Filled(w, req, temp, position, hasher, trusted) && cursor.At(position)
      invariant cursor.next.Some? ==> trusted
      invariant hasher.Some? == start.Some?
    {
      var count := Min(cursor.Bound(position, to - position), req.chunk);
      assert temp.main[..position + count] == temp.main[..position] + Zeros(count);
      assert temp.main[..to][..position + count] == temp.main[..position + count];
      hasher := if hasher.Some? then Some(hasher.value + Zeros(count)) else None;
      position := position + count;
      ok := Advance(w, req, log, cursor, temp, BASE, position, hasher);
      if !ok {
        return;
      }
    }
    ok := true;
  }

  /** Transfers the part of one range that is not copied yet. */
  method CopyRange(w: World, req: Request, log: Log, temp: Temp, cursor: Cursor, from: nat, to: nat,
                   start: Option<Data>, ghost trusted: bool) returns (ok: bool, hasher: Option<Data>)
    requires Running(w, req, temp)
    requires from <= to <= req.snapshot.size && Filled(w, req, temp, from, start, trusted)
    requires cursor.At(from) && cursor.total == req.snapshot.size && (cursor.next.Some? ==> trusted)
    modifies w`facts, w`stale, w`journal, w`recorded, temp, log, cursor`next
    ensures temp.streams == old(temp.streams)
    ensures Running(w, req, temp) && old(w.stale) <= w.stale
    ensures ok ==> Filled(w, req, temp, to, hasher, trusted) && cursor.At(to) && (cursor.next.Some? ==> trusted)
    ensures ok ==> Copied(w, req, old(temp.main)[..from], temp.main[..to])
    ensures ok && hasher.Some? ==> start.Some?
  {
    var position := from;
    hasher := start;
    assert temp.main[..from] + [] == temp.main[..from];
    while position < to
      invariant from <= position <= to && Running(w, req, temp) && old(w.stale) <= w.stale
      invariant Filled(w, req, temp, position, hasher, trusted) && cursor.At(position)
      invariant cursor.next.Some? ==> trusted
      invariant Copied(w, req, old(temp.main)[..from], temp.main[..position])
      invariant hasher.Some? ==> start.Some?
      invariant temp.streams == old(temp.streams)
    {
      var count;
      ghost var before := temp.main;
      ok, count, hasher := TransferSegment(w, req, temp, BASE, position, cursor.Bound(position, to - position), hasher);
      if !ok {
        return;
      }
      ghost var piece := temp.main[position..position + count];
      RestStaysZero(before, position, piece);
      CopiedGrows(w, req, old(temp.main)[..from], before[..position], piece);
      assert temp.main[..position + count] == before[..position] + piece;
      position := position + count;
      ok := Advance(w, req, log, cursor, temp, BASE, position, hasher);
      if !ok {
        return;
      }
    }
    ok := true;
  }

  /** The bytes are the earlier ones and then the source's, unless the source has
      changed. */
  ghost predicate Copied(w: World, req: Request, before: Data, now: Data)
    reads w`stale
  {
    var all := w.setting.content(req.snapshot, BASE);
    req.snapshot in w.stale || (|before| <= |now| <= |all| && now == before + all[|before|..|now|])
  }

  lemma CopiedGrows(w: World, req: Request, before: Data, now: Data, piece: Data)
    requires Copied(w, req, before, now)
    requires var all := w.setting.content(req.snapshot, BASE);
      req.snapshot in w.stale || (|now| + |piece| <= |all| && piece == all[|now|..|now| + |piece|])
    ensures Copied(w, req, before, now + piece)
  {
    var all := w.setting.content(req.snapshot, BASE);
    if req.snapshot !in w.stale {
      assert all[|before|..|now| + |piece|] == all[|before|..|now|] + piece;
    }
  }

  lemma RestStaysZero(d: Data, position: nat, piece: Data)
    requires position + |piece| <= |d| && AllZero(d[position..])
    ensures |Overwrite(d, position, piece)| == |d|
    ensures AllZero(Overwrite(d, position, piece)[position + |piece|..])
  {
    assert Overwrite(d, position, piece)[position + |piece|..] == d[position..][|piece|..];
  }

  /** The source's bytes up to `to` are the temporary's, when they are zero from
      where it is filled. */
  lemma HoleIsSourced(w: World, req: Request, temp: Temp, from: nat, to: nat)
    requires w.Safe() && from <= to <= |temp.main| == req.snapshot.size
    requires Sourced(w, req, BASE, temp.main[..from]) && AllZero(temp.main[from..])
    requires req.snapshot in w.stale || AllZero(w.setting.content(req.snapshot, BASE)[from..to])
    ensures Sourced(w, req, BASE, temp.main[..to])
  {
    var all := w.setting.content(req.snapshot, BASE);
    if req.snapshot !in w.stale {
      forall p | 0 <= p < to ensures temp.main[p] == all[p] {
        if p < from {
          assert temp.main[..from][p] == all[..from][p];
        } else {
          assert temp.main[from..][p - from] == 0 && all[from..to][p - from] == 0;
        }
      }
      assert temp.main[..to] == all[..to];
    }
  }

  /** What the file system reports is sorted and covers the source's data,
      unless the source has changed. Nothing else is checked than that no range
      ends beyond the file. */
  ghost predicate Reported(w: World, req: Request, ranges: seq<Range>)
    reads w`stale
  {
    req.snapshot in w.stale || AllReached(ranges, w.setting.content(req.snapshot, BASE))
  }

  // ---- what the loop over the ranges builds

  /** One range, after the bytes built so far. */
  function Extend(content: Data, done: Data, r: Range): Data
    requires |done| <= |content|
  {
    if r.End() <= |done| || r.End() > |content| then done
    else
      var start := Max(r.offset, |done|);
      done + Zeros(start - |done|) + content[start..r.End()]
  }

  function Build(content: Data, ranges: seq<Range>, done: Data): (b: Data)
    requires |done| <= |content|
    ensures |done| <= |b| <= |content|
  {
    if ranges == [] then done
    else Extend(content, Build(content, ranges[..|ranges| - 1], done), ranges[|ranges| - 1])
  }

  /** The logical content the sparse copy produces, for any ranges. */
  function Image(content: Data, ranges: seq<Range>, done: Data): (image: Data)
    requires |done| <= |content|
    ensures |image| == |content|
  {
    var b := Build(content, ranges, done);
    b + Zeros(|content| - |b|)
  }

  lemma RangeBuilt(w: World, req: Request, main: Data, r: Range, position: nat, now: Data)
    requires w.Safe() && position <= |main| == req.snapshot.size && position < r.End() <= req.snapshot.size
    requires AllZero(main[position..])
    requires var start: nat := Max(r.offset, position); |now| == r.End() && Copied(w, req, main[..start], now)
    ensures req.snapshot in w.stale || now == Extend(w.setting.content(req.snapshot, BASE), main[..position], r)
  {
    var start: nat := Max(r.offset, position);
    assert main[..start] == main[..position] + Zeros(start - position) by {
      assert main[position..][..start - position] == Zeros(start - position);
    }
  }

  /** Runs over the ranges. What it leaves is the image of the source under
      these ranges, whatever they are; checkpoints need trusted ranges. */
  method CopyRanges(w: World, req: Request, log: Log, temp: Temp, cursor: Cursor, ranges: seq<Range>,
                    start: nat, from: Option<Data>, ghost trusted: bool) returns (ok: bool, hasher: Option<Data>)
    requires Running(w, req, temp) && req.chunk > 0 && (trusted ==> Reported(w, req, ranges))
    requires Filled(w, req, temp, start, from, trusted) && cursor.At(start) && cursor.total == req.snapshot.size
    requires cursor.next.Some? ==> trusted
    modifies w`facts, w`stale, w`journal, w`recorded, temp, log, cursor`next
    ensures Running(w, req, temp) && old(w.stale) <= w.stale
    ensures ok ==> |temp.main| == req.snapshot.size && (trusted ==> Sourced(w, req, BASE, temp.main))
    ensures ok && req.snapshot !in w.stale ==>
              temp.main == Image(w.setting.content(req.snapshot, BASE), ranges, old(temp.main)[..start])
    ensures ok && hasher.Some? ==> from.Some? && hasher.value == temp.main
    ensures ok ==> temp.streams == old(temp.streams)
  {
    ghost var content := w.setting.content(req.snapshot, BASE);
    var position: nat := start;
    hasher := from;
    for i := 0 to |ranges|
      invariant Running(w, req, temp) && old(w.stale) <= w.stale && (trusted ==> Reported(w, req, ranges))
      invariant Filled(w, req, temp, position, hasher, trusted) && cursor.At(position)
      invariant cursor.next.Some? ==> trusted
      invariant hasher.Some? ==> from.Some?
      invariant temp.streams == old(temp.streams)
      invariant forall k :: 0 <= k < i ==> ranges[k].End() <= position
      invariant req.snapshot in w.stale || temp.main[..position] == Build(content, ranges[..i], old(temp.main)[..start])
    {
      assert ranges[..i + 1][..i] == ranges[..i];
      var canceled: bool := *;
      if canceled || ranges[i].End() > req.snapshot.size {
        return false, None;
      }
      if ranges[i].End() > position {
        ok, position, hasher := ReachRange(w, req, log, temp, cursor, ranges, i, position, hasher, trusted);
        if !ok {
          return;
        }
      }
    }
    assert ranges[..|ranges|] == ranges;
    ok, hasher := FinishHole(w, req, log, temp, cursor, ranges, position, hasher, trusted);
  }

  /** Hashes the hole behind the last range. */
  method FinishHole(w: World, req: Request, log: Log, temp: Temp, cursor: Cursor, ghost ranges: seq<Range>,
                    position: nat, start: Option<Data>, ghost trusted: bool) returns (ok: bool, hasher: Option<Data>)
    requires Running(w, req, temp) && req.chunk > 0 && (trusted ==> Reported(w, req, ranges))
    requires Filled(w, req, temp, position, start, trusted) && cursor.At(position) && cursor.total == req.snapshot.size
    requires forall k :: 0 <= k < |ranges| ==> ranges[k].End() <= position
    requires cursor.next.Some? ==> trusted
    modifies w`facts, w`stale, w`journal, w`recorded, temp, log, cursor`next
    ensures Running(w, req, temp) && old(w.stale) <= w.stale
    ensures ok ==> |temp.main| == req.snapshot.size && (trusted ==> Sourced(w, req, BASE, temp.main))
    ensures ok ==> temp.main == old(temp.main)[..position] + Zeros(req.snapshot.size - position)
    ensures ok && hasher.Some? ==> start.Some? && hasher.value == temp.main
    ensures ok ==> temp.streams == old(temp.streams)
  {
    if trusted {
      HoleReported(w, req, temp, ranges, |ranges|, position, req.snapshot.size);
    }
    ok, hasher := HashHole(w, req, log, temp, cursor, position, req.snapshot.size, start, trusted);
    assert temp.main[..req.snapshot.size] == temp.main;
    assert temp.main == temp.main[..position] + Zeros(req.snapshot.size - position);
  }

  /** Hashes the hole before a range and copies the range. */
  method ReachRange(w: World, req: Request, log: Log, temp: Temp, cursor: Cursor, ranges: seq<Range>, i: nat,
                    position: nat, start: Option<Data>, ghost trusted: bool)
    returns (ok: bool, now: nat, hasher: Option<Data>)
    requires Running(w, req, temp) && req.chunk > 0 && (trusted ==> Reported(w, req, ranges))
    requires Filled(w, req, temp, position, start, trusted) && cursor.At(position) && cursor.total == req.snapshot.size
    requires cursor.next.Some? ==> trusted
    requires i < |ranges| && position < ranges[i].End() <= req.snapshot.size
    requires forall k :: 0 <= k < i ==> ranges[k].End() <= position
    modifies w`facts, w`stale, w`journal, w`recorded, temp, log, cursor`next
    ensures Running(w, req, temp) && old(w.stale) <= w.stale && temp.streams == old(temp.streams)
    ensures ok ==> now == ranges[i].End() && Filled(w, req, temp, now, hasher, trusted) && cursor.At(now)
    ensures ok ==> (cursor.next.Some? ==> trusted) && (hasher.Some? ==> start.Some?)
    ensures ok ==> req.snapshot in w.stale
                   || temp.main[..now]
                      == Extend(w.setting.content(req.snapshot, BASE), old(temp.main)[..position], ranges[i])
  {
    var rangeStart: nat := Max(ranges[i].offset, position);
    now := ranges[i].End();
    if trusted {
      HoleReported(w, req, temp, ranges, i, position, rangeStart);
    }
    ok, hasher := HashHole(w, req, log, temp, cursor, position, rangeStart, start, trusted);
    if !ok {
      return;
    }
    ok, hasher := CopyRange(w, req, log, temp, cursor, rangeStart, now, hasher, trusted);
    if ok {
      RangeBuilt(w, req, old(temp.main), ranges[i], position, temp.main[..now]);
    }
  }

  lemma HoleReported(w: World, req: Request, temp: Temp, ranges: seq<Range>, i: nat, from: nat, to: nat)
    requires w.Safe() && Reported(w, req, ranges) && i <= |ranges|
    requires from <= to <= |temp.main| == req.snapshot.size
    requires Sourced(w, req, BASE, temp.main[..from]) && AllZero(temp.main[from..])
    requires forall k :: 0 <= k < i ==> ranges[k].End() <= from
    requires i < |ranges| ==> to <= ranges[i].offset || to == from
    ensures Sourced(w, req, BASE, temp.main[..to])
  {
    if req.snapshot !in w.stale {
      HoleIsZero(ranges, w.setting.content(req.snapshot, BASE), i, from, to);
    }
    HoleIsSourced(w, req, temp, from, to);
  }

  /** Copies one sparse file. Whatever holes, overlaps and order the ranges have,
      if they reach every non-zero byte, and wherever a resume starts, what is
      published is the source. Other ranges do not give it (`ImageIsContent`). */
  method CopySparse(w: World, req: Request, log: Log, streams: seq<StreamInfo>, ranges: seq<Range>,
                    found: Option<Candidate>, shouldHash: bool) returns (ok: bool)
    requires w.Safe() && w.Seen(req.snapshot)
    requires Listing(w, req, streams) && Possible(w, found) && Reported(w, req, ranges)
    modifies w, log
    ensures w.Safe()
    ensures ok ==> PublishedOver(w, req.snapshot, found)
    ensures !ok ==> (|| PublishedOver(w, req.snapshot, found)
                     || Unpublished(w, old(w.published), old(w.publishedFor), old(w.publishedOver)))
  {
    var temp, start, hasher;
    ok, temp, start, hasher := OpenTemp(w, req, log, found, shouldHash);
    var resized: bool := *;
    if !ok || !resized || req.chunk == 0 {
      return false;
    }
    ExtendedIsFilled(w, req, temp.main, req.snapshot.size);
    temp.main := Resized(temp.main, req.snapshot.size);
    var eligible := req.snapshot.size >= req.checkpointThreshold && log.on;
    var known: bool := *;
    var cursor := new Cursor(eligible, start, req.snapshot.size, if known then Some(temp.identity) else None);
    ok, hasher := CopyRanges(w, req, log, temp, cursor, ranges, start, hasher, true);
    if ok {
      ok := Finish(w, req, log, temp, streams, hasher, shouldHash);
    }
  }

  lemma ExtendedIsFilled(w: World, req: Request, d: Data, n: nat)
    requires |d| <= n
    ensures Resized(d, n)[..|d|] == d && AllZero(Resized(d, n)[|d|..]) && |Resized(d, n)| == n
  {
    assert Resized(d, n)[|d|..] == Zeros(n - |d|);
    assert Resized(d, n)[..|d|] == d;
  }

  // ---- when the image is the source

  ghost predicate InFile(ranges: seq<Range>, size: nat) {
    forall i :: 0 <= i < |ranges| ==> ranges[i].End() <= size
  }

  /** What is built at a position: beyond the start, exactly the positions that
      are reached are copied, and the others are zero. */
  lemma {:induction false} BuildAt(content: Data, ranges: seq<Range>, done: Data, p: nat)
    requires |done| <= |content| && InFile(ranges, |content|)
    ensures var b := Build(content, ranges, done);
      && (p < |done| ==> b[p] == done[p])
      && (|done| <= p < |b| ==> b[p] == (if Reached(ranges, p) then content[p] else 0))
      && (|done| <= p < |b| ==> exists k :: 0 <= k < |ranges| && ranges[k].End() > p)
      && (|b| <= p ==> forall k :: 0 <= k < |ranges| ==> ranges[k].End() <= p)
  {
    if ranges == [] {
    } else {
      var n := |ranges| - 1;
      var init, last := ranges[..n], ranges[n];
      BuildAt(content, init, done, p);
      ReachedLast(init, last, p);
      assert init + [last] == ranges;
      ExtendAt(content, Build(content, init, done), last, p);
      assert forall k :: 0 <= k < n ==> init[k] == ranges[k];
    }
  }

  lemma ExtendAt(content: Data, b: Data, r: Range, p: nat)
    requires |b| <= |content| && r.End() <= |content|
    ensures var e := Extend(content, b, r);
      && |e| == Max(|b|, r.End())
      && (p < |b| ==> e[p] == b[p])
      && (|b| <= p < |e| ==> r.End() > p && e[p] == (if r.offset <= p then content[p] else 0))
  {
  }

  lemma ReachedLast(init: seq<Range>, last: Range, p: int)
    ensures Reached(init + [last], p)
            <==> Reached(init, p)
                 || (last.offset <= p < last.End() && forall k :: 0 <= k < |init| ==> init[k].End() <= p)
  {
    var all := init + [last];
    forall i | 0 <= i < |init| ensures Reaches(all, i, p) <==> Reaches(init, i, p) {
      assert all[i] == init[i];
      assert forall k :: 0 <= k < i ==> all[k] == init[k];
    }
    if Reached(init, p) {
      var i :| Reaches(init, i, p);
      assert Reaches(all, i, p);
    }
    if last.offset <= p < last.End() && forall k :: 0 <= k < |init| ==> init[k].End() <= p {
      assert all[|init|] == last;
      assert Reaches(all, |init|, p);
    }
    if Reached(all, p) {
      var i :| Reaches(all, i, p);
      assert i < |init| ==> Reaches(init, i, p);
      assert forall k :: 0 <= k < |init| ==> all[k] == init[k];
    }
  }

  lemma ImageAt(content: Data, ranges: seq<Range>, done: Data, p: nat)
    requires |done| <= |content| && p < |content| && InFile(ranges, |content|)
    ensures p < |done| ==> Image(content, ranges, done)[p] == done[p]
    ensures p >= |done| ==> Image(content, ranges, done)[p] == if Reached(ranges, p) then content[p] else 0
  {
    BuildAt(content, ranges, done, p);
  }

  /** From any point a copy may be resumed at, the loop reproduces the content
      exactly when every non-zero byte beyond is reached by some range. */
  lemma ImageIsContent(content: Data, ranges: seq<Range>, start: nat)
    requires start <= |content| && InFile(ranges, |content|)
    ensures Image(content, ranges, content[..start]) == content
            <==> forall p :: start <= p < |content| && content[p] != 0 ==> Reached(ranges, p)
  {
    var image := Image(content, ranges, content[..start]);
    forall p | 0 <= p < |content|
      ensures image[p] == if p < start || Reached(ranges, p) then content[p] else 0
    {
      ImageAt(content, ranges, content[..start], p);
    }
    if forall p :: start <= p < |content| && content[p] != 0 ==> Reached(ranges, p) {
      assert forall p :: 0 <= p < |content| ==> image[p] == content[p];
    }
  }

  /** Sorted ranges that cover the data reach all of it, overlapping or not. */
  lemma SortedReaches(content: Data, ranges: seq<Range>)
    requires Sorted(ranges) && Covers(ranges, content)
    ensures AllReached(ranges, content)
  {
    forall p | 0 <= p < |content| && content[p] != 0 ensures Reached(ranges, p) {
      var i :| InRange(ranges, i, p);
      FirstInRange(ranges, i, p);
    }
  }

  lemma {:induction false} FirstInRange(ranges: seq<Range>, i: int, p: int)
    requires Sorted(ranges) && InRange(ranges, i, p)
    ensures Reached(ranges, p)
    decreases i
  {
    if exists k :: 0 <= k < i && ranges[k].End() > p {
      var k :| 0 <= k < i && ranges[k].End() > p;
      assert ranges[k].offset <= ranges[i].offset;
      FirstInRange(ranges, k, p);
    } else {
      assert Reaches(ranges, i, p);
    }
  }

  /** So sorted, covering ranges give back the source, wherever the copy starts. */
  lemma SortedImage(content: Data, ranges: seq<Range>, start: nat)
    requires start <= |content| && InFile(ranges, |content|)
    requires Sorted(ranges) && Covers(ranges, content)
    ensures Image(content, ranges, content[..start]) == content
  {
    SortedReaches(content, ranges);
    ImageIsContent(content, ranges, start);
  }

  /** Unsorted ranges pass the check and lose data. */
  lemma UnsortedRangesLoseData() returns (content: Data, ranges: seq<Range>)
    ensures Covers(ranges, content) && InFile(ranges, |content|)
    ensures Image(content, ranges, content[..0]) != content
  {
    content, ranges := [7, 7], [Range(1, 1), Range(0, 1)];
    assert InRange(ranges, 1, 0) && InRange(ranges, 0, 1);
    assert content[0] != 0;
    forall i ensures !Reaches(ranges, i, 0) {
      if i == 1 {
        assert ranges[0].End() > 0;
      }
    }
    ImageIsContent(content, ranges, 0);
  }
}
