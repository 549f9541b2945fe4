/**
  Loading a journal: a buffered reader that hands out the file in arbitrary
  fragments, the bounded record reader, and the replay loop with one record of
  lookahead. `Replay` says what loading means on the split records.
*/
module JournalLoad {
  import opened Bytes
  import opened JournalRecords
  import opened JournalCodec
  import opened JournalLines

  /** A buffered reader over a fixed file. */
  class Reader {
    const data: Data
    var pos: nat

    ghost predicate Valid()
      reads this
    {
      pos <= |data|
    }

    constructor (data: Data)
      ensures Valid() && this.data == data && pos == 0
    {
      this.data, pos := data, 0;
    }

    /** Some unread bytes, all of them only if the buffer happens to be large
        enough; none exactly at the end. A read may also fail. */
    method Fill() returns (ok: bool, buffer: Data)
      requires Valid()
      ensures ok ==> buffer <= data[pos..] && (buffer == [] <==> pos == |data|)
    {
      ok := *;
      var n: nat :| n >= 0;
      buffer := data[pos..pos + if pos == |data| then 0 else Min(n, |data| - pos - 1) + 1];
    }

    method Consume(n: nat)
      requires Valid() && pos + n <= |data|
      modifies this`pos
      ensures Valid() && pos == old(pos) + n
    {
      pos := pos + n;
    }
  }

  /** Number of bytes up to and including the first newline, or all of them. */
  method IndexAfterNewline(buffer: Data) returns (end: nat)
    ensures end == FirstLength(buffer)
  {
    end := 0;
    while end < |buffer| && (end == 0 || buffer[end - 1] != NL)
      invariant end <= |buffer|
      invariant NL !in buffer[..Max(end - 1, 0)]
      invariant FirstLength(buffer)
             == if end > 0 && buffer[end - 1] == NL then end else end + FirstLength(buffer[end..])
    {
      assert buffer[end..][0] == buffer[end] && buffer[end..][1..] == buffer[end + 1..];
      assert buffer[..end] == buffer[..Max(end - 1, 0)] + (if end > 0 then [buffer[end - 1]] else []);
      end := end + 1;
    }
    assert buffer[|buffer|..] == [];
  }

  datatype Line = Line(raw: Data, bytes: nat, oversized: bool)

  function Bounded(record: Data): Line {
    Line(record[..Min(|record|, MAX_RECORD)], |record|, |record| > MAX_RECORD)
  }

  datatype Got = Failed | AtEnd | Got(line: Line)

  /** Reads one record, however the reader fragments it: the result depends on
      the bytes alone, and no more than the budget is retained. */
  method ReadBoundedRecord(r: Reader) returns (got: Got)
    requires r.Valid()
    modifies r`pos
    ensures r.Valid()
    ensures got.AtEnd? ==> old(r.pos) == |r.data| && r.pos == old(r.pos)
    ensures got.Got? ==>
              && old(r.pos) < |r.data|
              && r.pos == old(r.pos) + FirstLength(r.data[old(r.pos)..])
              && got.line == Bounded(r.data[old(r.pos)..r.pos])
  {
    var line, closed := Line([], 0, false), false;
    ghost var start := r.pos;
    while !closed
      invariant r.Valid() && r.pos == start + line.bytes && line == Bounded(r.data[start..r.pos])
      invariant if closed then 0 < line.bytes == FirstLength(r.data[start..]) else NL !in r.data[start..r.pos]
      decreases !closed, |r.data| - r.pos
    {
      var ok, buffer := r.Fill();
      if !ok {
        return Failed;
      }
      if buffer == [] {
        if line.bytes == 0 {
          return AtEnd;
        }
        WholeRest(r.data[start..]);
        return Got(line);
      }
      var end;
      end, closed, line := TakeFragment(r.data, start, r.pos, buffer, line);
      r.Consume(end);
    }
    return Got(line);
  }

  /** Takes the part of a fragment that belongs to the record, and says whether
      it closes it. */
  method TakeFragment(ghost d: Data, ghost start: nat, ghost pos: nat, buffer: Data, line: Line)
    returns (end: nat, closed: bool, now: Line)
    requires start <= pos <= |d| && line == Bounded(d[start..pos]) && NL !in d[start..pos]
    requires buffer != [] && buffer <= d[pos..]
    ensures 0 < end <= |buffer| && now == Bounded(d[start..pos + end])
    ensures if closed then pos + end - start == FirstLength(d[start..]) else NL !in d[start..pos + end]
  {
    end := IndexAfterNewline(buffer);
    FirstRecord(buffer);
    MoreSeen(d, start, pos, buffer, end);
    var retained, oversized := Retain(d[start..pos], buffer[..end], line.raw, line.oversized);
    now := Line(retained, line.bytes + end, oversized);
    closed := buffer[end - 1] == NL;
    if closed {
      RecordFound(d[start..], d[start..pos], buffer, end);
    } else {
      assert buffer[..end] == buffer[..end - 1] + [buffer[end - 1]];
    }
  }

  lemma MoreSeen(d: Data, start: nat, pos: nat, buffer: Data, n: nat)
    requires start <= pos <= |d| && buffer <= d[pos..] && n <= |buffer|
    ensures d[start..pos + n] == d[start..pos] + buffer[..n]
    ensures d[start..pos] + buffer <= d[start..]
  {
  }

  /** Keeps what still fits: the front of everything read. */
  method Retain(ghost before: Data, piece: Data, retained: Data, oversized: bool) returns (now: Data, over: bool)
    requires retained == before[..Min(|before|, MAX_RECORD)] && (oversized <==> |before| > MAX_RECORD)
    ensures now == (before + piece)[..Min(|before + piece|, MAX_RECORD)]
    ensures over <==> |before + piece| > MAX_RECORD
  {
    var keep := Min(|piece|, MAX_RECORD - |retained|);
    now, over := retained + piece[..keep], oversized || keep < |piece|;
  }

  lemma {:induction false} WholeRest(d: Data)
    requires NL !in d
    ensures FirstLength(d) == |d|
  {
    if d == [] {
    } else {
      WholeRest(d[1..]);
    }
  }

  /** The first newline of the fragment closes the record. */
  lemma {:induction false} RecordFound(d: Data, before: Data, buffer: Data, end: nat)
    requires before + buffer <= d && NL !in before
    requires 0 < end <= |buffer| && end == FirstLength(buffer) && buffer[end - 1] == NL
    ensures FirstLength(d) == |before| + end
  {
    if before == [] {
      FirstOfLonger(buffer, d);
    } else {
      assert d[0] == (before + buffer)[0] == before[0];
      assert (before + buffer)[1..] == before[1..] + buffer;
      assert before[1..] + buffer <= d[1..];
      RecordFound(d[1..], before[1..], buffer, end);
    }
  }

  lemma {:induction false} FirstOfLonger(a: Data, d: Data)
    requires a <= d && a != [] && a[FirstLength(a) - 1] == NL
    ensures FirstLength(d) == FirstLength(a)
  {
    assert d[0] == a[0];
    if a[0] != NL {
      assert |a| > 1;
      FirstOfLonger(a[1..], d[1..]);
    }
  }

  // ---- replay

  datatype Progress = Progress(state: State, skipped: nat, valid: nat, seen: nat)

  datatype Applied = Refusing | Torn | Kept(progress: Progress)

  /** Applies one complete record. Another version is refused only in the first
      record; elsewhere a record that cannot be read is skipped, or, as the
      last one, torn. */
  function ApplyLine(c: Codec, line: Line, isLast: bool, p: Progress): Applied {
    var parsed := if line.oversized then GARBAGE else c.Parse(Strip(line.raw));
    var next := p.(valid := p.valid + line.bytes, seen := p.seen + 1);
    if p.seen == 0 && parsed.version.Some? && parsed.version != Some(VERSION) then Refusing
    else if parsed.event.None? then if isLast then Torn else Kept(next.(skipped := p.skipped + 1))
    else Kept(next.(state := Apply(p.state, parsed.event.value)))
  }

  /** The first record is of another version. */
  predicate Foreign(c: Codec, records: seq<Data>) {
    records != [] && var v := Read(c, records[0]).version; v.Some? && v != Some(VERSION)
  }

  function Unreadable(c: Codec, records: seq<Data>): nat {
    if records == [] then 0
    else if Decoded(c, records[|records| - 1]) == [] then Unreadable(c, records[..|records| - 1]) + 1
    else Unreadable(c, records[..|records| - 1])
  }

  function Length(records: seq<Data>): nat {
    if records == [] then 0 else Length(records[..|records| - 1]) + |records[|records| - 1]|
  }

  /** What is known after the given records, none of them torn. */
  ghost function After(c: Codec, records: seq<Data>): Progress {
    Progress(Fold(EventsOf(c, records)), Unreadable(c, records), Length(records), |records|)
  }

  lemma AfterOne(c: Codec, records: seq<Data>, record: Data)
    ensures var n := records + [record];
      && Fold(EventsOf(c, n)) == (if Decoded(c, record) == [] then Fold(EventsOf(c, records))
                                  else Apply(Fold(EventsOf(c, records)), Decoded(c, record)[0]))
      && Unreadable(c, n) == (if Decoded(c, record) == [] then Unreadable(c, records) + 1 else Unreadable(c, records))
      && Length(n) == Length(records) + |record|
  {
    EventsConcat(c, records, [record]);
    EventsOfOne(c, record);
    assert (records + [record])[..|records|] == records;
    if Decoded(c, record) == [] {
      assert EventsOf(c, records) + [] == EventsOf(c, records);
    } else {
      assert Decoded(c, record) == [Decoded(c, record)[0]];
      FoldAppend(EventsOf(c, records), Decoded(c, record)[0]);
    }
  }

  /** Applying the bounded form of a record does what the record means. */
  lemma ApplyIsAfter(c: Codec, records: seq<Data>, record: Data, isLast: bool)
    ensures ApplyLine(c, Bounded(record), isLast, After(c, records))
         == if Foreign(c, records + [record]) && records == [] then Refusing
            else if isLast && Decoded(c, record) == [] then Torn
            else Kept(After(c, records + [record]))
  {
    AfterOne(c, records, record);
    BoundedReads(c, record);
  }

  lemma BoundedReads(c: Codec, record: Data)
    ensures (if Bounded(record).oversized then GARBAGE else c.Parse(Strip(Bounded(record).raw))) == Read(c, record)
  {
    if |record| <= MAX_RECORD {
      assert Bounded(record).raw == record;
    }
  }

  datatype Loading = ReadFailed | Refused | Loaded(state: State, torn: bool, valid: nat, skipped: nat)

  /** What loading means, on the split records. */
  ghost predicate Replayed(c: Codec, records: seq<Data>, l: Loading) {
    match l
    case ReadFailed => true
    case Refused => Foreign(c, records)
    case Loaded(state, torn, valid, skipped) =>
      var all := After(c, records);
      && !Foreign(c, records)
      && state == all.state
      && (torn <==> records != [] && Decoded(c, records[|records| - 1]) == [])
      && (!torn ==> valid == all.valid && skipped == all.skipped)
      && (torn ==> valid == Length(records[..|records| - 1]) && skipped == Unreadable(c, records[..|records| - 1]))
  }

  /** Replays a journal with one record of lookahead, which tells a torn final
      append from an unreadable interior record. */
  method LoadState(c: Codec, data: Data) returns (l: Loading)
    ensures Replayed(c, Records(data), l)
  {
    var reader := new Reader(data);
    var p := Progress(EMPTY, 0, 0, 0);
    var pending: Option<Line> := None;
    ghost var done: seq<Data> := [];
    ghost var ahead: seq<Data> := [];
    assert data[0..] == data;
    while true
      invariant reader.Valid() && reader.data == data
      invariant SplitOff(data, done, ahead, reader.pos)
      invariant p == After(c, done) && !Foreign(c, done)
      invariant pending.None? ==> ahead == [] && done == []
      invariant pending.Some? ==> |ahead| == 1 && pending.value == Bounded(ahead[0])
      decreases |data| - reader.pos
    {
      ghost var from := reader.pos;
      var got := ReadBoundedRecord(reader);
      if got.Failed? {
        return ReadFailed;
      }
      if got.AtEnd? {
        assert Records(data) == done + ahead;
        if pending.None? {
          return Loaded(p.state, false, p.valid, p.skipped);
        }
        assert ahead == [ahead[0]];
        FinishIsReplay(c, done, ahead[0]);
        return Finish(c, pending.value, p);
      }
      if pending.Some? {
        assert ahead == [ahead[0]];
        InteriorIsReplay(c, done, ahead[0], Records(data[from..]));
        var applied := ApplyLine(c, pending.value, false, p);
        if applied.Refusing? {
          return Refused;
        }
        p := applied.progress;
      }
      SplitMore(data, done, ahead, from, reader.pos);
      pending := Some(got.line);
      done, ahead := done + ahead, [data[from..reader.pos]];
    }
  }

  /** The last record ends the replay, as one more or as a torn one. */
  function Finish(c: Codec, line: Line, p: Progress): Loading {
    match ApplyLine(c, line, true, p)
    case Refusing => Refused
    case Torn => Loaded(p.state, true, p.valid, p.skipped)
    case Kept(next) => Loaded(next.state, false, next.valid, next.skipped)
  }

  lemma FinishIsReplay(c: Codec, done: seq<Data>, record: Data)
    requires !Foreign(c, done)
    ensures Replayed(c, done + [record], Finish(c, Bounded(record), After(c, done)))
  {
    ApplyIsAfter(c, done, record, true);
    AfterOne(c, done, record);
    assert (done + [record])[..|done|] == done;
    assert done != [] ==> (done + [record])[0] == done[0];
  }

  lemma InteriorIsReplay(c: Codec, done: seq<Data>, record: Data, rest: seq<Data>)
    requires !Foreign(c, done)
    ensures match ApplyLine(c, Bounded(record), false, After(c, done))
      case Refusing => Foreign(c, done + [record] + rest)
      case Torn => false
      case Kept(p) => p == After(c, done + [record]) && !Foreign(c, done + [record])
  {
    ApplyIsAfter(c, done, record, false);
    assert (done + [record] + rest)[0] == (done + [record])[0];
    assert done != [] ==> (done + [record])[0] == done[0];
  }

  /** The records up to a position, the last of them held back. */
  ghost predicate SplitOff(data: Data, done: seq<Data>, ahead: seq<Data>, position: nat) {
    position <= |data| && Records(data) == done + ahead + Records(data[position..])
  }

  lemma SplitMore(data: Data, done: seq<Data>, ahead: seq<Data>, from: nat, to: nat)
    requires SplitOff(data, done, ahead, from) && from < |data| && to == from + FirstLength(data[from..]) <= |data|
    ensures SplitOff(data, done + ahead, [data[from..to]], to)
  {
    SplitAt(data, from, to);
    assert done + ahead + ([data[from..to]] + Records(data[to..]))
        == done + ahead + [data[from..to]] + Records(data[to..]);
  }

  lemma SplitAt(data: Data, from: nat, to: nat)
    requires from < |data| && to == from + FirstLength(data[from..])
    ensures Records(data[from..]) == [data[from..to]] + Records(data[to..])
  {
    var d := data[from..];
    assert d[..FirstLength(d)] == data[from..to] && d[FirstLength(d)..] == data[to..];
  }

  /** The bytes kept are the file, less the torn record. */
  lemma {:induction false} LengthOfRecords(d: Data)
    ensures Length(Records(d)) == |d|
    decreases |d|
  {
    if d == [] {
    } else {
      var n := FirstLength(d);
      LengthOfRecords(d[n..]);
      LengthFront(d[..n], Records(d[n..]));
    }
  }

  lemma {:induction false} LengthFront(record: Data, records: seq<Data>)
    ensures Length([record] + records) == |record| + Length(records)
  {
    var all := [record] + records;
    if records == [] {
      assert all == [record] && all[..0] == [];
      assert Length(all) == Length(all[..0]) + |record|;
    } else {
      assert all[..|all| - 1] == [record] + records[..|records| - 1];
      LengthFront(record, records[..|records| - 1]);
    }
  }

  /** An unreadable interior record changes the skip count and nothing else. */
  lemma InteriorGarbage(c: Codec, before: seq<Data>, bad: Data, after: seq<Data>)
    requires Decoded(c, bad) == []
    ensures EventsOf(c, before + [bad] + after) == EventsOf(c, before + after)
    ensures Unreadable(c, before + [bad] + after) == Unreadable(c, before + after) + 1
  {
    GarbageAddsNothing(c, before, bad);
    EventsConcat(c, before + [bad], after);
    EventsConcat(c, before, after);
    UnreadableConcat(c, before + [bad], after);
    UnreadableConcat(c, before, after);
  }

  lemma GarbageAddsNothing(c: Codec, before: seq<Data>, bad: Data)
    requires Decoded(c, bad) == []
    ensures EventsOf(c, before + [bad]) == EventsOf(c, before)
    ensures Unreadable(c, before + [bad]) == Unreadable(c, before) + 1
  {
    EventsConcat(c, before, [bad]);
    EventsOfOne(c, bad);
    assert EventsOf(c, before) + [] == EventsOf(c, before);
    assert (before + [bad])[..|before|] == before;
  }

  lemma {:induction false} UnreadableConcat(c: Codec, a: seq<Data>, b: seq<Data>)
    ensures Unreadable(c, a + b) == Unreadable(c, a) + Unreadable(c, b)
  {
    if b == [] {
      assert a + b == a;
    } else {
      UnreadableConcat(c, a, b[..|b| - 1]);
      assert (a + b)[..|a + b| - 1] == a + b[..|b| - 1];
    }
  }
}
