/**
  Counting the disk runs of a file from pages of extent records. The device may
  answer anything; what is counted depends on the runs alone.
*/
module Extents {
  import opened Bytes

  const HOLE: int := -1
  const I64_MAX: int := 0x7FFF_FFFF_FFFF_FFFF

  /** A stretch of the file: so many clusters, at a disk location or in a hole. */
  datatype Run = Run(clusters: int, location: int)

  /** A record as returned: where the stretch ends in the file, and where it is. */
  datatype Record = Record(nextVcn: int, location: int)

  ghost predicate Proper(runs: seq<Run>) {
    forall r :: r in runs ==> r.clusters > 0 && r.location >= HOLE
  }

  /** The runs that do not start where the previous data run ended. */
  function Breaks(runs: seq<Run>, expected: Option<int>): nat {
    if runs == [] then 0
    else if runs[0].location == HOLE then Breaks(runs[1..], expected)
    else
      var rest := Breaks(runs[1..], Some(runs[0].location + runs[0].clusters));
      if expected == Some(runs[0].location) then rest else rest + 1
  }

  /** Where the next data run would have to start to be adjacent. */
  function EndOf(runs: seq<Run>, expected: Option<int>): Option<int> {
    if runs == [] then expected
    else if runs[0].location == HOLE then EndOf(runs[1..], expected)
    else EndOf(runs[1..], Some(runs[0].location + runs[0].clusters))
  }

  lemma {:induction false} BreaksConcat(a: seq<Run>, b: seq<Run>, expected: Option<int>)
    ensures Breaks(a + b, expected) == Breaks(a, expected) + Breaks(b, EndOf(a, expected))
    ensures EndOf(a + b, expected) == EndOf(b, EndOf(a, expected))
  {
    if a == [] {
      assert a + b == b;
    } else {
      assert (a + b)[1..] == a[1..] + b;
      BreaksConcat(a[1..], b, if a[0].location == HOLE then expected else Some(a[0].location + a[0].clusters));
    }
  }

  /** Holes do not count. */
  lemma HoleIgnored(a: seq<Run>, clusters: int, b: seq<Run>)
    ensures Breaks(a + [Run(clusters, HOLE)] + b, None) == Breaks(a + b, None)
  {
    BreaksConcat(a + [Run(clusters, HOLE)], b, None);
    BreaksConcat(a, [Run(clusters, HOLE)], None);
    BreaksConcat(a, b, None);
  }

  /** Splitting a data run into adjacent records changes nothing. */
  lemma SplitIgnored(a: seq<Run>, first: int, second: int, location: int, b: seq<Run>)
    requires location >= 0 && first > 0
    ensures Breaks(a + [Run(first, location), Run(second, location + first)] + b, None)
         == Breaks(a + [Run(first + second, location)] + b, None)
  {
    var whole, parts := [Run(first + second, location)], [Run(first, location), Run(second, location + first)];
    var e := EndOf(a, None);
    assert parts == [parts[0]] + [parts[1]];
    BreaksConcat([parts[0]], [parts[1]], e);
    BreaksConcat(a + whole, b, None);
    BreaksConcat(a + parts, b, None);
    BreaksConcat(a, whole, None);
    BreaksConcat(a, parts, None);
  }

  /** Run j is the data run before position i, with nothing but holes between. */
  ghost predicate JustBefore(runs: seq<Run>, j: int, i: int) {
    && 0 <= j < i <= |runs| && runs[j].location != HOLE
    && forall k :: j < k < i ==> runs[k].location == HOLE
  }

  /** A data run that is not adjacent on disk to the data run before it, if there
      is one. */
  ghost predicate StartsNew(runs: seq<Run>, i: int)
    requires 0 <= i < |runs|
  {
    && runs[i].location != HOLE
    && forall j :: JustBefore(runs, j, i) ==> !EndsAt(runs[j], runs[i].location)
  }

  ghost function NewStarts(runs: seq<Run>, n: nat): nat
    requires n <= |runs|
  {
    if n == 0 then 0
    else if StartsNew(runs, n - 1) then NewStarts(runs, n - 1) + 1
    else NewStarts(runs, n - 1)
  }

  /** The count is the number of data runs that start a new stretch of disk. */
  lemma {:induction false} BreaksMeans(runs: seq<Run>, n: nat)
    requires n <= |runs|
    ensures Breaks(runs[..n], None) == NewStarts(runs, n)
    ensures LastEnd(runs, n, EndOf(runs[..n], None))
  {
    if n == 0 {
    } else {
      BreaksMeans(runs, n - 1);
      var last := runs[n - 1];
      assert runs[..n] == runs[..n - 1] + [last];
      BreaksConcat(runs[..n - 1], [last], None);
      var e := EndOf(runs[..n - 1], None);
      OneRun(last, e);
      assert EndOf(runs[..n], None) == EndOf([last], e);
      NewStart(runs, n - 1, e);
      EndMoves(runs, n - 1, e);
    }
  }

  /** The end on disk of the data run before position i, if there is one. */
  ghost predicate LastEnd(runs: seq<Run>, i: int, e: Option<int>) {
    && (e.None? ==> forall j :: !JustBefore(runs, j, i))
    && (e.Some? ==> exists j :: JustBefore(runs, j, i) && EndsAt(runs[j], e.value))
  }

  predicate EndsAt(r: Run, location: int) { r.location + r.clusters == location }

  lemma EndMoves(runs: seq<Run>, i: nat, e: Option<int>)
    requires i < |runs| && LastEnd(runs, i, e)
    ensures LastEnd(runs, i + 1, EndOf([runs[i]], e))
  {
    OneRun(runs[i], e);
    if runs[i].location == HOLE {
      HoleBefore(runs, i, i + 1);
      if e.Some? {
        var j :| JustBefore(runs, j, i) && EndsAt(runs[j], e.value);
        assert JustBefore(runs, j, i + 1);
      }
    } else {
      assert JustBefore(runs, i, i + 1) && EndsAt(runs[i], runs[i].location + runs[i].clusters);
    }
  }

  lemma OneRun(r: Run, e: Option<int>)
    ensures Breaks([r], e) == if r.location == HOLE || e == Some(r.location) then 0 else 1
    ensures EndOf([r], e) == if r.location == HOLE then e else Some(r.location + r.clusters)
  {
  }

  lemma HoleBefore(runs: seq<Run>, i: nat, next: nat)
    requires i < |runs| && runs[i].location == HOLE && next == i + 1
    ensures forall j :: JustBefore(runs, j, next) <==> JustBefore(runs, j, i)
  {
    forall j ensures JustBefore(runs, j, next) <==> JustBefore(runs, j, i) {
    }
  }

  lemma NewStart(runs: seq<Run>, i: nat, e: Option<int>)
    requires i < |runs| && LastEnd(runs, i, e)
    ensures StartsNew(runs, i) <==> runs[i].location != HOLE && e != Some(runs[i].location)
  {
    if e.Some? {
      var j :| JustBefore(runs, j, i) && EndsAt(runs[j], e.value);
      forall k | JustBefore(runs, k, i) ensures k == j {
      }
    }
  }

  // ---- the device

  datatype Answer = EndOfFile | Failed | Page(more: bool, records: seq<Record>)

  /** The records of these runs, from a file position on. */
  function RecordsOf(runs: seq<Run>, vcn: int): (records: seq<Record>)
    ensures |records| == |runs|
  {
    if runs == [] then []
    else [Record(vcn + runs[0].clusters, runs[0].location)] + RecordsOf(runs[1..], vcn + runs[0].clusters)
  }

  /** The clusters of these runs. */
  function Clusters(runs: seq<Run>): int {
    if runs == [] then 0 else runs[0].clusters + Clusters(runs[1..])
  }

  /** The records of some runs from the given one on, and whether more follow. */
  ghost predicate IsPage(runs: seq<Run>, records: seq<Record>, at: nat, more: bool, cursor: int) {
    exists n :: IsPageTo(runs, records, at, n, more, cursor)
  }

  ghost predicate IsPageTo(runs: seq<Run>, records: seq<Record>, at: nat, n: int, more: bool, cursor: int) {
    at < n <= |runs| && records == RecordsOf(runs[at..n], cursor) && (more <==> n < |runs|)
  }

  /** A file's runs, handed out in pages of any size. A device that is not
      `faithful` may answer anything. */
  class Device {
    const runs: seq<Run>
    const faithful: bool

    ghost predicate Valid() { Proper(runs) }

    constructor (runs: seq<Run>, faithful: bool)
      requires Proper(runs)
      ensures Valid() && this.runs == runs && this.faithful == faithful
    {
      this.runs, this.faithful := runs, faithful;
    }

    method Query(cursor: int, ghost at: nat) returns (a: Answer)
      requires Valid() && at <= |runs|
      ensures faithful && cursor == Clusters(runs[..at]) && a.Page? ==>
                IsPage(runs, a.records, at, a.more, cursor)
      ensures faithful && cursor == Clusters(runs[..at]) && a.EndOfFile? ==> at == |runs|
    {
      var any: Answer := *;
      if !faithful {
        return any;
      }
      var fails: bool := *;
      var from := FindAt(cursor);
      if fails || from.None? {
        return Failed;
      }
      if cursor == Clusters(runs[..at]) {
        UniqueAt(at, from.value);
      }
      if from.value == |runs| {
        return EndOfFile;
      }
      assert from.value < |runs| <= |runs|;
      var n: nat :| from.value < n <= |runs|;
      assert IsPageTo(runs, RecordsOf(runs[from.value..n], cursor), from.value, n, n < |runs|, cursor);
      return Page(n < |runs|, RecordsOf(runs[from.value..n], cursor));
    }

    /** The run that starts at this file position. */
    method FindAt(cursor: int) returns (at: Option<nat>)
      ensures at.Some? ==> at.value <= |runs| && cursor == Clusters(runs[..at.value])
      ensures at.None? ==> forall k :: 0 <= k <= |runs| ==> cursor != Clusters(runs[..k])
    {
      for k := 0 to |runs| + 1
        invariant forall i :: 0 <= i < k ==> cursor != Clusters(runs[..i])
      {
        if cursor == Clusters(runs[..k]) {
          return Some(k);
        }
      }
      return None;
    }

    lemma UniqueAt(i: nat, j: nat)
      requires Valid() && i <= |runs| && j <= |runs|
      ensures i != j ==> Clusters(runs[..i]) != Clusters(runs[..j])
    {
      if i < j {
        ClustersGrow(runs, i, j);
      } else if j < i {
        ClustersGrow(runs, j, i);
      }
    }
  }

  lemma {:induction false} ClustersGrow(runs: seq<Run>, i: nat, j: nat)
    requires Proper(runs) && i < j <= |runs|
    ensures Clusters(runs[..i]) < Clusters(runs[..j])
    decreases j
  {
    assert runs[..j] == runs[..j - 1] + [runs[j - 1]];
    ClustersConcat(runs[..j - 1], [runs[j - 1]]);
    assert Clusters([runs[j - 1]]) == runs[j - 1].clusters + Clusters([]);
    assert runs[j - 1] in runs;
    if i == j - 1 {
    } else {
      ClustersGrow(runs, i, j - 1);
    }
  }

  lemma {:induction false} ClustersConcat(a: seq<Run>, b: seq<Run>)
    ensures Clusters(a + b) == Clusters(a) + Clusters(b)
  {
    if a == [] {
      assert a + b == b;
    } else {
      assert (a + b)[1..] == a[1..] + b;
      ClustersConcat(a[1..], b);
    }
  }

  // ---- the count

  datatype Counting = Corrupt | Counting(count: nat, cursor: int, expected: Option<int>)

  /** Goes over one page. Each record must advance the position and lie at a
      location that does not overflow. */
  method CountPage(records: seq<Record>, count: nat, cursor: int, expected: Option<int>)
    returns (r: Counting, ghost runs: seq<Run>)
    requires 0 <= cursor <= I64_MAX && forall k :: 0 <= k < |records| ==> records[k].nextVcn <= I64_MAX
    ensures r.Counting? ==>
              && Proper(runs) && records == RecordsOf(runs, cursor) && |runs| == |records|
              && r.count == count + Breaks(runs, expected) && r.expected == EndOf(runs, expected)
              && r.cursor == cursor + Clusters(runs) && (records != [] ==> r.cursor > cursor) && r.cursor <= I64_MAX
    ensures r.Corrupt? ==>
              !exists good :: Proper(good) && records == RecordsOf(good, cursor) && Bounded(good)
  {
    var n, previous, e := count, cursor, expected;
    runs := [];
    for k := 0 to |records|
      invariant |runs| == k && Proper(runs) && RecordsOf(runs, cursor) == records[..k]
      invariant n == count + Breaks(runs, expected) && e == EndOf(runs, expected)
      invariant previous == cursor + Clusters(runs) && (k > 0 ==> previous > cursor) && previous <= I64_MAX
    {
      var r := records[k];
      if r.nextVcn <= previous || r.location < HOLE
         || (r.location != HOLE && r.location + (r.nextVcn - previous) > I64_MAX) {
        forall good ensures !(Proper(good) && records == RecordsOf(good, cursor) && Bounded(good)) {
          if Proper(good) && records == RecordsOf(good, cursor) {
            SamePrefix(good, runs, cursor, k);
          }
        }
        return Corrupt, runs;
      }
      var run := Run(r.nextVcn - previous, r.location);
      BreaksConcat(runs, [run], expected);
      ClustersConcat(runs, [run]);
      RecordsConcat(runs, [run], cursor);
      assert records[..k + 1] == records[..k] + [records[k]];
      OneRun(run, e);
      if r.location != HOLE {
        n := if e != Some(r.location) then n + 1 else n;
        e := Some(r.location + run.clusters);
      }
      runs, previous := runs + [run], r.nextVcn;
    }
    assert records[..|records|] == records;
    return Counting(n, previous, e), runs;
  }

  /** No run ends beyond what a location can say. */
  ghost predicate Bounded(runs: seq<Run>) {
    forall r :: r in runs ==> r.location == HOLE || r.location + r.clusters <= I64_MAX
  }

  lemma {:induction false} RecordsConcat(a: seq<Run>, b: seq<Run>, vcn: int)
    ensures RecordsOf(a + b, vcn) == RecordsOf(a, vcn) + RecordsOf(b, vcn + Clusters(a))
  {
    if a == [] {
      assert a + b == b;
    } else {
      assert (a + b)[1..] == a[1..] + b;
      RecordsConcat(a[1..], b, vcn + a[0].clusters);
    }
  }

  /** Records determine their runs. */
  lemma {:induction false} SamePrefix(good: seq<Run>, runs: seq<Run>, vcn: int, k: nat)
    requires |runs| == k < |RecordsOf(good, vcn)| && RecordsOf(runs, vcn) == RecordsOf(good, vcn)[..k]
    ensures |good| > k && good[..k] == runs
    ensures RecordsOf(good, vcn)[k] == Record(vcn + Clusters(runs) + good[k].clusters, good[k].location)
    ensures good[k] in good
  {
    if k == 0 {
    } else {
      assert RecordsOf(good, vcn)[0] == RecordsOf(runs, vcn)[0];
      assert RecordsOf(good, vcn)[1..] == RecordsOf(good[1..], vcn + good[0].clusters);
      assert RecordsOf(runs, vcn)[1..] == RecordsOf(runs[1..], vcn + good[0].clusters);
      SamePrefix(good[1..], runs[1..], vcn + good[0].clusters, k - 1);
      assert good[..k] == [good[0]] + good[1..][..k - 1] && runs == [runs[0]] + runs[1..];
    }
  }

  datatype Result = Error | Count(extents: nat)

  /** Counts the extents, page by page. For a faithful device the result is that
      of its runs, however they are paged; and if they are within the numbers it
      has, an error is the device's own. */
  method ExtentCount(d: Device) returns (r: Result, failed: bool, ghost seen: seq<Run>)
    requires d.Valid()
    ensures d.faithful && Bounded(d.runs) && Clusters(d.runs) <= I64_MAX ==> (r.Error? <==> failed)
    ensures r.Count? ==> Proper(seen) && r.extents == Breaks(seen, None)
    ensures d.faithful && r.Count? ==> seen == d.runs
    ensures d.faithful && r.Count? ==> r.extents == Breaks(d.runs, None)
  {
    var count: nat, cursor: int, expected: Option<int> := 0, 0, None;
    seen, failed := [], false;
    assert d.runs[..0] == [];
    while true
      invariant Proper(seen) && 0 <= cursor <= I64_MAX && cursor == Clusters(seen)
      invariant count == Breaks(seen, None) && expected == EndOf(seen, None)
      invariant (d.faithful ==> seen <= d.runs) && !failed
      decreases I64_MAX - cursor
    {
      ghost var at := if d.faithful then |seen| else 0;
      assert d.faithful ==> d.runs[..at] == seen;
      var a := d.Query(cursor, at);
      match a {
        case EndOfFile =>
          assert d.faithful ==> d.runs[..|d.runs|] == d.runs;
          return Count(count), false, seen;
        case Failed => return Error, true, seen;
        case Page(more, records) =>
          if records == [] {
            return if more then Error else Count(count), false, seen;
          }
          var ok;
          ok, count, cursor, expected, seen := TakePage(d, more, records, at, count, cursor, expected, seen);
          if !ok {
            return Error, false, seen;
          }
          if !more {
            assert d.faithful ==> d.runs[..|d.runs|] == d.runs;
            return Count(count), false, seen;
          }
      }
    }
  }

  /** Counts a page that is not empty. */
  method TakePage(d: Device, more: bool, records: seq<Record>, ghost at: nat, count: nat, cursor: int,
                  expected: Option<int>, ghost seen: seq<Run>)
    returns (ok: bool, n: nat, next: int, e: Option<int>, ghost now: seq<Run>)
    requires d.Valid() && records != [] && Proper(seen) && 0 <= cursor <= I64_MAX && cursor == Clusters(seen)
    requires count == Breaks(seen, None) && expected == EndOf(seen, None)
    requires d.faithful ==> at <= |d.runs| && d.runs[..at] == seen && IsPage(d.runs, records, at, more, cursor)
    ensures d.faithful && Bounded(d.runs) && Clusters(d.runs) <= I64_MAX ==> ok
    ensures ok ==> Proper(now) && cursor < next <= I64_MAX && next == Clusters(now)
    ensures ok ==> n == Breaks(now, None) && e == EndOf(now, None)
    ensures ok && d.faithful ==> now <= d.runs && (!more ==> now == d.runs)
  {
    ok, n, next, e, now := false, count, cursor, expected, seen;
    if d.faithful {
      ghost var end :| IsPageTo(d.runs, records, at, end, more, cursor);
      PageBounded(d.runs, at, end, cursor);
    }
    if exists k :: 0 <= k < |records| && records[k].nextVcn > I64_MAX {
      return;
    }
    var c;
    ghost var runs;
    c, runs := CountPage(records, count, cursor, expected);
    if c.Corrupt? {
      return;
    }
    BreaksConcat(seen, runs, None);
    ClustersConcat(seen, runs);
    if d.faithful {
      ghost var end :| IsPageTo(d.runs, records, at, end, more, cursor);
      SameRuns(runs, d.runs[at..end], cursor);
      assert seen + runs == d.runs[..end];
    }
    ok, n, next, e, now := true, c.count, c.cursor, c.expected, seen + runs;
  }

  /** The records of a page lie within the runs' own numbers. */
  lemma PageBounded(runs: seq<Run>, at: nat, n: nat, cursor: int)
    requires Proper(runs) && at < n <= |runs| && cursor == Clusters(runs[..at])
    ensures Proper(runs[at..n]) && (Bounded(runs) ==> Bounded(runs[at..n]))
    ensures forall k :: 0 <= k < n - at ==> RecordsOf(runs[at..n], cursor)[k].nextVcn <= Clusters(runs)
  {
    var page := runs[at..n];
    forall k | 0 <= k < n - at ensures RecordsOf(page, cursor)[k].nextVcn <= Clusters(runs) {
      RecordAt(page, cursor, k);
      assert runs[..at] + page[..k + 1] == runs[..at + k + 1];
      ClustersConcat(runs[..at], page[..k + 1]);
      assert runs[..|runs|] == runs;
      if at + k + 1 < |runs| {
        ClustersGrow(runs, at + k + 1, |runs|);
      }
    }
  }

  lemma {:induction false} RecordAt(runs: seq<Run>, vcn: int, k: nat)
    requires k < |runs|
    ensures RecordsOf(runs, vcn)[k].nextVcn == vcn + Clusters(runs[..k + 1])
  {
    assert runs[..k + 1] == [runs[0]] + runs[1..][..k];
    if k == 0 {
      assert Clusters(runs[..1]) == runs[0].clusters;
    } else {
      RecordAt(runs[1..], vcn + runs[0].clusters, k - 1);
      assert runs[..k + 1][1..] == runs[1..][..k];
    }
  }

  lemma {:induction false} SameRuns(a: seq<Run>, b: seq<Run>, vcn: int)
    requires RecordsOf(a, vcn) == RecordsOf(b, vcn)
    ensures a == b
  {
    if a == [] {
    } else {
      assert RecordsOf(a, vcn)[0] == RecordsOf(b, vcn)[0];
      assert RecordsOf(a, vcn)[1..] == RecordsOf(a[1..], vcn + a[0].clusters);
      assert RecordsOf(b, vcn)[1..] == RecordsOf(b[1..], vcn + b[0].clusters);
      SameRuns(a[1..], b[1..], vcn + a[0].clusters);
      assert a == [a[0]] + a[1..] && b == [b[0]] + b[1..];
    }
  }
}
