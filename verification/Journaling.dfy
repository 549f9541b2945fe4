/**
  The append-only checkpoint journal over a file whose writes, truncations and
  flushes may fail part-way.
*/
module Journaling {
  import opened Bytes
  import opened JournalRecords
  import opened JournalCodec
  import opened JournalLines
  import opened JournalLoad

  /** A file that may fail: a failed write may leave any prefix behind. */
  class File {
    var bytes: Data

    constructor (bytes: Data)
      ensures this.bytes == bytes
    {
      this.bytes := bytes;
    }

    method Write(d: Data) returns (ok: bool)
      modifies this
      ensures old(bytes) <= bytes <= old(bytes) + d
      ensures ok ==> bytes == old(bytes) + d
      ensures !ok && d != [] ==> |bytes| < |old(bytes)| + |d|
    {
      ok := *;
      var n: nat :| n >= 0;
      bytes := bytes + if ok || d == [] then d else d[..Min(n, |d| - 1)];
    }

    method SetLength(n: nat) returns (ok: bool)
      requires n <= |bytes|
      modifies this
      ensures bytes == if ok then old(bytes)[..n] else old(bytes)
    {
      ok := *;
      if ok {
        bytes := bytes[..n];
      }
    }

    /** The new content becomes visible as a whole or not at all; it may have
        become visible although the call fails, in what follows the rename. */
    method Publish(d: Data) returns (ok: bool)
      modifies this
      ensures bytes == d || (!ok && bytes == old(bytes))
    {
      var renamed: bool := *;
      ok := false;
      if renamed {
        bytes := d;
        ok := *;
      }
    }
  }

  // ---- the state of the file after an append

  /** The file after all of the record's line, or the first n of its bytes. */
  function Written(c: Codec, d: Data, e: Event, n: nat): Data
    requires n <= |c.Line(e)|
  {
    Healed(d) + c.Line(e)[..n]
  }

  /** What a complete record of an event adds on replay. */
  function Adds(c: Codec, e: Event): seq<Event> { if c.Fits(e) then [e] else [] }

  /** Every possible result of an append that reached the record itself. */
  lemma WrittenSurvivors(c: Codec, d: Data, e: Event, n: nat)
    requires c.Sound() && n <= |c.Line(e)|
    ensures || Survivors(c, Written(c, d, e, n)) == HealedEvents(c, d)
            || Survivors(c, Written(c, d, e, n)) == HealedEvents(c, d) + [e]
    ensures n == |c.Line(e)| ==> Survivors(c, Written(c, d, e, n)) == HealedEvents(c, d) + Adds(c, e)
  {
    var p := c.Line(e)[..n];
    if n == |c.Line(e)| {
      assert p == c.Line(e);
      AppendAdds(c, d, e);
    } else {
      assert p == c.Encode(e)[..n];
      if n < |c.Encode(e)| {
        TornAppend(c, d, e, n);
      } else {
        assert p == c.Encode(e);
        UnclosedAppend(c, d, e);
      }
    }
  }

  /** A beginning of the line after a closed file is one more own record. */
  lemma PieceGenuine(c: Codec, d: Data, e: Event, n: nat)
    requires c.Sound() && Closed(d) && Genuine(c, d) && c.Cuttable(e) && n <= |c.Line(e)|
    ensures Genuine(c, d + c.Line(e)[..n])
  {
    var p := c.Line(e)[..n];
    GenuineSplit(c, d, p);
    if p != [] {
      var m := if n == |c.Line(e)| then n - 1 else n;
      assert p[..n - 1] == c.Encode(e)[..n - 1];
      OneRecord(p);
      assert p == c.Encode(e)[..m] || p == c.Encode(e)[..m] + [NL];
      assert IsPiece(c, e, m, p);
    }
  }

  lemma HealedGenuine(c: Codec, d: Data)
    requires c.Sound() && Genuine(c, d)
    ensures Genuine(c, Healed(d))
  {
    if !Closed(d) {
      var b, t := Body(d), Tail(d);
      BodyAndTail(d);
      GenuineSplit(c, b, t);
      OneRecord(t);
      assert t in Records(t);
      ClosedPiece(c, t);
      assert (t + [NL])[..|t|] == t;
      OneRecord(t + [NL]);
      GenuineSplit(c, b, t + [NL]);
      assert d + [NL] == b + (t + [NL]);
    }
  }

  lemma ClosedPiece(c: Codec, t: Data)
    requires Own(c, t) && NL !in t
    ensures Own(c, t + [NL])
  {
    var e: Event, n: nat :| IsPiece(c, e, n, t);
    assert (c.Encode(e)[..n] + [NL])[n] == NL;
    assert IsPiece(c, e, n, t + [NL]);
  }

  // ---- appending one record

  /** What an append may make of a file: nothing is merged, at most a brittle
      tail is lost, and the event is added or not. */
  ghost predicate Outcome(c: Codec, before: Data, e: Event, now: Data) {
    && (|| Survivors(c, now) == Survivors(c, before)
        || Survivors(c, now) == HealedEvents(c, before)
        || Survivors(c, now) == HealedEvents(c, before) + [e])
    && (Genuine(c, before) && c.Cuttable(e) ==> Genuine(c, now))
  }

  lemma UnwrittenOutcome(c: Codec, d: Data, e: Event)
    requires c.Sound()
    ensures Outcome(c, d, e, d) && Outcome(c, d, e, Healed(d))
  {
    if Genuine(c, d) {
      HealedGenuine(c, d);
    }
  }

  lemma WrittenOutcome(c: Codec, d: Data, e: Event, n: nat)
    requires c.Sound() && n <= |c.Line(e)|
    ensures Outcome(c, d, e, Written(c, d, e, n))
    ensures n == |c.Line(e)| ==> Survivors(c, Written(c, d, e, n)) == HealedEvents(c, d) + Adds(c, e)
  {
    WrittenSurvivors(c, d, e, n);
    if Genuine(c, d) && c.Cuttable(e) {
      HealedGenuine(c, d);
      HealKeeps(c, d);
      PieceGenuine(c, Healed(d), e, n);
    }
  }

  /** Adds the newline an interrupted append may have left out. */
  method HealTail(file: File) returns (ok: bool)
    modifies file
    ensures file.bytes == old(file.bytes) || file.bytes == Healed(old(file.bytes))
    ensures ok ==> file.bytes == Healed(old(file.bytes))
  {
    ok := *;
    if ok && file.bytes != [] && file.bytes[|file.bytes| - 1] != NL {
      ok := file.Write([NL]);
      assert file.bytes == old(file.bytes) || file.bytes == old(file.bytes) + [NL];
    }
  }

  /** Writes the line; a failed write is rolled back if that succeeds. */
  method WriteLine(file: File, line: Data) returns (ok: bool, ghost n: nat)
    modifies file
    ensures n <= |line| && file.bytes == old(file.bytes) + line[..n]
    ensures ok ==> n == |line|
  {
    var before := |file.bytes|;
    ok := file.Write(line);
    n := |file.bytes| - before;
    if !ok {
      var rolledBack := file.SetLength(before);
      n := if rolledBack then 0 else n;
    }
  }

  /** Appends one record: heals the tail, writes the line and flushes it. */
  method AppendRecord(c: Codec, file: File, e: Event) returns (ok: bool)
    requires c.Sound()
    modifies file
    ensures Outcome(c, old(file.bytes), e, file.bytes)
    ensures ok ==> Survivors(c, file.bytes) == old(HealedEvents(c, file.bytes)) + Adds(c, e)
  {
    ghost var d := file.bytes;
    UnwrittenOutcome(c, d, e);
    ok := HealTail(file);
    if ok {
      ghost var n;
      ok, n := WriteLine(file, c.Line(e));
      WrittenOutcome(c, d, e, n);
      var flushed: bool := *;
      ok := ok && flushed;
    }
  }

  // ---- the journal

  /** What a recorded event does to the map in memory; a job header has done its
      harvesting before it is appended. */
  function Remember(m: Resumable, e: Event): Resumable {
    match e
    case Check(c) => m[(c.path, c.stream) := c]
    case PartDone(path) => Retire(m, path)
    case _ => m
  }

  /** Every entry was recorded under its own key. */
  ghost predicate Grounded(m: Resumable, past: seq<Event>) {
    forall k :: k in m ==> k == (m[k].path, m[k].stream) && Recorded(past, m[k])
  }

  ghost predicate AllProven(orphans: seq<Orphan>, past: seq<Event>) {
    forall o :: o in orphans ==> Proves(past, o)
  }

  lemma MorePast(m: Resumable, orphans: seq<Orphan>, past: seq<Event>, e: Event)
    requires Grounded(m, past) && AllProven(orphans, past)
    ensures Grounded(m, past + [e]) && Grounded(Remember(m, e), past + [e])
    ensures AllProven(orphans, past + [e])
  {
    var now := past + [e];
    StaysRecorded(past, e);
    if e.Check? {
      assert now[|past|] == Check(e.checkpoint);
    }
  }

  lemma HarvestProven(m: Resumable, orphans: seq<Orphan>, past: seq<Event>)
    requires Grounded(m, past) && AllProven(orphans, past)
    ensures AllProven(Harvest(m, orphans), past)
  {
    HarvestKeeps(m, orphans);
    forall o | InMap(o, m) ensures Proves(past, o) {
      var k :| k in m && From(o, m[k]);
      RecordedProves(past, m[k], o);
    }
  }

  /** These are the events that survive in the file. */
  ghost predicate HoldsEvents(c: Codec, d: Data, events: seq<Event>) {
    forall u {:trigger Unfold(u)} :: Unfold(u) ==> events == Survivors(c, d)
  }

  /** This is what can be resumed after these events, and the job they end in. */
  ghost predicate Replays(events: seq<Event>, m: Resumable, active: Option<Signature>) {
    forall u {:trigger Unfold(u)} :: Unfold(u) ==> m == Fold(events).resumable && active == Fold(events).active
  }

  lemma ReplaysMore(events: seq<Event>, m: Resumable, active: Option<Signature>, e: Event)
    requires Replays(events, m, active) && !e.Job?
    ensures Replays(events + [e], Remember(m, e), active)
  {
    assert Unfold(0);
    FoldAppend(events, e);
  }

  lemma ReplaysJob(events: seq<Event>, m: Resumable, active: Option<Signature>, job: Event)
    requires Replays(events, m, active) && job.Job?
    ensures var other := active.Some? && active != Some(SignatureOf(job));
      Replays(events + [job], if other then map[] else m, Some(SignatureOf(job)))
  {
    assert Unfold(0);
    FoldAppend(events, job);
  }

  class Journal {
    const codec: Codec
    const file: File
    var resumable: Resumable
    var orphans: seq<Orphan>
    var active: Option<Signature>
    var jobRecord: Option<Event>
    /** The append handle; compaction may lose it. */
    var handle: bool
    /** An append failed; the program stops using the journal. */
    ghost var broken: bool
    /** An event was too long to be read back, or a brittle tail was healed. */
    ghost var lossy: bool
    /** Every event this journal has tried to record, and those it found. */
    ghost var past: seq<Event>
    /** The events a replay of the file would find. */
    ghost var surviving: seq<Event>

    ghost predicate Valid()
      reads this, file
    {
      && FileOk() && MemoryOk()
      && (broken || lossy || Mirrors())
      && (jobRecord.Some? ==> JobIsActive())
    }

    ghost predicate FileOk()
      reads this`surviving, file
    {
      codec.Sound() && HoldsEvents(codec, file.bytes, surviving)
    }

    ghost predicate MemoryOk()
      reads this`resumable, this`orphans, this`past
    {
      Grounded(resumable, past) && AllProven(orphans, past)
    }

    /** Memory holds exactly what a replay of the file would resume from. */
    ghost predicate Mirrors()
      reads this`resumable, this`active, this`surviving
    {
      Replays(surviving, resumable, active)
    }

    ghost predicate JobIsActive()
      requires jobRecord.Some?
      reads this`jobRecord, this`active
    {
      jobRecord.value.Job? && active == Some(SignatureOf(jobRecord.value))
    }

    constructor (codec: Codec, file: File, resumable: Resumable, orphans: seq<Orphan>, active: Option<Signature>,
                 ghost surviving: seq<Event>, ghost past: seq<Event>)
      ensures this.codec == codec && this.file == file && this.past == past && this.surviving == surviving
      ensures this.resumable == resumable && this.orphans == orphans && this.active == active
      ensures jobRecord == None && handle && !broken && !lossy
    {
      this.codec, this.file, this.resumable, this.orphans, this.active := codec, file, resumable, orphans, active;
      this.jobRecord, this.handle, this.broken, this.lossy := None, true, false, false;
      this.past, this.surviving := past, surviving;
    }

    /** Records a checkpoint, the end of a file or the end of the run. Memory
        follows exactly when the record was written. */
    method Append(e: Event) returns (ok: bool)
      requires Valid() && !e.Job?
      modifies this`resumable, this`broken, this`lossy, this`past, this`surviving, file
      ensures Valid() && past == old(past) + [e] && broken == (old(broken) || !ok)
      ensures lossy == (old(lossy) || !codec.Fits(e) || old(Brittle(codec, file.bytes)))
      ensures Outcome(codec, old(file.bytes), e, file.bytes) && (!handle ==> !ok && file.bytes == old(file.bytes))
      ensures ok ==> surviving == old(HealedEvents(codec, file.bytes)) + Adds(codec, e)
      ensures resumable == if ok then Remember(old(resumable), e) else old(resumable)
    {
      MorePast(resumable, orphans, past, e);
      if !broken && !lossy {
        ReplaysMore(surviving, resumable, active, e);
      }
      ok := Record(e);
      if ok {
        resumable := Remember(resumable, e);
      }
    }

    method Record(e: Event) returns (ok: bool)
      requires FileOk()
      modifies this`broken, this`lossy, this`past, this`surviving, file
      ensures FileOk() && past == old(past) + [e] && broken == (old(broken) || !ok)
      ensures lossy == (old(lossy) || !codec.Fits(e) || old(Brittle(codec, file.bytes)))
      ensures Outcome(codec, old(file.bytes), e, file.bytes) && (!handle ==> !ok && file.bytes == old(file.bytes))
      ensures ok ==> surviving == old(HealedEvents(codec, file.bytes)) + Adds(codec, e)
      ensures ok && !lossy ==> surviving == old(surviving) + [e]
    {
      lossy := lossy || !codec.Fits(e) || Brittle(codec, file.bytes);
      assert Unfold(0);
      HealKeeps(codec, file.bytes);
      UnwrittenOutcome(codec, file.bytes, e);
      ok := false;
      if handle {
        ok := AppendRecord(codec, file, e);
      }
      past := past + [e];
      surviving := Survivors(codec, file.bytes);
      if !ok {
        broken := true;
      }
    }

    /** Starts or resumes a job. Another signature makes every checkpoint
        unreachable; the proof of its temporary is kept. */
    method BeginJob(job: Event) returns (ok: bool)
      requires Valid() && job.Job?
      modifies this, file
      ensures Valid() && past == old(past) + [job] && broken == (old(broken) || !ok) && handle == old(handle)
      ensures lossy == (old(lossy) || !codec.Fits(job) || old(Brittle(codec, file.bytes)))
      ensures Outcome(codec, old(file.bytes), job, file.bytes) && (!handle ==> !ok && file.bytes == old(file.bytes))
      ensures ok ==> surviving == old(HealedEvents(codec, file.bytes)) + Adds(codec, job)
      ensures ok ==> active == Some(SignatureOf(job)) && jobRecord == Some(job)
      ensures !ok ==> active == old(active) && jobRecord == old(jobRecord)
      ensures var other := old(active).Some? && old(active) != Some(SignatureOf(job));
        && resumable == (if other then map[] else old(resumable))
        && orphans == (if other then Harvest(old(resumable), old(orphans)) else old(orphans))
    {
      if !broken && !lossy {
        ReplaysJob(surviving, resumable, active, job);
      }
      HarvestOthers(job);
      MorePast(resumable, orphans, past, job);
      ok := Record(job);
      if ok {
        active, jobRecord := Some(SignatureOf(job)), Some(job);
      }
    }

    /** Checkpoints of another job become orphans. */
    method HarvestOthers(job: Event)
      requires MemoryOk() && job.Job?
      modifies this`resumable, this`orphans
      ensures MemoryOk()
      ensures var other := active.Some? && active != Some(SignatureOf(job));
        && resumable == (if other then map[] else old(resumable))
        && orphans == (if other then Harvest(old(resumable), old(orphans)) else old(orphans))
    {
      if active.Some? && active != Some(SignatureOf(job)) {
        HarvestProven(resumable, orphans, past);
        orphans := Harvest(resumable, orphans);
        resumable := map[];
      }
    }

    /** Rewrites the journal as its job header and live checkpoints. On replay
        nothing has changed but the harvest, which the file no longer holds, and
        whatever is too long to be read back. A failure leaves the old file or
        the new one, and may lose the handle. */
    method Compact() returns (ok: bool)
      requires Valid()
      modifies this`surviving, this`handle, this`lossy, file
      ensures Valid()
      ensures jobRecord.None? ==> ok && file.bytes == old(file.bytes) && handle == old(handle)
      ensures jobRecord.Some? && ok ==> Rewritten() && handle
      ensures jobRecord.Some? && !ok ==> Rewritten() || file.bytes == old(file.bytes)
      ensures lossy == (old(lossy) || (jobRecord.Some? && !Short(codec, jobRecord.value, resumable)))
    {
      if jobRecord.None? {
        return true;
      }
      var contents := CompactedBytes();
      handle := false;
      assert Unfold(0);
      ok := PublishCompacted(contents);
      lossy := lossy || !Short(codec, jobRecord.value, resumable);
      ReadBackAll(codec, resumable);
      var reopened: bool := *;
      handle := reopened;
      ok := ok && reopened;
    }

    method PublishCompacted(contents: Data) returns (ok: bool)
      requires FileOk() && jobRecord.Some? && JobIsActive() && Compacted(codec, contents, jobRecord.value, resumable)
      modifies this`surviving, file
      ensures FileOk() && (Rewritten() || (!ok && file.bytes == old(file.bytes)))
    {
      assert Unfold(0);
      ok := file.Publish(contents);
      surviving := Survivors(codec, file.bytes);
    }

    /** The file holds the job and the live checkpoints, and nothing else. */
    ghost predicate Rewritten()
      requires jobRecord.Some?
      reads this`surviving, this`resumable, this`active, this`jobRecord, file
    {
      && Fold(surviving) == State(ReadBack(codec, resumable), [], if codec.Fits(jobRecord.value) then active else None)
      && (CuttableAll(codec, jobRecord.value, resumable) ==> Genuine(codec, file.bytes))
    }

    method CompactedBytes() returns (contents: Data)
      requires codec.Sound() && jobRecord.Some? && JobIsActive() && MemoryOk()
      ensures Compacted(codec, contents, jobRecord.value, resumable)
    {
      contents := codec.Line(jobRecord.value);
      JobLine(codec, jobRecord.value);
      var rest := resumable;
      ghost var written: Resumable := map[];
      while rest != map[]
        invariant Parts(written, rest, resumable)
        invariant Compacted(codec, contents, jobRecord.value, written)
        decreases rest.Keys
      {
        var k := FirstKey(rest);
        PartsStep(written, rest, resumable, k);
        CheckLine(codec, contents, jobRecord.value, written, k, resumable[k]);
        contents := contents + codec.Line(Check(resumable[k]));
        written := written[k := resumable[k]];
        rest := rest - {k};
      }
      assert written == resumable;
    }

    /** Hands out the proof for a name found in a directory, at most once, and
        only if the temporary was staged for a file of that directory. */
    method TakeOrphan(name: Text, directory: Text, parentOf: Text -> Option<Text>) returns (o: Option<Orphan>)
      requires Valid()
      modifies this`orphans
      ensures Valid()
      ensures o.Some? ==>
                && o.value in old(orphans) && Speaks(o.value, name, directory, parentOf) && Proves(past, o.value)
                && multiset(orphans) == multiset(old(orphans)) - multiset{o.value}
      ensures o.None? ==> orphans == old(orphans)
      ensures o.None? <==> forall x :: x in old(orphans) ==> !Speaks(x, name, directory, parentOf)
    {
      var i := FindOrphan(orphans, name, directory, parentOf);
      if i == |orphans| {
        return None;
      }
      o := Some(orphans[i]);
      orphans := SwapRemove(orphans, i);
    }
  }

  /** The record is about this name in this directory. */
  predicate Speaks(o: Orphan, name: Text, directory: Text, parentOf: Text -> Option<Text>) {
    o.temp == name && parentOf(o.path) == Some(directory)
  }

  method FindOrphan(orphans: seq<Orphan>, name: Text, directory: Text, parentOf: Text -> Option<Text>) returns (i: nat)
    ensures i <= |orphans|
    ensures i < |orphans| ==> Speaks(orphans[i], name, directory, parentOf)
    ensures i == |orphans| ==> forall x :: x in orphans ==> !Speaks(x, name, directory, parentOf)
  {
    i := 0;
    while i < |orphans| && !Speaks(orphans[i], name, directory, parentOf)
      invariant i <= |orphans|
      invariant forall j :: 0 <= j < i ==> !Speaks(orphans[j], name, directory, parentOf)
    {
      i := i + 1;
    }
  }

  ghost predicate Parts(a: Resumable, b: Resumable, all: Resumable) {
    && a.Keys !! b.Keys && a.Keys + b.Keys == all.Keys
    && (forall k :: k in a ==> all[k] == a[k]) && (forall k :: k in b ==> all[k] == b[k])
  }

  lemma PartsStep(a: Resumable, b: Resumable, all: Resumable, k: Key)
    requires Parts(a, b, all) && k in b
    ensures k in all && Parts(a[k := all[k]], b - {k}, all)
  {
  }

  /** Removes entry i; the last entry takes its place. */
  function SwapRemove(s: seq<Orphan>, i: nat): (r: seq<Orphan>)
    requires i < |s|
    ensures multiset(r) == multiset(s) - multiset{s[i]}
    ensures forall o :: o in r ==> o in s
  {
    var last := |s| - 1;
    assert s == s[..last] + [s[last]];
    if i == last then s[..last]
    else
      assert s[..last] == s[..i] + [s[i]] + s[i + 1..last];
      s[..i] + [s[last]] + s[i + 1..last]
  }

  // ---- compaction

  /** The entries whose records are short enough to be read back. */
  function ReadBack(c: Codec, m: Resumable): Resumable { map k | k in m && c.Fits(Check(m[k])) :: m[k] }

  ghost predicate Short(c: Codec, job: Event, m: Resumable) {
    c.Fits(job) && forall k :: k in m ==> c.Fits(Check(m[k]))
  }

  ghost predicate CuttableAll(c: Codec, job: Event, m: Resumable) {
    c.Cuttable(job) && forall k :: k in m ==> c.Cuttable(Check(m[k]))
  }

  lemma ReadBackAll(c: Codec, m: Resumable)
    ensures (forall k :: k in m ==> c.Fits(Check(m[k]))) ==> ReadBack(c, m) == m
  {
  }

  /** Closed records that replay to the job and these checkpoints. */
  ghost predicate Compacted(c: Codec, d: Data, job: Event, m: Resumable)
    requires job.Job?
  {
    && Closed(d)
    && Fold(Survivors(c, d)) == State(ReadBack(c, m), [], if c.Fits(job) then Some(SignatureOf(job)) else None)
    && (CuttableAll(c, job, m) ==> Genuine(c, d))
  }

  lemma LineFolds(c: Codec, d: Data, e: Event)
    requires c.Sound() && Closed(d)
    ensures Closed(d + c.Line(e))
    ensures Fold(Survivors(c, d + c.Line(e)))
         == if c.Fits(e) then Apply(Fold(Survivors(c, d)), e) else Fold(Survivors(c, d))
  {
    AppendAdds(c, d, e);
    AddsFolds(c, Survivors(c, d), e);
  }

  lemma AddsFolds(c: Codec, events: seq<Event>, e: Event)
    ensures Fold(events + Adds(c, e)) == if c.Fits(e) then Apply(Fold(events), e) else Fold(events)
  {
    if c.Fits(e) {
      FoldAppend(events, e);
    } else {
      assert events + [] == events;
    }
  }

  lemma LineGenuine(c: Codec, d: Data, e: Event)
    requires c.Sound() && Closed(d) && Genuine(c, d) && c.Cuttable(e)
    ensures Genuine(c, d + c.Line(e))
  {
    assert c.Line(e)[..|c.Line(e)|] == c.Line(e);
    PieceGenuine(c, d, e, |c.Line(e)|);
  }

  lemma JobLine(c: Codec, job: Event)
    requires c.Sound() && job.Job?
    ensures Compacted(c, c.Line(job), job, map[])
  {
    assert [] + c.Line(job) == c.Line(job);
    LineFolds(c, [], job);
    if c.Cuttable(job) {
      LineGenuine(c, [], job);
    }
    assert ReadBack(c, map[]) == map[];
  }

  lemma ReadBackMore(c: Codec, m: Resumable, k: Key, x: Checkpoint)
    requires k !in m
    ensures ReadBack(c, m[k := x]) == if c.Fits(Check(x)) then ReadBack(c, m)[k := x] else ReadBack(c, m)
  {
  }

  lemma CuttableMore(c: Codec, job: Event, m: Resumable, k: Key, x: Checkpoint)
    requires k !in m && CuttableAll(c, job, m[k := x])
    ensures CuttableAll(c, job, m) && c.Cuttable(Check(x))
  {
    assert m[k := x][k] == x;
    assert forall j :: j in m ==> m[k := x][j] == m[j];
  }

  lemma CheckLine(c: Codec, d: Data, job: Event, m: Resumable, k: Key, x: Checkpoint)
    requires c.Sound() && job.Job? && Compacted(c, d, job, m) && k == (x.path, x.stream) && k !in m
    ensures Compacted(c, d + c.Line(Check(x)), job, m[k := x])
  {
    LineFolds(c, d, Check(x));
    ReadBackMore(c, m, k, x);
    if CuttableAll(c, job, m[k := x]) {
      CuttableMore(c, job, m, k, x);
      LineGenuine(c, d, Check(x));
    }
  }

  // ---- opening

  datatype Opening = CannotOpen | Opened(journal: Journal)

  lemma SurvivorsGrounded(c: Codec, d: Data)
    ensures Grounded(Fold(Survivors(c, d)).resumable, Survivors(c, d))
    ensures AllProven(Fold(Survivors(c, d)).orphans, Survivors(c, d))
  {
    FoldIsProven(Survivors(c, d));
  }

  /** A non-empty file is a closed front and a last record. */
  lemma LastRecord(d: Data) returns (front: Data, last: Data)
    requires d != []
    ensures d == front + last && Closed(front) && Records(d) == Records(front) + [last]
  {
    if Closed(d) {
      var e := d[..|d| - 1];
      BodyAndTail(e);
      front, last := Body(e), Tail(e) + [NL];
      assert d == e + [NL] && d == front + last;
    } else {
      BodyAndTail(d);
      front, last := Body(d), Tail(d);
    }
    OneMore(front, last);
  }

  lemma OneMore(front: Data, last: Data)
    requires Closed(front) && last != [] && NL !in last[..|last| - 1]
    ensures Records(front + last) == Records(front) + [last]
  {
    OneRecord(last);
    RecordsOfClosed(front, last);
  }

  /** Dropping a torn last record loses no event. */
  lemma TornTailDropped(c: Codec, d: Data)
    requires Records(d) != [] && Decoded(c, Records(d)[|Records(d)| - 1]) == []
    ensures var n := Length(Records(d)[..|Records(d)| - 1]);
      n <= |d| && Closed(d[..n]) && Survivors(c, d[..n]) == Survivors(c, d)
  {
    var front, last := LastRecord(d);
    assert Records(d)[..|Records(d)| - 1] == Records(front);
    LengthOfRecords(front);
    assert d[..|front|] == front;
    GarbageAddsNothing(c, Records(front), last);
  }

  /** Where a replayed journal may be cut to drop its torn record, if any. */
  ghost predicate CutPoint(c: Codec, d: Data, n: nat) {
    && n <= |d| && Survivors(c, d[..n]) == Survivors(c, d)
    && (Genuine(c, d) ==> Genuine(c, d[..n]))
  }

  lemma TornCutPoint(c: Codec, d: Data, n: nat)
    requires c.Sound() && Records(d) != [] && Decoded(c, Records(d)[|Records(d)| - 1]) == []
    requires n == Length(Records(d)[..|Records(d)| - 1])
    ensures CutPoint(c, d, n)
  {
    TornTailDropped(c, d);
    if Genuine(c, d) {
      CutKeepsPrefix(c, d, n);
    }
  }

  method Replay(c: Codec, d: Data) returns (found: Option<State>, torn: bool, valid: nat)
    requires c.Sound()
    ensures found.Some? ==> found.value == Fold(Survivors(c, d))
    ensures found.Some? && torn ==> CutPoint(c, d, valid)
  {
    var l := LoadState(c, d);
    if !l.Loaded? {
      return None, false, 0;
    }
    if l.torn {
      TornCutPoint(c, d, l.valid);
    }
    return Some(l.state), l.torn, l.valid;
  }

  method Start(codec: Codec, file: File, state: State, ghost past: seq<Event>) returns (j: Journal)
    requires codec.Sound()
    requires state.resumable == Fold(Survivors(codec, file.bytes)).resumable
    requires state.active == Fold(Survivors(codec, file.bytes)).active
    requires Grounded(state.resumable, past) && AllProven(state.orphans, past)
    ensures fresh(j) && j.Valid() && !j.broken && !j.lossy && j.handle
    ensures j.codec == codec && j.file == file && j.jobRecord == None
    ensures j.past == past && j.surviving == Survivors(codec, file.bytes)
    ensures State(j.resumable, j.orphans, j.active) == state
  {
    j := new Journal(codec, file, state.resumable, state.orphans, state.active,
                     Survivors(codec, file.bytes), past);
  }

  /** Opens a journal: only a torn last record is truncated. What can be resumed
      is what the surviving events say. */
  method Open(codec: Codec, file: File) returns (o: Opening)
    requires codec.Sound()
    modifies file
    ensures o.CannotOpen? ==> file.bytes == old(file.bytes)
    ensures o.Opened? ==>
              && fresh(o.journal) && o.journal.Valid() && !o.journal.broken && !o.journal.lossy && o.journal.handle
              && o.journal.codec == codec && o.journal.file == file
              && o.journal.past == o.journal.surviving == old(Survivors(codec, file.bytes))
              && State(o.journal.resumable, o.journal.orphans, o.journal.active) == Fold(o.journal.surviving)
              && (old(Genuine(codec, file.bytes)) ==> Genuine(codec, file.bytes))
  {
    SurvivorsGrounded(codec, file.bytes);
    ghost var past := Survivors(codec, file.bytes);
    var found, torn, valid := Replay(codec, file.bytes);
    if found.None? {
      return CannotOpen;
    }
    if torn {
      var ok := file.SetLength(valid);
      if !ok {
        return CannotOpen;
      }
    }
    var j := Start(codec, file, found.value, past);
    return Opened(j);
  }

  /** Starts over: the file is emptied, and what it proved is kept in memory. */
  method OpenFresh(codec: Codec, file: File) returns (o: Opening)
    requires codec.Sound()
    modifies file
    ensures o.CannotOpen? ==> file.bytes == old(file.bytes)
    ensures o.Opened? ==>
              && fresh(o.journal) && o.journal.Valid() && !o.journal.broken && !o.journal.lossy && o.journal.handle
              && o.journal.codec == codec && o.journal.file == file
              && file.bytes == [] && o.journal.resumable == map[]
              && o.journal.past == old(Survivors(codec, file.bytes))
              && (o.journal.orphans == [] || o.journal.orphans == HarvestAll(Fold(old(Survivors(codec, file.bytes)))))
  {
    ghost var past := Survivors(codec, file.bytes);
    SurvivorsGrounded(codec, file.bytes);
    var found, _, _ := Replay(codec, file.bytes);
    var orphans: seq<Orphan> := [];
    if found.Some? {
      HarvestProven(found.value.resumable, found.value.orphans, past);
      orphans := HarvestAll(found.value);
    }
    assert file.bytes[..0] == [];
    var ok := file.SetLength(0);
    if !ok {
      return CannotOpen;
    }
    NothingSurvives(codec);
    var j := Start(codec, file, State(map[], orphans, None), past);
    return Opened(j);
  }

  function HarvestAll(s: State): seq<Orphan> { Harvest(s.resumable, s.orphans) }

  /** A journal that holds one checkpoint. */
  method JournalOf(codec: Codec, c: Checkpoint) returns (j: Journal)
    requires codec.Sound() && codec.Fits(Check(c))
    ensures fresh(j) && fresh(j.file) && j.Valid() && !j.broken && !j.lossy
    ensures j.resumable == map[(c.path, c.stream) := c]
  {
    var file := new File(codec.Line(Check(c)));
    assert [] + codec.Line(Check(c)) == codec.Line(Check(c));
    LineFolds(codec, [], Check(c));
    SurvivorsGrounded(codec, file.bytes);
    j := Start(codec, file, State(map[(c.path, c.stream) := c], [], None), Survivors(codec, file.bytes));
  }

  lemma NothingSurvives(c: Codec)
    ensures Survivors(c, []) == [] && Fold([]) == EMPTY
  {
  }
}
