/**
  The transactional copies: streamed and sparse, with their named streams,
  through a temporary that is published as a whole.
*/
module EngineCopy {
  import opened Bytes
  import opened JournalRecords
  import opened EngineWorld
  import opened Checkpoints

  /** Opens the temporary for a copy: a resumed one if the journal has a proven
      candidate, otherwise a new one. */
  method OpenTemp(w: World, req: Request, log: Log, found: Option<Candidate>, shouldHash: bool)
    returns (ok: bool, temp: Temp, total: nat, hasher: Option<Data>)
    requires w.Safe() && w.Seen(req.snapshot)
    modifies w`discarded, w`owner
    ensures w.Safe() && fresh(temp)
    ensures ok ==>
              && Running(w, req, temp) && total == |temp.main| <= req.snapshot.size
              && Sourced(w, req, BASE, temp.main)
              && (hasher.Some? ==> hasher.value == temp.main)
              && (hasher.None? ==> !shouldHash && total == 0)
    ensures ok ==> temp.streams == map[] || (found.Some? && temp.streams == found.value.streams)
    ensures ok && hasher.Some? && !shouldHash ==> log.on
  {
    ok := true;
    if log.on && BASE in w.journal {
      var r := ResumeUnnamed(w, req, w.journal[BASE], found);
      if r.Resumed? {
        return true, r.temp, r.total, Some(r.hasher);
      }
      ok := r.Fresh?;
    }
    var name: Text := *;
    var identity: Identity := *;
    temp := new Temp(name, identity, [], map[], false);
    total, hasher := 0, if shouldHash then Some([]) else None;
    if ok {
      ok := w.Create(name, req.snapshot);
    }
  }

  // ---- the streamed copy

  /** Copies the unnamed stream from where the temporary ends. */
  method CopyUnnamed(w: World, req: Request, log: Log, temp: Temp, start: nat, from: Option<Data>, cursor: Cursor)
    returns (ok: bool, hasher: Option<Data>)
    requires Running(w, req, temp) && start == |temp.main| <= req.snapshot.size
    requires Sourced(w, req, BASE, temp.main) && (from.Some? ==> from.value == temp.main)
    requires cursor.At(start) && cursor.total == req.snapshot.size
    modifies w`facts, w`stale, w`journal, w`recorded, temp, log, cursor`next
    ensures Running(w, req, temp) && old(w.stale) <= w.stale
    ensures ok ==>
              && |temp.main| == req.snapshot.size && Sourced(w, req, BASE, temp.main)
              && hasher.Some? == from.Some? && (hasher.Some? ==> hasher.value == temp.main)
              && temp.streams == old(temp.streams)
  {
    var total := start;
    hasher := from;
    while total < req.snapshot.size
      invariant Running(w, req, temp) && old(w.stale) <= w.stale && total == |temp.main| <= req.snapshot.size
      invariant Sourced(w, req, BASE, temp.main)
      invariant hasher.Some? == from.Some? && (hasher.Some? ==> hasher.value == temp.main)
      invariant cursor.At(total) && temp.streams == old(temp.streams)
    {
      assert temp.main[..total] == temp.main;
      var count;
      ok, count, hasher := TransferSegment(w, req, temp, BASE, total,
                                           cursor.Bound(total, req.snapshot.size - total), hasher);
      if !ok {
        return;
      }
      total := total + count;
      assert temp.main[..total] == temp.main;
      ok := Advance(w, req, log, cursor, temp, BASE, total, hasher);
      if !ok {
        return;
      }
    }
    ok := true;
  }

  // ---- named streams

  /** The stream is completely copied, unless the source has changed. */
  ghost predicate StreamDone(w: World, req: Request, temp: Temp, info: StreamInfo)
    reads w`stale, temp`main, temp`streams
  {
    && info.name in temp.streams
    && (req.snapshot in w.stale || temp.streams[info.name] == w.setting.content(req.snapshot, info.name))
  }

  /** The listing taken when the source was opened: its own streams, unless the
      source has changed. */
  ghost predicate Listing(w: World, req: Request, streams: seq<StreamInfo>)
    reads w`stale
  {
    && (forall i :: 0 <= i < |streams| ==> streams[i].name != BASE)
    && (req.snapshot in w.stale || streams == w.setting.listed(req.snapshot))
  }

  /** Resumes a named stream inside the very temporary the base stream uses. */
  method ResumeNamed(w: World, req: Request, temp: Temp, info: StreamInfo, c: Checkpoint)
    returns (ok: bool, resumed: Option<Data>)
    requires Running(w, req, temp) && info.name != BASE
    requires c in w.recorded && c.stream == info.name && c.temp == temp.name
    modifies temp`main, temp`streams
    ensures temp.main == old(temp.main)
    ensures resumed.Some? ==>
              && ok && info.name in temp.streams && temp.streams[info.name] == resumed.value
              && |resumed.value| == c.watermark <= info.size && Sourced(w, req, info.name, resumed.value)
              && c.tempIdentity == Some(temp.identity) && c.size == info.size
              && c.mtime == req.snapshot.mtime && c.sourceIdentity == Some(req.snapshot.identity)
    ensures OnlyStream(old(temp.streams), temp.streams, info.name)
  {
    if c.size != info.size || c.mtime != req.snapshot.mtime
       || c.sourceIdentity != Some(req.snapshot.identity) || c.watermark > info.size
       || c.tempIdentity != Some(temp.identity) {
      return true, None;
    }
    ok := *;
    if !ok || |temp.Stream(info.name)| < c.watermark {
      return ok, None;
    }
    var hashed := HashPrefix(temp.Stream(info.name), c.watermark, Max(req.chunk, VERIFY_CHUNK));
    if hashed.ReadError? {
      return false, None;
    }
    if hashed.Short? || w.setting.hash(hashed.fed) != c.digest {
      return true, None;
    }
    assert w.True(c);
    DigestProves(w, req, c, hashed.fed);
    temp.Store(info.name, hashed.fed);
    return true, Some(hashed.fed);
  }

  /** Opens a stream of the temporary: resumed if its checkpoint is of this very
      temporary and proves itself, else empty. */
  method OpenStream(w: World, req: Request, log: Log, temp: Temp, info: StreamInfo, hashing: bool)
    returns (ok: bool, hasher: Option<Data>)
    requires Running(w, req, temp) && info.name != BASE
    modifies temp`main, temp`streams
    ensures Running(w, req, temp) && temp.main == old(temp.main)
    ensures OnlyStream(old(temp.streams), temp.streams, info.name)
    ensures ok ==>
              && info.name in temp.streams && |temp.streams[info.name]| <= info.size
              && Sourced(w, req, info.name, temp.streams[info.name])
              && (hasher.Some? ==> hasher.value == temp.streams[info.name])
              && (hasher.None? ==> !hashing && temp.streams[info.name] == [])
  {
    ok, hasher := true, None;
    if log.on && info.name in w.journal && w.journal[info.name].temp == temp.name {
      ok, hasher := ResumeNamed(w, req, temp, info, w.journal[info.name]);
    }
    if ok && hasher.None? {
      ok := *;
      temp.Store(info.name, []);
      hasher := if hashing then Some([]) else None;
    }
  }

  method CopyOneStream(w: World, req: Request, log: Log, temp: Temp, info: StreamInfo, shouldHash: bool)
    returns (ok: bool, digest: Option<Text>)
    requires Running(w, req, temp) && info.name != BASE
    requires req.snapshot in w.stale || |w.setting.content(req.snapshot, info.name)| == info.size
    modifies w`facts, w`stale, w`journal, w`recorded, temp`main, temp`streams, temp`persistent, log
    ensures Running(w, req, temp) && old(w.stale) <= w.stale && temp.main == old(temp.main)
    ensures ok ==> StreamDone(w, req, temp, info)
    ensures ok && digest.Some? ==> digest.value == w.setting.hash(temp.Stream(info.name))
    ensures OnlyStream(old(temp.streams), temp.streams, info.name)
  {
    digest := None;
    var eligible := info.size >= req.checkpointThreshold && log.on;
    var hasher;
    ok, hasher := OpenStream(w, req, log, temp, info, shouldHash || eligible);
    if !ok {
      return;
    }
    var copied := if hasher.Some? then |hasher.value| else 0;
    var cursor := new Cursor(eligible, copied, info.size, if eligible then Some(temp.identity) else None);
    ok, hasher := CopyNamed(w, req, log, temp, info, copied, hasher, cursor);
    if ok && hasher.Some? {
      digest := Some(w.setting.hash(hasher.value));
    }
  }

  method CopyNamed(w: World, req: Request, log: Log, temp: Temp, info: StreamInfo, start: nat, from: Option<Data>,
                   cursor: Cursor) returns (ok: bool, hasher: Option<Data>)
    requires Running(w, req, temp) && info.name != BASE && info.name in temp.streams
    requires req.snapshot in w.stale || |w.setting.content(req.snapshot, info.name)| == info.size
    requires start == |temp.streams[info.name]| <= info.size
    requires Sourced(w, req, info.name, temp.streams[info.name])
    requires from.Some? ==> from.value == temp.streams[info.name]
    requires cursor.At(start) && cursor.total == info.size
    modifies w`facts, w`stale, w`journal, w`recorded, temp`main, temp`streams, temp`persistent, log, cursor`next
    ensures Running(w, req, temp) && old(w.stale) <= w.stale && temp.main == old(temp.main)
    ensures ok ==> StreamDone(w, req, temp, info) && (hasher.Some? ==> hasher.value == temp.Stream(info.name))
    ensures OnlyStream(old(temp.streams), temp.streams, info.name)
  {
    var copied := start;
    hasher := from;
    while copied < info.size
      invariant Running(w, req, temp) && old(w.stale) <= w.stale && temp.main == old(temp.main)
      invariant info.name in temp.streams && copied == |temp.streams[info.name]| <= info.size
      invariant Sourced(w, req, info.name, temp.streams[info.name])
      invariant hasher.Some? ==> hasher.value == temp.streams[info.name]
      invariant cursor.At(copied)
      invariant OnlyStream(old(temp.streams), temp.streams, info.name)
    {
      assert temp.Stream(info.name)[..copied] == temp.streams[info.name];
      var count;
      ok, count, hasher := TransferSegment(w, req, temp, info.name, copied,
                                           cursor.Bound(copied, info.size - copied), hasher);
      if !ok {
        return;
      }
      copied := copied + count;
      assert temp.Stream(info.name)[..copied] == temp.streams[info.name];
      ok := Advance(w, req, log, cursor, temp, info.name, copied, hasher);
      if !ok {
        return;
      }
    }
    ok := true;
  }

  method CopyNamedStreams(w: World, req: Request, log: Log, temp: Temp, streams: seq<StreamInfo>, shouldHash: bool)
    returns (ok: bool)
    requires Running(w, req, temp) && Listing(w, req, streams)
    modifies w`facts, w`stale, w`journal, w`recorded, temp`main, temp`streams, temp`persistent, log
    ensures Running(w, req, temp) && temp.main == old(temp.main)
    ensures ok && req.snapshot !in w.stale ==>
              temp.streams == w.setting.Streams(old(temp.streams), req.snapshot, streams)
  {
    ok := true;
    for i := 0 to |streams|
      invariant Running(w, req, temp) && temp.main == old(temp.main) && Listing(w, req, streams)
      invariant req.snapshot !in w.stale ==>
                  temp.streams == w.setting.Streams(old(temp.streams), req.snapshot, streams[..i])
    {
      var digest;
      ghost var before := temp.streams;
      ok, digest := CopyOneStream(w, req, log, temp, streams[i], shouldHash);
      if !ok {
        return;
      }
      assert streams[..i + 1][..i] == streams[..i];
      if req.snapshot !in w.stale {
        OneMoreStream(before, temp.streams, streams[i].name, w.setting.content(req.snapshot, streams[i].name));
      }
    }
    assert streams[..|streams|] == streams;
  }

  lemma OneMoreStream(before: map<Text, Data>, now: map<Text, Data>, name: Text, d: Data)
    requires OnlyStream(before, now, name) && name in now && now[name] == d
    ensures now == before[name := d]
  {
    assert now.Keys == before[name := d].Keys;
  }

  // ---- publication

  /** Named-stream checkpoints need a base checkpoint of the same temporary. */
  method EnsureBaseCheckpointForNamed(w: World, req: Request, log: Log, temp: Temp, streams: seq<StreamInfo>,
                                      total: nat, hasher: Option<Data>) returns (ok: bool)
    requires Running(w, req, temp) && total == |temp.main| && Sourced(w, req, BASE, temp.main)
    requires hasher.Some? ==> hasher.value == temp.main
    modifies w`journal, w`recorded, temp`persistent, log
    ensures Running(w, req, temp)
    ensures ok && log.on && (exists i :: 0 <= i < |streams| && streams[i].size >= req.checkpointThreshold)
            && w.withStreams
            ==> temp.persistent
  {
    var resumable := exists i :: 0 <= i < |streams| && streams[i].size >= req.checkpointThreshold;
    if !w.withStreams || !resumable || !log.on || temp.persistent {
      return true;
    }
    var known: bool := *;
    assert temp.main[..total] == temp.main;
    var status := AppendCheckpoint(w, req, log, temp, BASE, req.snapshot.size, total, hasher,
                                   if known then Some(temp.identity) else None);
    if status.Disabled? {
      log.on, log.degraded := false, true;
    }
    return !status.Failed?;
  }

  /** This version is published, over the streams the temporary held. */
  ghost predicate IsPublished(w: World, f: Facts, held: map<Text, Data>)
    reads w
  {
    && w.published.Some? && w.publishedFor == Some(f) && w.publishedOver == held
    && w.setting.Equals(w.published.value, f, w.withStreams, held)
  }

  /** What is published is what was published before. */
  ghost predicate Unpublished(w: World, before: Option<Published>, beforeFor: Option<Facts>,
                              beforeOver: map<Text, Data>)
    reads w
  {
    w.published == before && w.publishedFor == beforeFor && w.publishedOver == beforeOver
  }

  /** A new temporary holds no stream; a resumed one those that were found. */
  ghost predicate PublishedOver(w: World, f: Facts, found: Option<Candidate>)
    reads w
  {
    || IsPublished(w, f, map[])
    || (found.Some? && IsPublished(w, f, found.value.streams))
  }

  /** Where named streams cannot exist none are found. */
  predicate Possible(w: World, found: Option<Candidate>) {
    found.Some? && !w.withStreams ==> found.value.streams == map[]
  }

  /** Validates the source again, copies the named streams, validates once more
      and publishes. What is published is the source. */
  method Finish(w: World, req: Request, log: Log, temp: Temp, streams: seq<StreamInfo>, hasher: Option<Data>,
                shouldHash: bool) returns (ok: bool)
    requires !w.withStreams ==> temp.streams == map[]
    requires Running(w, req, temp) && Listing(w, req, streams)
    requires |temp.main| == req.snapshot.size && Sourced(w, req, BASE, temp.main)
    requires req.snapshot in w.stale || (hasher.Some? ==> hasher.value == temp.main)
    modifies w, temp`main, temp`streams, temp`persistent, log
    ensures w.Safe()
    ensures ok ==> IsPublished(w, req.snapshot, old(temp.streams))
    ensures !ok ==> (|| IsPublished(w, req.snapshot, old(temp.streams))
                     || Unpublished(w, old(w.published), old(w.publishedFor), old(w.publishedOver)))
  {
    ghost var held := temp.streams;
    ok := PostReadValidate(w, req);
    if !ok {
      return;
    }
    ok := EnsureBaseCheckpointForNamed(w, req, log, temp, streams, |temp.main|, hasher);
    if ok && w.withStreams {
      ok := CopyNamedStreams(w, req, log, temp, streams, shouldHash);
    }
    if ok {
      ok := PostReadValidate(w, req);
    }
    var destinationOk: bool := *;
    if !ok || !destinationOk {
      return false;
    }
    var p := Published(temp.main, temp.streams, if hasher.Some? then Some(w.setting.hash(hasher.value)) else None);
    ok := w.Publish(p, req.snapshot, held);
  }

  /** The source still shows the facts of the snapshot. */
  method PostReadValidate(w: World, req: Request) returns (ok: bool)
    requires w.Safe() && w.Seen(req.snapshot)
    modifies w`facts, w`stale
    ensures w.Safe() && w.Seen(req.snapshot) && old(w.stale) <= w.stale
    ensures ok ==> req.snapshot !in w.stale
  {
    w.Disturb();
    var readable: bool := *;
    ok := readable && w.facts == req.snapshot;
  }

  /** Copies one file through a temporary, resuming where it can. */
  method CopyStreamed(w: World, req: Request, log: Log, streams: seq<StreamInfo>, found: Option<Candidate>,
                      shouldHash: bool) returns (ok: bool)
    requires w.Safe() && w.Seen(req.snapshot)
    requires Listing(w, req, streams) && Possible(w, found)
    modifies w, log
    ensures w.Safe()
    ensures ok ==> PublishedOver(w, req.snapshot, found)
    ensures !ok ==> (|| PublishedOver(w, req.snapshot, found)
                     || Unpublished(w, old(w.published), old(w.publishedFor), old(w.publishedOver)))
  {
    var temp, total, hasher;
    ok, temp, total, hasher := OpenTemp(w, req, log, found, shouldHash);
    if !ok {
      return;
    }
    var eligible := req.snapshot.size >= req.checkpointThreshold && log.on;
    var known: bool := *;
    var cursor := new Cursor(eligible, total, req.snapshot.size, if known then Some(temp.identity) else None);
    ok, hasher := CopyUnnamed(w, req, log, temp, total, hasher, cursor);
    if ok {
      ok := Finish(w, req, log, temp, streams, hasher, shouldHash);
    }
  }
}
