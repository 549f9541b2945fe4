/**
  Checkpointed transfer into a temporary: checkpoint boundaries, appending a
  checkpoint, and resuming from one. The digest state is the bytes fed to it.
*/
module Checkpoints {
  import opened Bytes
  import opened JournalRecords
  import opened EngineWorld

  /** The run-constant facts of one file copy. */
  datatype Request = Request(snapshot: Facts, checkpointThreshold: nat, chunk: nat)

  /** An open temporary next to the destination; nobody else writes to it. */
  class Temp {
    const name: Text
    const identity: Identity
    var main: Data
    var streams: map<Text, Data>
    var persistent: bool

    constructor (name: Text, identity: Identity, main: Data, streams: map<Text, Data>, persistent: bool)
      ensures this.name == name && this.identity == identity
      ensures this.main == main && this.streams == streams && this.persistent == persistent
    {
      this.name, this.identity := name, identity;
      this.main, this.streams, this.persistent := main, streams, persistent;
    }

    function Stream(s: Text): Data
      reads this`main, this`streams
    {
      if s == BASE then main else if s in streams then streams[s] else []
    }

    method Store(s: Text, d: Data)
      modifies this`main, this`streams
      ensures Stream(s) == d && (forall t :: t != s ==> Stream(t) == old(Stream(t)))
      ensures streams == (if s == BASE then old(streams) else old(streams)[s := d])
      ensures s != BASE ==> main == old(main)
    {
      if s == BASE {
        main := d;
      } else {
        streams := streams[s := d];
      }
    }
  }

  /** Whether this run still has a journal, and whether it lost one. */
  class Log {
    var on: bool
    var degraded: bool

    constructor (on: bool)
      ensures this.on == on && !degraded
    {
      this.on, degraded := on, false;
    }
  }

  // ---- boundaries

  const MIB: nat := 1024 * 1024
  const GIB: nat := 1024 * MIB

  function Interval(size: nat): (r: nat)
    ensures r > 0
  {
    if size >= 1024 * GIB then 4 * GIB else if size >= 64 * GIB then GIB else 256 * MIB
  }

  /** The first boundary after the offset: a multiple of the interval, or the
      end of the stream. */
  function NextCheckpointAfter(offset: nat, interval: nat, size: nat): (r: nat)
    requires interval > 0
    ensures r <= size && (offset < size ==> offset < r)
    ensures forall m: nat :: offset < m * interval ==> r <= m * interval
  {
    assert offset == interval * (offset / interval) + offset % interval;
    forall m: nat ensures offset < m * interval ==> (offset / interval + 1) * interval <= m * interval {
      NoMultipleBetween(offset, interval, m);
    }
    Min((offset / interval + 1) * interval, size)
  }

  lemma NoMultipleBetween(offset: nat, interval: nat, m: nat)
    requires interval > 0
    ensures m <= offset / interval ==> m * interval <= offset
    ensures m > offset / interval ==> (offset / interval + 1) * interval <= m * interval
  {
    var q := offset / interval;
    assert offset == interval * q + offset % interval;
    if m <= q {
      MulMonotone(m, q, interval);
    } else {
      MulMonotone(q + 1, m, interval);
    }
  }

  lemma MulMonotone(a: nat, b: nat, n: nat)
    requires a <= b
    ensures a * n <= b * n
  {
  }

  /** The boundary at which the next checkpoint is due. */
  class Cursor {
    var next: Option<nat>
    const interval: nat
    const total: nat
    const tempIdentity: Option<Identity>

    /** The pending boundary lies ahead of the position, if anything does. */
    ghost predicate At(position: nat)
      reads this`next
    {
      && interval > 0 && position <= total
      && (next.Some? ==> position <= next.value <= total && (position < total ==> position < next.value))
    }

    constructor (eligible: bool, position: nat, total: nat, tempIdentity: Option<Identity>)
      requires position <= total
      ensures At(position) && this.total == total && this.tempIdentity == tempIdentity
      ensures next.Some? <==> eligible
    {
      this.total, this.interval, this.tempIdentity := total, Interval(total), tempIdentity;
      next := if eligible then Some(NextCheckpointAfter(position, Interval(total), total)) else None;
    }

    /** The distance to the boundary never underflows, and some progress is
        always allowed, never past the boundary. */
    function Bound(position: nat, remaining: nat): (r: nat)
      requires At(position) && 0 < remaining <= total - position
      reads this`next
      ensures 0 < r <= remaining
      ensures next.Some? ==> position + r <= next.value
    {
      match next
      case None => remaining
      case Some(boundary) => Min(remaining, boundary - position)
    }
  }

  // ---- the state every step keeps

  /** The bytes are the source's own, unless the source has changed. */
  ghost predicate Sourced(w: World, req: Request, stream: Text, d: Data)
    reads w`stale
  {
    || req.snapshot in w.stale
    || (|d| <= |w.setting.content(req.snapshot, stream)| && d == w.setting.Prefix(req.snapshot, stream, |d|))
  }

  /** The run's snapshot is the source's present version or a past one, and the
      temporary was made for that snapshot. */
  ghost predicate Running(w: World, req: Request, temp: Temp)
    reads w
  {
    && w.Safe()
    && w.Seen(req.snapshot)
    && temp.name in w.owner && w.owner[temp.name] == req.snapshot
  }

  // ---- appending a checkpoint

  datatype Status = Written | Disabled | NotConfigured | Failed

  /** Appends a checkpoint whose digest is of exactly the bytes the temporary
      holds below the watermark, then makes the temporary outlive the run. */
  method AppendCheckpoint(w: World, req: Request, log: Log, temp: Temp, stream: Text, size: nat, watermark: nat,
                          hasher: Option<Data>, tempIdentity: Option<Identity>) returns (status: Status)
    requires Running(w, req, temp)
    requires watermark <= |temp.Stream(stream)|
    requires hasher.Some? ==> hasher.value == temp.Stream(stream)[..watermark]
    requires Sourced(w, req, stream, temp.Stream(stream)[..watermark])
    requires stream == BASE ==> size == req.snapshot.size
    modifies w`journal, w`recorded, temp`persistent
    ensures Running(w, req, temp)
    ensures status.NotConfigured? <==> !log.on
    ensures status.Failed? <==> log.on && hasher.None?
    ensures status.Written? ==>
              && temp.persistent && stream in w.journal
              && w.journal[stream].watermark == watermark && w.journal[stream].temp == temp.name
              && w.journal[stream].digest == w.setting.hash(temp.Stream(stream)[..watermark])
  {
    if !log.on {
      return NotConfigured;
    }
    if hasher.None? {
      return Failed;
    }
    if tempIdentity.None? {
      return Disabled;
    }
    var c := Checkpoint(w.path, stream, temp.name, tempIdentity, Some(req.snapshot.identity), size,
                        req.snapshot.mtime, watermark, w.setting.hash(hasher.value));
    var ok := w.Record(c);
    if !ok {
      return Disabled;
    }
    var persisted: bool := *;
    if !persisted {
      return Disabled;
    }
    temp.persistent := true;
    return Written;
  }

  /** Appends a checkpoint if the position is the pending boundary, and moves
      the boundary on; without a journal no boundary is left. */
  method Advance(w: World, req: Request, log: Log, cursor: Cursor, temp: Temp, stream: Text, position: nat,
                 hasher: Option<Data>) returns (ok: bool)
    requires Running(w, req, temp)
    requires position <= |temp.Stream(stream)| && position <= cursor.total && cursor.interval > 0
    requires cursor.next.Some? ==> position <= cursor.next.value <= cursor.total
    requires hasher.Some? ==> hasher.value == temp.Stream(stream)[..position]
    requires cursor.next == Some(position) ==> Sourced(w, req, stream, temp.Stream(stream)[..position])
    requires stream == BASE ==> cursor.total == req.snapshot.size
    modifies w`journal, w`recorded, temp`persistent, log, cursor`next
    ensures Running(w, req, temp)
    ensures ok ==> cursor.At(position)
    ensures old(cursor.next) == Some(position) && ok && cursor.next.Some? ==>
              && temp.persistent && stream in w.journal && w.journal[stream].watermark == position
    ensures old(cursor.next) != Some(position) ==> ok && cursor.next == old(cursor.next)
    ensures old(cursor.next).None? ==> cursor.next.None?
  {
    if cursor.next != Some(position) {
      return true;
    }
    var status := AppendCheckpoint(w, req, log, temp, stream, cursor.total, position, hasher, cursor.tempIdentity);
    match status {
      case Written =>
        cursor.next := if position < cursor.total
                       then Some(NextCheckpointAfter(position, cursor.interval, cursor.total)) else None;
      case Disabled =>
        log.on := false;
        log.degraded := true;
        cursor.next := None;
      case NotConfigured => cursor.next := None;
      case Failed => return false;
    }
    return true;
  }

  // ---- transfer

  /** At most this stream was created or changed. */
  ghost predicate OnlyStream(before: map<Text, Data>, now: map<Text, Data>, name: Text) {
    && now.Keys + {name} == before.Keys + {name} && before.Keys <= now.Keys
    && forall s :: s in before && s != name ==> now[s] == before[s]
  }

  function Overwrite(d: Data, position: nat, piece: Data): Data
    requires position <= |d|
  {
    d[..position] + piece + if position + |piece| <= |d| then d[position + |piece|..] else []
  }

  /** Reads from the open source handle. While the source is unchanged the bytes
      are its own. */
  method ReadSource(w: World, req: Request, stream: Text, position: nat, count: nat) returns (piece: Data)
    requires w.Safe() && w.Seen(req.snapshot)
    requires req.snapshot in w.stale || position + count <= |w.setting.content(req.snapshot, stream)|
    modifies w`facts, w`stale
    ensures w.Safe() && w.Seen(req.snapshot)
    ensures old(w.stale) <= w.stale && |piece| == count
    ensures req.snapshot in w.stale || piece == w.setting.content(req.snapshot, stream)[position..position + count]
  {
    w.Disturb();
    if w.facts == req.snapshot {
      piece := w.setting.content(req.snapshot, stream)[position..position + count];
    } else {
      assert |seq(count, _ => 0 as Byte)| == count;
      piece :| |piece| == count;
    }
  }

  /** Moves some bytes from the source into the temporary, and into the digest. */
  method TransferSegment(w: World, req: Request, temp: Temp, stream: Text, position: nat, bound: nat,
                         hasher: Option<Data>) returns (ok: bool, count: nat, now: Option<Data>)
    requires Running(w, req, temp) && bound > 0 && position <= |temp.Stream(stream)|
    requires req.snapshot in w.stale || position + bound <= |w.setting.content(req.snapshot, stream)|
    requires hasher.Some? ==> hasher.value == temp.Stream(stream)[..position]
    modifies w`facts, w`stale, temp`main, temp`streams
    ensures Running(w, req, temp) && old(w.stale) <= w.stale
    ensures forall t :: t != stream ==> temp.Stream(t) == old(temp.Stream(t))
    ensures stream != BASE ==> temp.main == old(temp.main) && OnlyStream(old(temp.streams), temp.streams, stream)
    ensures stream == BASE ==> temp.streams == old(temp.streams)
    ensures ok ==> 0 < count <= bound && position + count <= |temp.Stream(stream)|
    ensures ok ==>
              var piece := temp.Stream(stream)[position..position + count];
              temp.Stream(stream) == Overwrite(old(temp.Stream(stream)), position, piece)
    ensures ok ==> req.snapshot in w.stale || temp.Stream(stream)[position..position + count]
                                              == w.setting.content(req.snapshot, stream)[position..position + count]
    ensures ok && Sourced(w, req, stream, old(temp.Stream(stream))[..position]) ==>
              Sourced(w, req, stream, temp.Stream(stream)[..position + count])
    ensures ok ==> now.Some? == hasher.Some? && (now.Some? ==> now.value == temp.Stream(stream)[..position + count])
  {
    ok := *;
    var n: nat :| n >= 0;
    count := Min(n, bound - 1) + 1;
    var piece := ReadSource(w, req, stream, position, count);
    var before := temp.Stream(stream);
    var after := Overwrite(before, position, piece);
    temp.Store(stream, after);
    now := if hasher.Some? then Some(hasher.value + piece) else None;
    assert after[position..position + count] == piece;
    assert after[..position + count] == before[..position] + piece;
    if Sourced(w, req, stream, before[..position]) {
      SourcedGrows(w, req, stream, before[..position], piece);
    }
  }

  lemma SourcedGrows(w: World, req: Request, stream: Text, d: Data, piece: Data)
    requires Sourced(w, req, stream, d)
    requires req.snapshot in w.stale
             || (var all := w.setting.content(req.snapshot, stream);
                 |d| + |piece| <= |all| && piece == all[|d|..|d| + |piece|])
    ensures Sourced(w, req, stream, d + piece)
  {
    var all := w.setting.content(req.snapshot, stream);
    if req.snapshot !in w.stale {
      assert all[..|d| + |piece|] == all[..|d|] + all[|d|..|d| + |piece|];
    }
  }

  // ---- resuming

  const VERIFY_CHUNK: nat := 64 * 1024

  datatype Hashing = Hashed(fed: Data) | Short | ReadError

  /** Reads back the prefix in chunks; a read may fail. */
  method HashPrefix(d: Data, watermark: nat, chunk: nat) returns (hashed: Hashing)
    requires chunk > 0
    ensures hashed.Hashed? ==> watermark <= |d| && hashed.fed == d[..watermark]
    ensures hashed.Short? ==> |d| < watermark
  {
    var position: nat, fed: Data := 0, [];
    while position < watermark
      invariant position <= watermark && position <= |d| && fed == d[..position]
      decreases watermark - position
    {
      var failed: bool := *;
      if failed {
        return ReadError;
      }
      if position == |d| {
        return Short;
      }
      var n: nat :| n >= 0;
      var count := Min(Min(n, chunk - 1), Min(watermark - position, |d| - position) - 1) + 1;
      fed := fed + d[position..position + count];
      position := position + count;
    }
    return Hashed(fed);
  }

  /** The digest of the bytes found proves them: they are the source's. */
  lemma DigestProves(w: World, req: Request, c: Checkpoint, found: Data)
    requires w.Safe() && c in w.recorded && w.owner[c.temp] == req.snapshot
    requires |found| == c.watermark && w.setting.hash(found) == c.digest
    ensures Sourced(w, req, c.stream, found)
  {
    assert w.True(c);
  }

  /** Whatever object has a temporary's name when a run starts. */
  datatype Candidate = Candidate(identity: Identity, main: Data, streams: map<Text, Data>)

  datatype Resumed = Fresh | Error | Resumed(temp: Temp, total: nat, hasher: Data)

  /** Tries to resume the unnamed stream: the candidate must be the very object
      recorded, for the very source version, and its prefix must prove itself.
      An object that is not proven is left alone. */
  method ResumeUnnamed(w: World, req: Request, c: Checkpoint, found: Option<Candidate>) returns (r: Resumed)
    requires w.Safe() && w.Seen(req.snapshot)
    requires c in w.recorded && c.stream == BASE
    modifies w`discarded
    ensures w.Safe()
    ensures forall d :: d in w.discarded - old(w.discarded) ==>
              d.0 == c.temp && Some(d.1) == c.tempIdentity && found.Some? && found.value.identity == d.1
    ensures r.Resumed? ==>
              && fresh(r.temp) && Running(w, req, r.temp)
              && r.temp.persistent && r.total == c.watermark <= req.snapshot.size
              && r.temp.main == r.hasher && |r.hasher| == r.total
              && Sourced(w, req, BASE, r.temp.main)
    ensures r.Resumed? ==>
              && w.FromFacts(c, req.snapshot) && Some(r.temp.identity) == c.tempIdentity
              && found.Some? && r.temp.identity == found.value.identity
              && r.temp.main <= found.value.main && r.temp.streams == found.value.streams
  {
    var sourceMatches := w.FromFacts(c, req.snapshot) && c.watermark <= c.size;
    if found.None? || Some(found.value.identity) != c.tempIdentity {
      return Fresh;
    }
    if sourceMatches && |found.value.main| >= c.watermark {
      var hashed := HashPrefix(found.value.main, c.watermark, Max(req.chunk, VERIFY_CHUNK));
      if hashed.ReadError? {
        return Error;
      }
      if hashed.Hashed? && w.setting.hash(hashed.fed) == c.digest {
        assert w.True(c);
        DigestProves(w, req, c, hashed.fed);
        var truncated: bool := *;
        if !truncated {
          return Error;
        }
        var temp := new Temp(c.temp, found.value.identity, hashed.fed, found.value.streams, true);
        return Resumed(temp, c.watermark, hashed.fed);
      }
    }
    assert w.Proven(c.temp, found.value.identity);
    w.Discard(c.temp, found.value.identity);
    var discarded: bool := *;
    return if discarded then Fresh else Error;
  }
}
