/**
  Who copies a file, and how: the coordinator's dispatch gate, the engine's
  routing by stream sizes, and the promotion that hands a file back before
  anything is written.
*/
module Dispatch {
  import opened Bytes

  datatype Kind = Standard | Redirector | Wsl | SameSpindle
  {
    predicate IsRedirector() { Redirector? || Wsl? }
  }

  datatype Stream = Stream(unnamed: bool, size: nat)

  const SEGMENT_THRESHOLD: nat := 64 * 1024 * 1024

  /** One side of the copy: where it is, and what it can hold. */
  datatype Side = Side(wsl: bool, remote: bool, streams: bool, eas: bool)
  {
    /** A WSL side is remote, and never taken to hold streams or attributes. */
    predicate Valid() { wsl ==> remote && !streams && !eas }
  }

  /** The run's fixed settings. */
  datatype Setup = Setup(kind: Kind, large: nat, checkpoint: nat, source: Side, destination: Side, stripe: bool)
  {
    predicate Valid() { source.Valid() && destination.Valid() && (kind.Wsl? ==> source.wsl || destination.wsl) }

    /** One side is WSL, and the other is local. */
    predicate LocalPeer() { (source.wsl && !destination.remote) || (destination.wsl && !source.remote) }
  }

  datatype Offer = Inline | ToWorker(promoteAt: Option<nat>, affine: bool)

  /** Keeps inline what may need the journal or the segmented strategy; all else
      goes to a worker with the size at which it must be handed back. */
  function WorkerDispatch(s: Setup, journal: bool, unnamed: nat, sparse: bool): Offer {
    var eligible := journal && unnamed >= s.checkpoint;
    var segmentedInline := s.kind.Wsl? && unnamed >= SEGMENT_THRESHOLD;
    var redirectorStream := s.kind.IsRedirector() && !segmentedInline && (!journal || unnamed < s.checkpoint);
    if sparse || eligible || (unnamed >= s.large && !redirectorStream) then Inline
    else
      ToWorker(
        if s.kind.IsRedirector() then if journal then Some(s.checkpoint) else None
        else if journal then Some(Min(s.large, s.checkpoint) as nat)
        else Some(s.large),
        unnamed < s.large && !s.destination.wsl && !s.stripe)
  }

  // ---- the engine's routing

  predicate Representable(s: Setup, stream: Stream) { s.destination.streams || stream.unnamed }

  /** The largest stream the destination can hold; the enumerated size if the
      listing shows none. */
  function Largest(s: Setup, streams: seq<Stream>, unnamed: nat): nat {
    var kept := Kept(s, streams);
    if kept == [] then unnamed else MaxSize(kept)
  }

  function Kept(s: Setup, streams: seq<Stream>): seq<Stream> {
    if streams == [] then []
    else
      var rest := Kept(s, streams[1..]);
      if Representable(s, streams[0]) then [streams[0]] + rest else rest
  }

  function MaxSize(streams: seq<Stream>): nat
    requires streams != []
  {
    if |streams| == 1 then streams[0].size
    else if streams[0].size >= MaxSize(streams[1..]) then streams[0].size
    else MaxSize(streams[1..])
  }

  predicate CheckpointEligible(s: Setup, streams: seq<Stream>, journal: bool) {
    journal && exists i :: 0 <= i < |streams| && Representable(s, streams[i]) && streams[i].size >= s.checkpoint
  }

  /** A file as the engine opens it; `eas`: it has extended attributes. */
  datatype Opened = Opened(unnamed: nat, streams: seq<Stream>, sparse: bool, eas: bool, resumable: bool, chunk: nat)
  {
    /** The listing shows the unnamed stream with the size enumerated. */
    predicate Listed() {
      forall i :: 0 <= i < |streams| && streams[i].unnamed ==> streams[i].size == unnamed
    }

    predicate OnlyUnnamed() { forall i :: 0 <= i < |streams| ==> streams[i].unnamed }
  }

  predicate KeepsEas(s: Setup, f: Opened) { f.eas && s.source.eas && s.destination.eas }

  datatype Strategy = Promoted | SparseCopy | PlainSmall | SegmentedCopy | StreamedCopy

  predicate Segmentable(s: Setup, f: Opened, journal: bool) {
    && s.kind.Wsl? && s.LocalPeer() && !f.sparse && f.OnlyUnnamed()
    && f.unnamed >= SEGMENT_THRESHOLD && !CheckpointEligible(s, f.streams, journal)
    && !f.resumable && f.chunk > 0 && f.unnamed / Max(2, Min(f.unnamed / SEGMENT_THRESHOLD, 8)) / f.chunk > 0
  }

  /** What the engine does with an opened file. */
  function CopyFile(s: Setup, f: Opened, journal: bool, promoteAt: Option<nat>): Strategy {
    if promoteAt.Some? && Largest(s, f.streams, f.unnamed) >= promoteAt.value then Promoted
    else if f.sparse then SparseCopy
    else if Largest(s, f.streams, f.unnamed) < s.large && !CheckpointEligible(s, f.streams, journal)
            && !(KeepsEas(s, f) || (s.destination.streams && !f.OnlyUnnamed())) then PlainSmall
    else if Segmentable(s, f, journal) then SegmentedCopy
    else StreamedCopy
  }

  datatype Fate = Fate(worker: bool, strategy: Strategy)

  /** What becomes of a file, from dispatch on: a worker has no journal; a file
      handed back runs inline, without a threshold. */
  function FateOf(s: Setup, f: Opened, journal: bool): Fate {
    match WorkerDispatch(s, journal, f.unnamed, f.sparse)
    case Inline => Fate(false, CopyFile(s, f, journal, None))
    case ToWorker(promoteAt, _) =>
      var byWorker := CopyFile(s, f, false, promoteAt);
      if byWorker.Promoted? then Fate(false, CopyFile(s, f, journal, None)) else Fate(true, byWorker)
  }

  lemma {:induction false} LargestHolds(s: Setup, streams: seq<Stream>, unnamed: nat, i: nat)
    requires i < |streams| && Representable(s, streams[i])
    ensures Kept(s, streams) != [] && streams[i].size <= Largest(s, streams, unnamed)
  {
    if i == 0 {
    } else {
      LargestHolds(s, streams[1..], unnamed, i - 1);
      assert streams[1..][i - 1] == streams[i];
    }
  }

  /** The largest stream is one of those kept, or the enumerated size. */
  lemma {:induction false} LargestIsOne(s: Setup, streams: seq<Stream>, unnamed: nat)
    ensures Largest(s, streams, unnamed) == unnamed
            || exists i :: 0 <= i < |streams| && Representable(s, streams[i])
                           && streams[i].size == Largest(s, streams, unnamed)
  {
    if streams == [] {
    } else {
      LargestIsOne(s, streams[1..], unnamed);
      var kept := Kept(s, streams[1..]);
      if kept != [] {
        KeptIsListed(s, streams[1..], MaxSize(kept));
      }
      if Representable(s, streams[0]) && streams[0].size == Largest(s, streams, unnamed) {
      } else if kept != [] {
        var i :| 0 <= i < |streams[1..]| && Representable(s, streams[1..][i]) && streams[1..][i].size == MaxSize(kept);
        assert streams[i + 1] == streams[1..][i];
      }
    }
  }

  lemma {:induction false} KeptIsListed(s: Setup, streams: seq<Stream>, size: nat)
    requires Kept(s, streams) != [] && size == MaxSize(Kept(s, streams))
    ensures exists i :: 0 <= i < |streams| && Representable(s, streams[i]) && streams[i].size == size
  {
    var rest := Kept(s, streams[1..]);
    if Representable(s, streams[0]) && streams[0].size == size {
    } else {
      KeptIsListed(s, streams[1..], size);
      var i :| 0 <= i < |streams[1..]| && Representable(s, streams[1..][i]) && streams[1..][i].size == size;
      assert streams[i + 1] == streams[1..][i];
    }
  }

  /** The two gates mirror each other: a file with a stream that deserves
      checkpoints is kept inline or handed back before anything is written, and
      inline it takes a strategy that has them. */
  lemma CheckpointsAreNeverLost(s: Setup, f: Opened, journal: bool)
    requires CheckpointEligible(s, f.streams, journal)
    ensures var fate := FateOf(s, f, journal);
      !fate.worker && (fate.strategy.SparseCopy? || fate.strategy.StreamedCopy?)
  {
    var i :| 0 <= i < |f.streams| && Representable(s, f.streams[i]) && f.streams[i].size >= s.checkpoint;
    LargestHolds(s, f.streams, f.unnamed, i);
  }

  /** A file is handed back exactly when some representable stream, or the file
      itself if none is listed, reaches the threshold it was sent with. */
  lemma PromotedExactly(s: Setup, f: Opened, promoteAt: nat)
    ensures CopyFile(s, f, false, Some(promoteAt)).Promoted?
            <==> (exists i :: 0 <= i < |f.streams| && Representable(s, f.streams[i]) && f.streams[i].size >= promoteAt)
                 || (Kept(s, f.streams) == [] && f.unnamed >= promoteAt)
  {
    if exists i :: 0 <= i < |f.streams| && Representable(s, f.streams[i]) && f.streams[i].size >= promoteAt {
      var i :| 0 <= i < |f.streams| && Representable(s, f.streams[i]) && f.streams[i].size >= promoteAt;
      LargestHolds(s, f.streams, f.unnamed, i);
    }
    if Kept(s, f.streams) != [] {
      KeptIsListed(s, f.streams, MaxSize(Kept(s, f.streams)));
    }
  }

  /** What a worker copies to the end needs no journal: every stream kept is
      below the checkpoint threshold. */
  lemma WorkerNeedsNoJournal(s: Setup, f: Opened)
    requires FateOf(s, f, true).worker
    ensures forall i :: 0 <= i < |f.streams| && Representable(s, f.streams[i]) ==> f.streams[i].size < s.checkpoint
  {
    if CheckpointEligible(s, f.streams, true) {
      CheckpointsAreNeverLost(s, f, true);
    }
  }

  lemma OnlyUnnamedLargest(s: Setup, f: Opened)
    requires f.Listed() && f.OnlyUnnamed()
    ensures Largest(s, f.streams, f.unnamed) == f.unnamed
  {
    LargestIsOne(s, f.streams, f.unnamed);
  }

  /** No worker runs a segmented copy, whatever the thresholds; but for a file
      that has grown past the large threshold between its enumeration and the
      listing of its streams. */
  lemma NoWorkerSegments(s: Setup, f: Opened, journal: bool)
    requires s.Valid()
    ensures FateOf(s, f, journal).worker && FateOf(s, f, journal).strategy.SegmentedCopy?
            ==> !f.Listed() && f.unnamed < s.large <= Largest(s, f.streams, f.unnamed)
  {
    if f.Listed() && f.OnlyUnnamed() {
      OnlyUnnamedLargest(s, f);
    }
  }

  /** Such a file does get there, if the threshold is above the segmented one. */
  lemma GrownFileSegments(large: nat)
    requires large > SEGMENT_THRESHOLD
    ensures var local, wsl := Side(false, false, true, true), Side(true, true, false, false);
      var s := Setup(Wsl, large, large, local, wsl, false);
      var f := Opened(SEGMENT_THRESHOLD, [Stream(true, large)], false, false, false, 1);
      s.Valid() && FateOf(s, f, false) == Fate(true, SegmentedCopy)
  {
    var local, wsl := Side(false, false, true, true), Side(true, true, false, false);
    var s := Setup(Wsl, large, large, local, wsl, false);
    var f := Opened(SEGMENT_THRESHOLD, [Stream(true, large)], false, false, false, 1);
    assert Kept(s, f.streams) == [Stream(true, large)];
    assert Largest(s, f.streams, f.unnamed) == large;
  }
}
