/**
  Sequences of runs over one file. Every run may stop at any step, and the next
  one starts from whatever the journal replays to and whatever is left of the
  temporaries.
*/
module EngineRuns {
  import opened Bytes
  import opened JournalRecords
  import opened EngineWorld
  import opened Checkpoints
  import opened EngineCopy
  import opened EngineSparse
  import opened Segments
  import opened SegmentedCopy

  /** The checkpoints of this file that a journal replays to are checkpoints
      that were recorded, each under its own stream. */
  lemma ReplayIsRecorded(w: World, events: seq<Event>, replayed: map<Text, Checkpoint>)
    requires forall c :: Recorded(events, c) && c.path == w.path ==> c in w.recorded
    requires forall s :: s in replayed ==>
               (w.path, s) in Fold(events).resumable && replayed[s] == Fold(events).resumable[(w.path, s)]
    ensures forall s :: s in replayed ==> replayed[s] in w.recorded && replayed[s].stream == s
  {
    FoldIsProven(events);
  }

  /** What the surroundings decide for one run. */
  datatype Input = Input(chunk: nat, checkpointThreshold: nat, journaling: bool, shouldHash: bool,
                         strategy: Strategy, found: Option<Candidate>)

  datatype Strategy = Streamed | Sparse | Segmented(remote: bool, threshold: nat)

  /** The file system's report of allocated ranges, for each source version. */
  type Provider = Facts -> seq<Range>

  ghost predicate Truthful(setting: Setting, provider: Provider) {
    forall f :: AllReached(provider(f), setting.content(f, BASE))
  }

  predicate FromRecords(replayed: map<Text, Checkpoint>, recorded: set<Checkpoint>) {
    forall s :: s in replayed ==> replayed[s] in recorded && replayed[s].stream == s
  }

  /** One run, from any safe world and with any object under the temporary's
      name. It may fail at any step; a failure leaves what was published before,
      or, after the rename, what this run published. */
  method OneRun(w: World, input: Input, provider: Provider) returns (ok: bool)
    requires w.Safe() && Truthful(w.setting, provider) && Possible(w, input.found)
    modifies w
    ensures w.Safe()
    ensures ok ==> PublishedOver(w, old(w.facts), input.found)
    ensures !ok ==> (|| PublishedOver(w, old(w.facts), input.found)
                     || Unpublished(w, old(w.published), old(w.publishedFor), old(w.publishedOver)))
  {
    // what the journal replays to: some of what was ever recorded
    var none: map<Text, Checkpoint> := map[];
    assert FromRecords(none, w.recorded);
    var replayed: map<Text, Checkpoint> :| FromRecords(replayed, w.recorded);
    assert FromRecords(replayed, w.recorded);
    w.Restart(replayed);
    var req := Request(w.facts, input.checkpointThreshold, input.chunk);
    var log := new Log(input.journaling);
    var streams := w.setting.listed(req.snapshot);
    match input.strategy {
      case Streamed => ok := CopyStreamed(w, req, log, streams, input.found, input.shouldHash);
      case Sparse => ok := CopySparse(w, req, log, streams, provider(req.snapshot), input.found, input.shouldHash);
      case Segmented(remote, threshold) =>
        var plan := SegmentPlan(true, req.snapshot.size, threshold, req.chunk);
        if plan.None? {
          ok := CopyStreamed(w, req, log, streams, input.found, input.shouldHash);
        } else {
          var read, written;
          ok, read, written := CopySegmented(w, req, log, streams, plan.value, remote, input.shouldHash);
        }
    }
  }

  /** Any sequence of runs, with the source changing between and during them:
      whatever is published is a version the source has or had, with its digest,
      over the streams found in the temporary; and it is exactly that version if
      and only if the temporary held no foreign stream. */
  method AnyRuns(w: World, inputs: seq<Input>, provider: Provider)
    requires w.Safe() && Truthful(w.setting, provider)
    requires forall i :: 0 <= i < |inputs| ==> Possible(w, inputs[i].found)
    modifies w
    ensures w.Safe()
    ensures w.published.Some? ==>
              && w.publishedFor.Some? && w.Seen(w.publishedFor.value)
              && w.setting.Equals(w.published.value, w.publishedFor.value, w.withStreams, w.publishedOver)
    ensures w.published.Some? && w.withStreams ==>
              (w.setting.Exactly(w.published.value, w.publishedFor.value, true)
               <==> w.publishedOver.Keys <= w.setting.Names(w.publishedFor.value))
    ensures HeldBySome(w.publishedOver, inputs, |inputs|)
            || Unpublished(w, old(w.published), old(w.publishedFor), old(w.publishedOver))
  {
    for i := 0 to |inputs|
      invariant w.Safe()
      invariant HeldBySome(w.publishedOver, inputs, i)
                || Unpublished(w, old(w.published), old(w.publishedFor), old(w.publishedOver))
    {
      ghost var before := w.publishedOver;
      w.Disturb();
      var ok := OneRun(w, inputs[i], provider);
      MoreRuns(before, inputs, i);
    }
    if w.published.Some? && w.withStreams {
      ExactlyWhen(w.setting, w.published.value, w.publishedFor.value, w.publishedOver);
    }
  }

  /** The streams were found in the temporary of one of the first n runs, or there
      were none. */
  ghost predicate HeldBySome(held: map<Text, Data>, inputs: seq<Input>, n: int) {
    || held == map[]
    || exists i :: 0 <= i < n <= |inputs| && inputs[i].found.Some? && inputs[i].found.value.streams == held
  }

  lemma MoreRuns(held: map<Text, Data>, inputs: seq<Input>, i: nat)
    requires i < |inputs|
    ensures HeldBySome(held, inputs, i) ==> HeldBySome(held, inputs, i + 1)
    ensures inputs[i].found.Some? ==> HeldBySome(inputs[i].found.value.streams, inputs, i + 1)
    ensures HeldBySome(map[], inputs, i + 1)
  {
  }

  /** A run that publishes over a temporary with a foreign stream publishes that
      stream. */
  lemma ForeignStreamStays(w: World, f: Facts, held: map<Text, Data>, k: Text)
    requires IsPublished(w, f, held) && w.withStreams && k in held && k !in w.setting.Names(f)
    ensures k in w.published.value.streams && !w.setting.Exactly(w.published.value, f, true)
  {
    StreamsAt(w.setting, held, f, w.setting.listed(f), k);
    ExactlyWhen(w.setting, w.published.value, f, held);
  }

  // ---- sources and digests of the assumed kind exist

  function Number(d: Data): nat {
    if d == [] then 0 else 1 + d[0] as nat + 256 * Number(d[1..])
  }

  lemma {:induction false} NumberInjective(a: Data, b: Data)
    requires Number(a) == Number(b)
    ensures a == b
  {
    if a != [] && b != [] {
      var x, y := Number(a[1..]), Number(b[1..]);
      assert a[0] as int + 256 * x == b[0] as int + 256 * y;
      NumberInjective(a[1..], b[1..]);
      assert a == [a[0]] + a[1..] && b == [b[0]] + b[1..];
    }
  }

  lemma SettingExists() returns (s: Setting)
    ensures s.Sound()
  {
    s := Setting((f: Facts, stream) => if stream == BASE then Zeros(f.size) else [], f => [], d => Number(d));
    forall a, b | s.hash(a) == s.hash(b) ensures a == b {
      NumberInjective(a, b);
    }
  }
}
