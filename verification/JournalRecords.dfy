/**
  Journal events and what a sequence of them means: the checkpoints that can
  still be resumed, and the temporaries whose checkpoints became unreachable
  but whose creation is proven. Texts (paths, stream names, digests, hashes)
  are only compared, so numbers stand for them.
*/
module JournalRecords {
  import opened Bytes

  type Text = nat

  datatype Identity = Identity(volume: nat, id: nat)

  datatype Checkpoint = Checkpoint(
    path: Text, stream: Text, temp: Text, tempIdentity: Option<Identity>,
    sourceIdentity: Option<Identity>, size: nat, mtime: int, watermark: nat, digest: Text)

  datatype Event =
    | Job(run: Text, source: Text, destination: Text, options: Text, timestamp: Text)
    | Check(checkpoint: Checkpoint)
    | PartDone(path: Text)
    | End(run: Text)

  datatype Signature = Signature(source: Text, destination: Text, options: Text)

  function SignatureOf(job: Event): Signature
    requires job.Job?
  {
    Signature(job.source, job.destination, job.options)
  }

  /** A temporary proven to be this program's own, never resumable. */
  datatype Orphan = Orphan(temp: Text, identity: Identity, path: Text)

  type Key = (Text, Text)

  type Resumable = map<Key, Checkpoint>

  datatype State = State(resumable: Resumable, orphans: seq<Orphan>, active: Option<Signature>)

  const EMPTY := State(map[], [], None)

  // ---- harvesting in key order

  predicate NotAfter(a: Key, b: Key) { a.0 < b.0 || (a.0 == b.0 && a.1 <= b.1) }

  lemma {:induction false} FirstKeyExists(keys: set<Key>)
    requires keys != {}
    ensures exists k :: k in keys && forall o :: o in keys ==> NotAfter(k, o)
  {
    var any :| any in keys;
    if keys - {any} == {} {
      assert forall o :: o in keys ==> o == any || o in keys - {any};
      assert forall o :: o in keys ==> NotAfter(any, o);
    } else {
      FirstKeyExists(keys - {any});
      var k :| k in keys - {any} && forall o :: o in keys - {any} ==> NotAfter(k, o);
      var first := if NotAfter(k, any) then k else any;
      forall o | o in keys ensures NotAfter(first, o) {
        assert o != any ==> o in keys - {any};
      }
    }
  }

  function FirstKey(m: Resumable): (k: Key)
    requires m.Keys != {}
    ensures k in m
  {
    FirstKeyExists(m.Keys);
    var k :| k in m.Keys && forall o :: o in m.Keys ==> NotAfter(k, o);
    k
  }

  function Names(orphans: seq<Orphan>): set<Text> { set i | 0 <= i < |orphans| :: orphans[i].temp }

  /** Keeps the proof of one checkpoint: streams of one file share one temp, and
      without a recorded identity nothing can ever be proven. */
  function HarvestOne(c: Checkpoint, orphans: seq<Orphan>): seq<Orphan> {
    if c.tempIdentity.None? || c.temp in Names(orphans) then orphans
    else orphans + [Orphan(c.temp, c.tempIdentity.value, c.path)]
  }

  function Harvest(m: Resumable, orphans: seq<Orphan>): seq<Orphan>
    decreases |m.Keys|
  {
    if m.Keys == {} then orphans
    else
      var k := FirstKey(m);
      KeysShrink(m, k);
      Harvest(m - {k}, HarvestOne(m[k], orphans))
  }

  lemma KeysShrink(m: Resumable, k: Key)
    requires k in m
    ensures |(m - {k}).Keys| < |m.Keys|
  {
    assert (m - {k}).Keys == m.Keys - {k};
  }

  predicate From(o: Orphan, c: Checkpoint) {
    o.temp == c.temp && Some(o.identity) == c.tempIdentity && o.path == c.path
  }

  ghost predicate InMap(o: Orphan, m: Resumable) { exists k :: k in m && From(o, m[k]) }

  /** Harvesting loses no old record and no identity-bearing temp name, and
      invents nothing. */
  lemma {:induction false} HarvestKeeps(m: Resumable, orphans: seq<Orphan>)
    ensures orphans <= Harvest(m, orphans)
    ensures forall k :: k in m && m[k].tempIdentity.Some? ==> m[k].temp in Names(Harvest(m, orphans))
    ensures forall o :: o in Harvest(m, orphans) ==> o in orphans || InMap(o, m)
    decreases |m.Keys|
  {
    if m.Keys != {} {
      var k := FirstKey(m);
      var rest, next := m - {k}, HarvestOne(m[k], orphans);
      KeysShrink(m, k);
      HarvestKeeps(rest, next);
      var all := Harvest(m, orphans);
      NamesGrow(orphans, next);
      NamesGrow(next, all);
      HarvestOneNames(m[k], orphans);
      forall j | j in m && m[j].tempIdentity.Some? ensures m[j].temp in Names(all) {
        assert j != k ==> j in rest && rest[j] == m[j];
      }
      forall o | o in all ensures o in orphans || InMap(o, m) {
        if o !in next {
          var j :| j in rest && From(o, rest[j]);
          assert From(o, m[j]);
        } else if o !in orphans {
          assert From(o, m[k]);
        }
      }
    }
  }

  lemma HarvestOneNames(c: Checkpoint, orphans: seq<Orphan>)
    ensures orphans <= HarvestOne(c, orphans)
    ensures c.tempIdentity.Some? ==> c.temp in Names(HarvestOne(c, orphans))
  {
    var next := HarvestOne(c, orphans);
    if c.tempIdentity.Some? && c.temp !in Names(orphans) {
      assert next[|orphans|].temp == c.temp;
    }
  }

  lemma NamesGrow(a: seq<Orphan>, b: seq<Orphan>)
    requires a <= b
    ensures Names(a) <= Names(b)
  {
    forall t | t in Names(a) ensures t in Names(b) {
      var i :| 0 <= i < |a| && a[i].temp == t;
      assert b[i] == a[i];
    }
  }

  // ---- the meaning of events

  function Retire(m: Resumable, path: Text): Resumable { map k | k in m && k.0 != path :: m[k] }

  /** What one event does to the replayed state. A job header with another
      signature makes all earlier checkpoints unreachable. */
  function Apply(s: State, e: Event): State {
    match e
    case Job(_, _, _, _, _) =>
      var now := Some(SignatureOf(e));
      if s.active.Some? && s.active != now then State(map[], Harvest(s.resumable, s.orphans), now)
      else s.(active := now)
    case Check(c) => s.(resumable := s.resumable[(c.path, c.stream) := c])
    case PartDone(path) => s.(resumable := Retire(s.resumable, path))
    case End(_) => s
  }

  function Fold(events: seq<Event>): State {
    if events == [] then EMPTY else Apply(Fold(events[..|events| - 1]), events[|events| - 1])
  }

  lemma FoldAppend(events: seq<Event>, e: Event)
    ensures Fold(events + [e]) == Apply(Fold(events), e)
  {
    assert (events + [e])[..|events|] == events;
  }

  /** Some recorded checkpoint proves that the temporary is the program's own. */
  ghost predicate Proves(events: seq<Event>, o: Orphan) {
    exists i :: 0 <= i < |events| && events[i].Check? && From(o, events[i].checkpoint)
  }

  ghost predicate Recorded(events: seq<Event>, c: Checkpoint) {
    exists i :: 0 <= i < |events| && events[i] == Check(c)
  }

  lemma StaysRecorded(past: seq<Event>, e: Event)
    ensures forall c :: Recorded(past, c) ==> Recorded(past + [e], c)
    ensures forall o :: Proves(past, o) ==> Proves(past + [e], o)
  {
    var now := past + [e];
    forall c | Recorded(past, c) ensures Recorded(now, c) {
      var i :| 0 <= i < |past| && past[i] == Check(c);
      assert now[i] == Check(c);
    }
    forall o | Proves(past, o) ensures Proves(now, o) {
      var i :| 0 <= i < |past| && past[i].Check? && From(o, past[i].checkpoint);
      assert now[i] == past[i];
    }
  }

  lemma RecordedProves(past: seq<Event>, c: Checkpoint, o: Orphan)
    requires Recorded(past, c) && From(o, c)
    ensures Proves(past, o)
  {
    var i :| 0 <= i < |past| && past[i] == Check(c);
    assert From(o, past[i].checkpoint);
  }

  /** Nothing in the replayed state comes from anywhere but a checkpoint that
      was recorded: neither a resumable entry, nor an orphan. */
  lemma {:induction false} FoldIsProven(events: seq<Event>)
    ensures forall k :: k in Fold(events).resumable ==>
              var c := Fold(events).resumable[k]; k == (c.path, c.stream) && Recorded(events, c)
    ensures forall o :: o in Fold(events).orphans ==> Proves(events, o)
  {
    if events == [] {
    } else {
      var n := |events| - 1;
      var rest, e := events[..n], events[n];
      FoldIsProven(rest);
      var was := Fold(rest);
      assert events == rest + [e];
      StaysRecorded(rest, e);
      HarvestKeeps(was.resumable, was.orphans);
      forall o | InMap(o, was.resumable) ensures Proves(events, o) {
        var k :| k in was.resumable && From(o, was.resumable[k]);
        RecordedProves(events, was.resumable[k], o);
      }
      if e.Check? {
        assert events[n] == Check(e.checkpoint);
      }
    }
  }

  /** The current checkpoint of a stream is the last one recorded for it since
      its file was retired or the job changed. */
  lemma {:induction false} FoldIsLatest(events: seq<Event>, key: Key)
    ensures key in Fold(events).resumable <==> exists i :: IsLatest(events, key, i)
    ensures forall i :: IsLatest(events, key, i) ==>
              key in Fold(events).resumable && Fold(events).resumable[key] == events[i].checkpoint
  {
    if events == [] {
    } else {
      var n := |events| - 1;
      var rest, e := events[..n], events[n];
      FoldIsLatest(rest, key);
      forall i | 0 <= i < n ensures IsLatest(events, key, i) <==> IsLatest(rest, key, i) && !Ends(rest, e, key) {
        LatestStep(rest, e, key, i);
        assert rest + [e] == events;
      }
      if e.Check? && (e.checkpoint.path, e.checkpoint.stream) == key {
        assert IsLatest(events, key, n);
      }
    }
  }

  /** The event makes the stream's earlier checkpoint unreachable. */
  ghost predicate Ends(before: seq<Event>, e: Event, key: Key) {
    match e
    case Job(_, _, _, _, _) => Fold(before).active.Some? && Fold(before).active != Some(SignatureOf(e))
    case Check(c) => (c.path, c.stream) == key
    case PartDone(path) => path == key.0
    case End(_) => false
  }

  ghost predicate IsLatest(events: seq<Event>, key: Key, i: int) {
    && 0 <= i < |events| && events[i].Check?
    && (events[i].checkpoint.path, events[i].checkpoint.stream) == key
    && forall j :: i < j < |events| ==> !Ends(events[..j], events[j], key)
  }

  lemma LatestStep(rest: seq<Event>, e: Event, key: Key, i: int)
    requires 0 <= i < |rest|
    ensures IsLatest(rest + [e], key, i) <==> IsLatest(rest, key, i) && !Ends(rest, e, key)
  {
    var all := rest + [e];
    assert all[..|rest|] == rest && all[|rest|] == e;
    assert forall j :: 0 <= j < |rest| ==> all[..j] == rest[..j] && all[j] == rest[j];
  }
}
