/**
  What outlives a run of the engine on one file: the source as it looks now,
  the checkpoints recorded for it, and the published destination. Each method
  is one primitive step, and each keeps `Safe`; so a crash between any two of
  them leaves a safe world, whatever becomes of the temporaries.
*/
module EngineWorld {
  import opened Bytes
  import opened JournalRecords

  type Data = seq<Byte>

  /** The key of the unnamed stream. */
  const BASE: Text := 0

  /** What source revalidation compares. */
  datatype Facts = Facts(identity: Identity, size: nat, mtime: int)

  datatype StreamInfo = StreamInfo(name: Text, size: nat)

  datatype Published = Published(main: Data, streams: map<Text, Data>, digest: Option<Text>)

  /** The source and the digest. Content is a function of the facts: it is fixed
      while identity, size and last-write time are unchanged. */
  datatype Setting = Setting(content: (Facts, Text) -> Data, listed: Facts -> seq<StreamInfo>, hash: Data -> Text)
  {
    ghost predicate Sound() {
      && (forall a, b :: hash(a) == hash(b) ==> a == b)
      && (forall f :: |content(f, BASE)| == f.size)
      && (forall f, i :: 0 <= i < |listed(f)| ==>
            listed(f)[i].name != BASE && |content(f, listed(f)[i].name)| == listed(f)[i].size)
      && (forall f, i, j :: 0 <= i < j < |listed(f)| ==> listed(f)[i].name != listed(f)[j].name)
    }

    function Prefix(f: Facts, stream: Text, n: nat): Data
      requires n <= |content(f, stream)|
    {
      content(f, stream)[..n]
    }

    /** The checkpoint's digest is of the file's own prefix. */
    ghost predicate Attests(c: Checkpoint, f: Facts) {
      && c.watermark <= |content(f, c.stream)|
      && c.digest == hash(Prefix(f, c.stream, c.watermark))
    }

    /** The streams a temporary has after the listed ones were copied into what
        it already held. */
    function Streams(held: map<Text, Data>, f: Facts, infos: seq<StreamInfo>): map<Text, Data> {
      if infos == [] then held
      else
        var last := infos[|infos| - 1].name;
        Streams(held, f, infos[..|infos| - 1])[last := content(f, last)]
    }

    function Names(f: Facts): set<Text> { set i | 0 <= i < |listed(f)| :: listed(f)[i].name }

    /** The published file is the source, and carries the source's digest; its
        streams are the source's over those its temporary held to begin with. */
    ghost predicate Equals(p: Published, f: Facts, withStreams: bool, held: map<Text, Data>) {
      && p.main == content(f, BASE)
      && p.streams == (if withStreams then Streams(held, f, listed(f)) else map[])
      && (p.digest.Some? ==> p.digest.value == hash(content(f, BASE)))
    }

    /** The published file is the source, and nothing else. */
    ghost predicate Exactly(p: Published, f: Facts, withStreams: bool) { Equals(p, f, withStreams, map[]) }
  }

  lemma {:induction false} StreamsAt(s: Setting, held: map<Text, Data>, f: Facts, infos: seq<StreamInfo>, name: Text)
    ensures var listed := exists i :: 0 <= i < |infos| && infos[i].name == name;
      && (name in s.Streams(held, f, infos) <==> listed || name in held)
      && (listed ==> s.Streams(held, f, infos)[name] == s.content(f, name))
      && (!listed && name in held ==> s.Streams(held, f, infos)[name] == held[name])
  {
    if infos == [] {
    } else {
      var rest, last := infos[..|infos| - 1], infos[|infos| - 1];
      StreamsAt(s, held, f, rest, name);
      if last.name == name {
        assert infos[|infos| - 1].name == name;
      }
      forall i | 0 <= i < |rest| ensures rest[i] == infos[i] {
      }
    }
  }

  /** What is published is exactly the source if and only if the temporary it
      came from held no stream the source does not have. */
  lemma ExactlyWhen(s: Setting, p: Published, f: Facts, held: map<Text, Data>)
    requires s.Equals(p, f, true, held)
    ensures s.Exactly(p, f, true) <==> held.Keys <= s.Names(f)
  {
    forall name ensures name in s.Names(f) <==> exists i :: 0 <= i < |s.listed(f)| && s.listed(f)[i].name == name {
    }
    var own := s.Streams(map[], f, s.listed(f));
    forall name
      ensures name in p.streams <==> name in s.Names(f) || name in held
      ensures name in own <==> name in s.Names(f)
      ensures name in s.Names(f) ==> p.streams[name] == own[name]
    {
      StreamsAt(s, held, f, s.listed(f), name);
      StreamsAt(s, map[], f, s.listed(f), name);
    }
    if held.Keys <= s.Names(f) {
      assert p.streams.Keys == own.Keys;
      assert p.streams == own;
    } else {
      var name :| name in held.Keys && name !in s.Names(f);
      assert name in p.streams && name !in own;
    }
  }

  /** A resumed temporary with one more stream: the stream is published. */
  lemma ForeignStreamPublished(s: Setting, f: Facts) returns (held: map<Text, Data>, p: Published)
    requires s.Sound() && s.listed(f) == []
    ensures s.Equals(p, f, true, held) && !s.Exactly(p, f, true) && 7 in p.streams
  {
    held := map[7 := []];
    p := Published(s.content(f, BASE), held, None);
    assert 7 in held.Keys && 7 !in s.Names(f);
    ExactlyWhen(s, p, f, held);
  }

  class World {
    const setting: Setting
    const path: Text
    /** Whether the destination can hold named streams. */
    const withStreams: bool
    /** The source as it is now, and as it was before. */
    var facts: Facts
    var stale: set<Facts>
    /** The journal's checkpoints for this file, by stream. */
    var journal: map<Text, Checkpoint>
    /** Every checkpoint any run has tried to record. */
    var recorded: set<Checkpoint>
    /** The version of the source each temporary was created for. */
    var owner: map<Text, Facts>
    var published: Option<Published>
    /** The version it was published for, and the streams its temporary held when
        it was opened. */
    ghost var publishedFor: Option<Facts>
    ghost var publishedOver: map<Text, Data>
    /** Names and identities of the temporaries deleted on a journal's word. */
    ghost var discarded: set<(Text, Identity)>

    ghost predicate Safe()
      reads this
    {
      && setting.Sound()
      && facts !in stale
      && RecordsTrue()
      && JournalRecorded()
      && PublishedTrue()
      && DiscardsProven()
    }

    /** Every checkpoint attests the source version its temporary was made for,
        unless that version is gone for good. */
    ghost predicate RecordsTrue()
      reads this`recorded, this`owner, this`stale
    {
      forall c :: c in recorded ==> True(c)
    }

    ghost predicate True(c: Checkpoint)
      reads this`owner, this`stale
    {
      && c.path == path && c.temp in owner
      && (c.stream == BASE ==> FromFacts(c, owner[c.temp]))
      && (owner[c.temp] in stale || setting.Attests(c, owner[c.temp]))
    }

    predicate FromFacts(c: Checkpoint, f: Facts) {
      c.size == f.size && c.mtime == f.mtime && c.sourceIdentity == Some(f.identity)
    }

    ghost predicate JournalRecorded()
      reads this`journal, this`recorded
    {
      forall s :: s in journal ==> journal[s] in recorded && journal[s].stream == s
    }

    /** What is published is a version the source really had. */
    ghost predicate PublishedTrue()
      reads this`published, this`publishedFor, this`publishedOver, this`facts, this`stale
    {
      published.Some? ==>
        && publishedFor.Some? && Seen(publishedFor.value)
        && setting.Equals(published.value, publishedFor.value, withStreams, publishedOver)
    }

    /** The source has this version now or had it before. */
    ghost predicate Seen(f: Facts)
      reads this`facts, this`stale
    {
      f == facts || f in stale
    }

    ghost predicate DiscardsProven()
      reads this`discarded, this`recorded
    {
      forall d :: d in discarded ==> Proven(d.0, d.1)
    }

    ghost predicate Proven(name: Text, identity: Identity)
      reads this`recorded
    {
      exists c :: c in recorded && c.temp == name && c.tempIdentity == Some(identity)
    }

    constructor (setting: Setting, path: Text, withStreams: bool, facts: Facts)
      requires setting.Sound()
      ensures Safe() && journal == map[] && published == None && this.facts == facts
      ensures this.setting == setting && this.withStreams == withStreams && this.path == path
    {
      this.setting, this.path, this.withStreams, this.facts := setting, path, withStreams, facts;
      stale, journal, recorded, owner, published, discarded := {}, map[], {}, map[], None, {};
      publishedFor, publishedOver := None, map[];
    }

    /** The source may change at any time, never back to an earlier version. */
    method Disturb()
      requires Safe()
      modifies this`facts, this`stale
      ensures Safe()
      ensures (facts == old(facts) && stale == old(stale)) || stale == old(stale) + {old(facts)}
    {
      var next: Facts := *;
      if next != facts && next !in stale {
        stale, facts := stale + {facts}, next;
      }
    }

    /** A new temporary; the name must never have been used before. */
    method Create(name: Text, snapshot: Facts) returns (ok: bool)
      requires Safe()
      modifies this`owner
      ensures Safe()
      ensures ok ==> name !in old(owner) && owner == old(owner)[name := snapshot]
      ensures !ok ==> owner == old(owner)
    {
      ok := *;
      ok := ok && name !in owner;
      if ok {
        owner := owner[name := snapshot];
      }
    }

    /** Records a checkpoint; even a failed append may have reached the file. */
    method Record(c: Checkpoint) returns (ok: bool)
      requires Safe() && True(c)
      modifies this`journal, this`recorded
      ensures Safe() && recorded == old(recorded) + {c}
      ensures ok ==> journal == old(journal)[c.stream := c]
    {
      ok := *;
      recorded := recorded + {c};
      var survives: bool := *;
      if ok || survives {
        journal := journal[c.stream := c];
      }
    }

    ghost method Discard(name: Text, identity: Identity)
      requires Safe() && Proven(name, identity)
      modifies this`discarded
      ensures Safe() && discarded == old(discarded) + {(name, identity)}
    {
      discarded := discarded + {(name, identity)};
    }

    /** The rename makes the temporary the destination file. What follows it may
        still fail, so a failure leaves either the old file or the new one. */
    method Publish(p: Published, ghost f: Facts, ghost held: map<Text, Data>) returns (ok: bool)
      requires Safe() && Seen(f) && setting.Equals(p, f, withStreams, held)
      modifies this`published, this`publishedFor, this`publishedOver
      ensures Safe()
      ensures ok ==> PublishedIs(p, f, held)
      ensures !ok ==> PublishedIs(p, f, held) || (published == old(published) && publishedFor == old(publishedFor)
                                                  && publishedOver == old(publishedOver))
    {
      var renamed: bool := *;
      var finished: bool := *;
      if renamed {
        published, publishedFor, publishedOver := Some(p), Some(f), held;
      }
      ok := renamed && finished;
    }

    ghost predicate PublishedIs(p: Published, f: Facts, held: map<Text, Data>)
      reads this`published, this`publishedFor, this`publishedOver
    {
      published == Some(p) && publishedFor == Some(f) && publishedOver == held
    }

    /** A crash and a new run: the journal replays to some of what was recorded,
        under the streams' own keys. */
    method Restart(replayed: map<Text, Checkpoint>)
      requires Safe()
      requires forall s :: s in replayed ==> replayed[s] in recorded && replayed[s].stream == s
      modifies this`journal
      ensures Safe() && journal == replayed
    {
      journal := replayed;
    }
  }
}
