/**
  The framing of journal records as bytes. The record text (JSON with a
  checksum) is any encoding in which a strict prefix of a record never decodes;
  `PrefixCode` shows that such encodings exist.
*/
module JournalCodec {
  import opened Bytes
  import opened JournalRecords

  type Data = seq<Byte>

  const NL: Byte := 10
  const CR: Byte := 13

  /** Longest raw record, newline included, that is parsed at all. */
  const MAX_RECORD: nat := 1024 * 1024

  const VERSION: nat := 1

  /** A record as it is stored: the version, the event and a checksum of both. */
  datatype Stored = Stored(version: nat, event: Event, sum: Text)

  /** What a line is as JSON: its version field if it has one, and the record if
      it has a record's shape. */
  datatype Json = NotJson | Object(version: Option<nat>, stored: Option<Stored>)

  /** What a line parses to: its version field, and the event if the line has a
      record's shape and its checksum is right. */
  datatype Parsed = Parsed(version: Option<nat>, event: Option<Event>)

  const GARBAGE := Parsed(None, None)

  datatype Codec = Codec(write: Stored -> Data, json: Data -> Json, sum: (nat, Event) -> Text)
  {
    ghost predicate Sound() {
      && (forall s :: write(s) != [] && NL !in write(s) && CR !in write(s))
      && (forall s :: json(write(s)) == Object(Some(s.version), Some(s)))
      && (forall s, n :: 0 <= n < |write(s)| ==> json(write(s)[..n]) == NotJson)
    }

    function Encode(e: Event): Data { write(Stored(VERSION, e, sum(VERSION, e))) }

    /** The checksum is taken over the version the record itself gives. */
    function Parse(d: Data): Parsed {
      match json(d)
      case NotJson => GARBAGE
      case Object(version, stored) =>
        Parsed(version, if stored.Some? && Checked(stored.value) then Some(stored.value.event) else None)
    }

    predicate Checked(s: Stored) { s.sum == sum(s.version, s.event) }

    function Line(e: Event): Data { Encode(e) + [NL] }

    /** The record is short enough to be read back. */
    predicate Fits(e: Event) { |Encode(e)| < MAX_RECORD }

    /** Cutting the record's newline off does not make it short enough. */
    predicate Cuttable(e: Event) { |Encode(e)| != MAX_RECORD }
  }

  // ---- an encoding of the required kind

  /** The fields of an event, tagged; different events have different fields. */
  function Fields(e: Event): seq<nat> {
    match e
    case Job(run, source, destination, options, timestamp) => [0, run, source, destination, options, timestamp]
    case Check(c) =>
      [1, c.path, c.stream, c.temp] + IdentityFields(c.tempIdentity) + IdentityFields(c.sourceIdentity)
      + [c.size, if c.mtime < 0 then 1 else 0, if c.mtime < 0 then -c.mtime else c.mtime, c.watermark, c.digest]
    case PartDone(path) => [2, path]
    case End(run) => [3, run]
  }

  function IdentityFields(i: Option<Identity>): seq<nat> {
    match i
    case None => [0, 0, 0]
    case Some(id) => [1, id.volume, id.id]
  }

  lemma FieldsInjective(a: Event, b: Event)
    requires Fields(a) == Fields(b)
    ensures a == b
  {
    var f, g := Fields(a), Fields(b);
    assert f[0] == g[0] && f[1] == g[1];
    if a.Check? {
      assert b.Check? && |f| == 15;
      assert f[2] == g[2] && f[3] == g[3] && f[4] == g[4] && f[5] == g[5] && f[6] == g[6] && f[7] == g[7];
      assert f[8] == g[8] && f[9] == g[9] && f[10] == g[10] && f[11] == g[11] && f[12] == g[12];
      assert f[13] == g[13] && f[14] == g[14];
    } else if a.Job? {
      assert f[2] == g[2] && f[3] == g[3] && f[4] == g[4] && f[5] == g[5];
    }
  }

  /** Each number in unary, closed by 2; the whole closed by 3. */
  function Unary(n: nat): Data { if n == 0 then [2] else [1] + Unary(n - 1) }

  function Written(fields: seq<nat>): Data {
    if fields == [] then [3] else Unary(fields[0]) + Written(fields[1..])
  }

  predicate Extends(p: Data, d: Data) { |p| <= |d| && d[..|p|] == p }

  lemma {:induction false} UnaryPrefixFree(m: nat, n: nat, x: Data, y: Data)
    requires Extends(Unary(m) + x, Unary(n) + y)
    ensures m == n && Extends(x, y)
  {
    var a, b := Unary(m) + x, Unary(n) + y;
    assert a[0] == b[0];
    if m == 0 || n == 0 {
      assert a[0] == Unary(m)[0] && b[0] == Unary(n)[0];
      assert a[1..] == x && b[1..] == y;
      assert b[..|a|][1..] == b[1..][..|a| - 1];
    } else {
      assert a[1..] == Unary(m - 1) + x && b[1..] == Unary(n - 1) + y;
      assert b[..|a|][1..] == b[1..][..|a| - 1];
      UnaryPrefixFree(m - 1, n - 1, x, y);
    }
  }

  /** No written sequence is a prefix of another. */
  lemma {:induction false} WrittenPrefixFree(f: seq<nat>, g: seq<nat>)
    requires Extends(Written(f), Written(g))
    ensures f == g
  {
    FirstByte(f);
    FirstByte(g);
    assert Written(f)[0] == Written(g)[0];
    if f == [] {
    } else {
      UnaryPrefixFree(f[0], g[0], Written(f[1..]), Written(g[1..]));
      WrittenPrefixFree(f[1..], g[1..]);
      assert f == [f[0]] + f[1..] && g == [g[0]] + g[1..];
    }
  }

  lemma FirstByte(f: seq<nat>)
    ensures Written(f) != [] && (Written(f)[0] == 3 <==> f == [])
  {
    if f != [] {
      assert Written(f)[0] == Unary(f[0])[0];
    }
  }

  lemma {:induction false} WrittenBytes(f: seq<nat>)
    ensures Written(f) != []
    ensures NL !in Written(f) && CR !in Written(f)
  {
    if f == [] {
    } else {
      UnaryBytes(f[0]);
      WrittenBytes(f[1..]);
    }
  }

  lemma {:induction false} UnaryBytes(n: nat)
    ensures NL !in Unary(n) && CR !in Unary(n)
  {
    if n != 0 {
      UnaryBytes(n - 1);
    }
  }

  function StoredFields(s: Stored): seq<nat> { [s.version, s.sum] + Fields(s.event) }

  lemma StoredInjective(s: Stored, t: Stored)
    requires StoredFields(s) == StoredFields(t)
    ensures s == t
  {
    assert StoredFields(s)[0] == StoredFields(t)[0] && StoredFields(s)[1] == StoredFields(t)[1];
    assert StoredFields(s)[2..] == Fields(s.event) && StoredFields(t)[2..] == Fields(t.event);
    FieldsInjective(s.event, t.event);
  }

  ghost function Unwrite(d: Data): Json {
    if exists s :: Written(StoredFields(s)) == d then
      var s :| Written(StoredFields(s)) == d;
      Object(Some(s.version), Some(s))
    else NotJson
  }

  ghost function PrefixCode(): Codec {
    Codec(s => Written(StoredFields(s)), d => Unwrite(d), (v, e) => 0)
  }

  /** Encodings with all the required properties exist. */
  lemma PrefixCodeIsSound()
    ensures PrefixCode().Sound()
  {
    var c := PrefixCode();
    forall s ensures c.write(s) != [] && NL !in c.write(s) && CR !in c.write(s) {
      WrittenBytes(StoredFields(s));
    }
    forall s ensures c.json(c.write(s)) == Object(Some(s.version), Some(s)) {
      forall o | Written(StoredFields(o)) == Written(StoredFields(s)) ensures o == s {
        WrittenPrefixFree(StoredFields(o), StoredFields(s));
        StoredInjective(o, s);
      }
    }
    forall s, n | 0 <= n < |c.write(s)| ensures c.json(c.write(s)[..n]) == NotJson {
      var p := c.write(s)[..n];
      forall o ensures Written(StoredFields(o)) != p {
        if Written(StoredFields(o)) == p {
          WrittenPrefixFree(StoredFields(o), StoredFields(s));
        }
      }
    }
  }

  lemma {:induction false} UnaryLength(n: nat)
    ensures |Unary(n)| == n + 1
  {
    if n == 0 {
    } else {
      UnaryLength(n - 1);
    }
  }

  /** Records of every length from nine bytes on exist. */
  lemma EndLength(run: nat)
    ensures |PrefixCode().Encode(End(run))| == run + 9
  {
    var f := StoredFields(Stored(VERSION, End(run), 0));
    assert f == [VERSION, 0, 3, run];
    UnaryLength(VERSION);
    UnaryLength(0);
    UnaryLength(3);
    UnaryLength(run);
    assert f[1..] == [0, 3, run] && [0, 3, run][1..] == [3, run] && [3, run][1..] == [run] && [run][1..] == [];
    assert |Written([])| == 1;
    assert |Written([run])| == run + 2;
    assert |Written([3, run])| == run + 6;
    assert |Written([0, 3, run])| == run + 7;
    assert PrefixCode().Encode(End(run)) == Written(f);
  }
}
