/**
  What is left of a journal of this program after a crash at any byte: it can
  be opened again, and what it replays is the state after some prefix of its
  events.
*/
module JournalRecovery {
  import opened Bytes
  import opened JournalRecords
  import opened JournalCodec
  import opened JournalLines
  import opened JournalLoad
  import opened Journaling

  /** An own record reads as its event or as nothing, never as another version. */
  lemma PieceReads(c: Codec, raw: Data)
    requires c.Sound() && Own(c, raw)
    ensures Read(c, raw) == GARBAGE || exists e :: c.Fits(e) && Read(c, raw) == Parsed(Some(VERSION), Some(e))
  {
    var e: Event, n: nat :| IsPiece(c, e, n, raw);
    StripPiece(c, e, n, raw);
    if n == |c.Encode(e)| {
      assert c.Encode(e)[..n] == c.Encode(e);
    }
  }

  lemma StripPiece(c: Codec, e: Event, n: nat, raw: Data)
    requires c.Sound() && IsPiece(c, e, n, raw)
    ensures Strip(raw) == c.Encode(e)[..n]
  {
    var p := c.Encode(e)[..n];
    if n > 0 {
      assert p[n - 1] in c.Encode(e);
    }
    assert (p + [NL])[..n] == p;
  }

  /** A journal of this program is never brittle, ... */
  lemma GenuineIsNotBrittle(c: Codec, d: Data)
    requires c.Sound() && Genuine(c, d)
    ensures !Brittle(c, d)
  {
    var t := Tail(d);
    BodyAndTail(d);
    if t != [] {
      assert t[..|t|] == t;
      OneRecord(t);
      assert t in Records(t);
      PieceIsShort(c, t);
    }
  }

  lemma PieceIsShort(c: Codec, raw: Data)
    requires c.Sound() && Own(c, raw) && NL !in raw
    ensures |raw| == MAX_RECORD ==> Decoded(c, raw) == []
  {
    var e: Event, n: nat :| IsPiece(c, e, n, raw);
    assert (c.Encode(e)[..n] + [NL])[n] == NL;
    if n < |c.Encode(e)| {
      DecodedPrefix(c, e, n);
    } else {
      assert c.Encode(e)[..n] == c.Encode(e);
    }
  }

  /** ... and is never mistaken for another version's. */
  lemma GenuineIsNotForeign(c: Codec, d: Data)
    requires c.Sound() && Genuine(c, d)
    ensures !Foreign(c, Records(d))
  {
    if Records(d) != [] {
      PieceReads(c, Records(d)[0]);
    }
  }

  /** A crash that leaves any prefix of the file: the journal opens again, and
      replays to the state some prefix of its events led to. */
  lemma CrashThenReplay(c: Codec, d: Data, k: nat, l: Loading)
    requires c.Sound() && Genuine(c, d) && k <= |d|
    requires Replayed(c, Records(d[..k]), l)
    ensures Genuine(c, d[..k]) && !Brittle(c, d[..k])
    ensures !l.Refused?
    ensures l.Loaded? ==> exists m :: 0 <= m <= |Survivors(c, d)| && l.state == Fold(Survivors(c, d)[..m])
  {
    CutKeepsPrefix(c, d, k);
    GenuineIsNotBrittle(c, d[..k]);
    GenuineIsNotForeign(c, d[..k]);
    if l.Loaded? {
      var m := |Survivors(c, d[..k])|;
      assert Survivors(c, d[..k]) == Survivors(c, d)[..m];
    }
  }
}
