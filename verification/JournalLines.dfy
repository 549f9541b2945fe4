/**
  The journal file as bytes: how it splits into records, which events survive
  in it, and what appending, healing a missing newline, tearing and cutting do
  to the survivors.
*/
module JournalLines {
  import opened Bytes
  import opened JournalRecords
  import opened JournalCodec

  /** Length of the first record, its newline included if it has one. */
  function FirstLength(d: Data): (n: nat)
    ensures n <= |d| && (d != [] ==> n > 0)
  {
    if d == [] then 0 else if d[0] == NL then 1 else 1 + FirstLength(d[1..])
  }

  function Records(d: Data): seq<Data>
    decreases |d|
  {
    if d == [] then [] else [d[..FirstLength(d)]] + Records(d[FirstLength(d)..])
  }

  predicate Closed(d: Data) { d == [] || d[|d| - 1] == NL }

  lemma {:induction false} FirstOfClosed(a: Data, b: Data)
    requires a != [] && Closed(a)
    ensures FirstLength(a + b) == FirstLength(a)
    ensures Closed(a[FirstLength(a)..])
  {
    assert (a + b)[1..] == a[1..] + b;
    if a[0] != NL {
      FirstOfClosed(a[1..], b);
      assert a[1..][FirstLength(a[1..])..] == a[FirstLength(a)..];
    }
  }

  /** A closed file and what follows it split independently. */
  lemma {:induction false} RecordsOfClosed(a: Data, b: Data)
    requires Closed(a)
    ensures Records(a + b) == Records(a) + Records(b)
    decreases |a|
  {
    if a == [] {
      assert a + b == b;
    } else {
      var n := FirstLength(a);
      var first, rest := a[..n], a[n..];
      FirstOfClosed(a, b);
      RecordsOfClosed(rest, b);
      RecordsUnfold(a, first, rest);
      assert a + b == first + (rest + b);
      RecordsUnfold(a + b, first, rest + b);
      Regroup([first], Records(rest), Records(b));
    }
  }

  lemma Regroup<T>(x: seq<T>, y: seq<T>, z: seq<T>)
    ensures x + (y + z) == x + y + z
  {
  }

  lemma RecordsUnfold(d: Data, first: Data, rest: Data)
    requires first != [] && d == first + rest && FirstLength(d) == |first|
    ensures Records(d) == [first] + Records(rest)
  {
    assert d[..|first|] == first && d[|first|..] == rest;
  }

  lemma {:induction false} OneRecord(t: Data)
    requires t != [] && NL !in t[..|t| - 1]
    ensures FirstLength(t) == |t| && Records(t) == [t]
  {
    if |t| > 1 {
      assert t[0] == t[..|t| - 1][0];
      assert t[1..][..|t| - 2] == t[..|t| - 1][1..];
      OneRecord(t[1..]);
    }
    assert t[..|t|] == t && t[|t|..] == [];
  }

  /** Length of the file up to its last newline. */
  function ClosedLength(d: Data): (n: nat)
    ensures n <= |d|
  {
    if Closed(d) then |d| else ClosedLength(d[..|d| - 1])
  }

  function Body(d: Data): Data { d[..ClosedLength(d)] }

  /** The unterminated end of the file. */
  function Tail(d: Data): Data { d[ClosedLength(d)..] }

  lemma {:induction false} ClosedLengthMeans(d: Data)
    ensures Closed(Body(d)) && NL !in Tail(d)
  {
    if !Closed(d) {
      var init, last := d[..|d| - 1], d[|d| - 1];
      ClosedLengthMeans(init);
      assert Body(d) == Body(init) && Tail(d) == Tail(init) + [last];
    }
  }

  lemma BodyAndTail(d: Data)
    ensures d == Body(d) + Tail(d) && Closed(Body(d)) && NL !in Tail(d)
    ensures Records(d) == Records(Body(d)) + Records(Tail(d))
  {
    ClosedLengthMeans(d);
    RecordsOfClosed(Body(d), Tail(d));
  }

  // ---- which events a file holds

  function Strip(raw: Data): Data {
    var line := if raw != [] && raw[|raw| - 1] == NL then raw[..|raw| - 1] else raw;
    if line != [] && line[|line| - 1] == CR then line[..|line| - 1] else line
  }

  /** What a raw record is read as; an oversized one is not parsed. */
  function Read(c: Codec, raw: Data): Parsed {
    if |raw| > MAX_RECORD then GARBAGE else c.Parse(Strip(raw))
  }

  function Decoded(c: Codec, raw: Data): seq<Event> {
    var e := Read(c, raw).event;
    if e.Some? then [e.value] else []
  }

  function EventsOf(c: Codec, records: seq<Data>): seq<Event> {
    if records == [] then [] else Decoded(c, records[0]) + EventsOf(c, records[1..])
  }

  /** The events that survive in a file. */
  function Survivors(c: Codec, d: Data): seq<Event> { EventsOf(c, Records(d)) }

  lemma {:induction false} EventsConcat(c: Codec, a: seq<Data>, b: seq<Data>)
    ensures EventsOf(c, a + b) == EventsOf(c, a) + EventsOf(c, b)
  {
    if a == [] {
      assert a + b == b;
    } else {
      EventsConcat(c, a[1..], b);
      assert (a + b)[1..] == a[1..] + b;
    }
  }

  lemma EventsOfOne(c: Codec, raw: Data)
    ensures EventsOf(c, [raw]) == Decoded(c, raw)
  {
    assert EventsOf(c, [raw]) == Decoded(c, raw) + EventsOf(c, []);
  }

  lemma SurvivorsSplit(c: Codec, a: Data, b: Data)
    requires Closed(a)
    ensures Survivors(c, a + b) == Survivors(c, a) + Survivors(c, b)
  {
    RecordsOfClosed(a, b);
    EventsConcat(c, Records(a), Records(b));
  }

  lemma SurvivorsOfOne(c: Codec, t: Data)
    ensures t != [] && NL !in t[..|t| - 1] ==> Survivors(c, t) == Decoded(c, t)
    ensures t == [] ==> Survivors(c, t) == []
  {
    if t != [] && NL !in t[..|t| - 1] {
      OneRecord(t);
      EventsOfOne(c, t);
    }
  }

  /** Whether a stored record is read depends on its size and its checksum, and
      not on its version: the checksum is over the version it gives. */
  lemma ReadByChecksum(c: Codec, s: Stored)
    requires c.Sound()
    ensures Decoded(c, c.write(s) + [NL]) == if |c.write(s)| < MAX_RECORD && c.Checked(s) then [s.event] else []
  {
    var b := c.write(s);
    assert b[|b| - 1] in b;
    assert (b + [NL])[..|b|] == b;
    assert Strip(b + [NL]) == b;
  }

  /** A record of another version, with a checksum of its own, is an event like
      any other wherever it is not the first. */
  lemma OtherVersionTrusted(c: Codec, before: seq<Data>, version: nat, e: Event)
    requires c.Sound()
    requires var s := Stored(version, e, c.sum(version, e)); |c.write(s)| < MAX_RECORD
    ensures var s := Stored(version, e, c.sum(version, e));
      EventsOf(c, before + [c.write(s) + [NL]]) == EventsOf(c, before) + [e]
  {
    var s := Stored(version, e, c.sum(version, e));
    ReadByChecksum(c, s);
    EventsConcat(c, before, [c.write(s) + [NL]]);
    EventsOfOne(c, c.write(s) + [NL]);
  }

  // ---- appending

  /** What an append writes to: a newline is added to an unterminated tail. */
  function Healed(d: Data): Data { if Closed(d) then d else d + [NL] }

  /** Adding the newline would make a record that decodes too long to be read. */
  predicate Brittle(c: Codec, d: Data) { |Tail(d)| == MAX_RECORD && Decoded(c, Tail(d)) != [] }

  /** The events an append builds on. */
  function HealedEvents(c: Codec, d: Data): seq<Event> { Survivors(c, Healed(d)) }

  /** Healing never merges records, and it changes no event unless the
      unterminated record has exactly the largest size that is parsed; then it
      loses that record's event and no other. */
  lemma HealKeeps(c: Codec, d: Data)
    ensures Closed(Healed(d))
    ensures Survivors(c, d) == HealedEvents(c, d) + if Brittle(c, d) then Decoded(c, Tail(d)) else []
    ensures HealedEvents(c, d) == Survivors(c, d) <==> !Brittle(c, d)
  {
    var b, t := Body(d), Tail(d);
    BodyAndTail(d);
    if !Closed(d) {
      assert d + [NL] == b + (t + [NL]);
      HealedEnd(c, b, t);
    }
  }

  lemma HealedEnd(c: Codec, b: Data, t: Data)
    requires Closed(b) && t != [] && NL !in t
    ensures Survivors(c, b + t)
         == Survivors(c, b + (t + [NL])) + if |t| == MAX_RECORD then Decoded(c, t) else []
  {
    HealedTail(c, b, t);
    TailSurvivors(c, b, t);
    DecodedIsShort(c, t);
  }

  lemma TailSurvivors(c: Codec, b: Data, t: Data)
    requires Closed(b) && t != [] && NL !in t
    ensures Survivors(c, b + t) == Survivors(c, b) + Decoded(c, t)
  {
    SurvivorsSplit(c, b, t);
    SurvivorsOfOne(c, t);
  }

  lemma DecodedIsShort(c: Codec, raw: Data)
    ensures |raw| > MAX_RECORD ==> Decoded(c, raw) == []
  {
  }

  lemma HealedTail(c: Codec, b: Data, t: Data)
    requires Closed(b) && t != [] && NL !in t
    ensures Survivors(c, b + (t + [NL])) == Survivors(c, b) + if |t| < MAX_RECORD then Decoded(c, t) else []
  {
    var line := t + [NL];
    SurvivorsSplit(c, b, line);
    assert line[..|t|] == t;
    SurvivorsOfOne(c, line);
    assert Strip(line) == Strip(t);
  }

  lemma DecodedLine(c: Codec, e: Event)
    requires c.Sound()
    ensures Strip(c.Encode(e)) == c.Encode(e) && Strip(c.Line(e)) == c.Encode(e)
    ensures Decoded(c, c.Line(e)) == if c.Fits(e) then [e] else []
    ensures Decoded(c, c.Encode(e)) == if |c.Encode(e)| <= MAX_RECORD then [e] else []
  {
    var b := c.Encode(e);
    assert b[|b| - 1] in b;
    assert c.Line(e)[..|b|] == b;
  }

  /** A torn record decodes to nothing: it is a strict prefix. */
  lemma DecodedPrefix(c: Codec, e: Event, n: nat)
    requires c.Sound() && n < |c.Encode(e)|
    ensures Decoded(c, c.Encode(e)[..n]) == []
    ensures Read(c, c.Encode(e)[..n]) == GARBAGE
  {
    var p := c.Encode(e)[..n];
    if n > 0 {
      assert p[n - 1] in c.Encode(e);
    }
    assert Strip(p) == p;
  }

  /** A complete append adds its event, if the record is short enough to be
      read back, and nothing else. */
  lemma AppendAdds(c: Codec, d: Data, e: Event)
    requires c.Sound()
    ensures Survivors(c, Healed(d) + c.Line(e)) == HealedEvents(c, d) + if c.Fits(e) then [e] else []
    ensures Closed(Healed(d) + c.Line(e))
  {
    HealKeeps(c, d);
    SurvivorsSplit(c, Healed(d), c.Line(e));
    assert c.Line(e)[..|c.Encode(e)|] == c.Encode(e);
    SurvivorsOfOne(c, c.Line(e));
    DecodedLine(c, e);
  }

  lemma SurvivorsAfter(c: Codec, d: Data, line: Data)
    requires NL !in line
    ensures Survivors(c, Healed(d) + line) == HealedEvents(c, d) + if line == [] then [] else Decoded(c, line)
  {
    HealKeeps(c, d);
    SurvivorsSplit(c, Healed(d), line);
    SurvivorsOfOne(c, line);
  }

  /** A torn append adds nothing. */
  lemma TornAppend(c: Codec, d: Data, e: Event, n: nat)
    requires c.Sound() && n < |c.Encode(e)|
    ensures Survivors(c, Healed(d) + c.Encode(e)[..n]) == HealedEvents(c, d)
  {
    SurvivorsAfter(c, d, c.Encode(e)[..n]);
    DecodedPrefix(c, e, n);
  }

  /** An append that lost only its newline counts all the same; one byte more
      fits into it than into a closed record. */
  lemma UnclosedAppend(c: Codec, d: Data, e: Event)
    requires c.Sound()
    ensures Survivors(c, Healed(d) + c.Encode(e))
         == HealedEvents(c, d) + if |c.Encode(e)| <= MAX_RECORD then [e] else []
  {
    SurvivorsAfter(c, d, c.Encode(e));
    DecodedLine(c, e);
  }

  /** A file whose healing loses an event: one record of exactly the largest
      size, without its newline. */
  lemma BrittleExists() returns (c: Codec, d: Data)
    ensures c.Sound() && Brittle(c, d) && HealedEvents(c, d) != Survivors(c, d)
  {
    var run := MAX_RECORD - 9;
    PrefixCodeIsSound();
    EndLength(run);
    c := PrefixCode();
    d := c.Encode(End(run));
    assert [] + d == d;
    TailIs([], d);
    DecodedLine(c, End(run));
    HealKeeps(c, d);
  }

  /** The record of that size as the program writes it is too long; cutting its
      newline off makes it readable. */
  lemma CutCanAdd() returns (c: Codec, d: Data)
    ensures c.Sound() && d != [] && Closed(d) && Survivors(c, d) == [] && Survivors(c, d[..|d| - 1]) != []
  {
    var e := End(MAX_RECORD - 9);
    PrefixCodeIsSound();
    EndLength(MAX_RECORD - 9);
    c := PrefixCode();
    d := c.Line(e);
    DecodedLine(c, e);
    assert d[..|d| - 1] == c.Encode(e);
    SurvivorsOfOne(c, d);
    SurvivorsOfOne(c, c.Encode(e));
  }

  /** The tail is the only newline-free end with a closed front. */
  lemma TailIs(a: Data, p: Data)
    requires Closed(a) && NL !in p
    ensures Tail(a + p) == p
  {
    var t, front := Tail(a + p), Body(a + p);
    BodyAndTail(a + p);
    EndsNoLater(front, t, a, p);
    EndsNoLater(a, p, front, t);
    assert t == (front + t)[|front|..] == (a + p)[|a|..] == p;
  }

  lemma EndsNoLater(front: Data, x: Data, other: Data, y: Data)
    requires front + x == other + y && Closed(front) && NL !in y
    ensures |front| <= |other|
  {
    if front != [] {
      assert (front + x)[|front| - 1] == NL;
      assert forall j :: 0 <= j < |y| ==> (other + y)[|other| + j] == y[j];
    }
  }

  // ---- cutting

  /** The record is this program's own: an encoded event, whole or torn, with
      or without its newline; but not of the one size at which a newline decides
      whether it is read. */
  ghost predicate Own(c: Codec, raw: Data) {
    exists e: Event, n: nat :: IsPiece(c, e, n, raw)
  }

  ghost predicate IsPiece(c: Codec, e: Event, n: nat, raw: Data) {
    && c.Cuttable(e) && n <= |c.Encode(e)|
    && (raw == c.Encode(e)[..n] || raw == c.Encode(e)[..n] + [NL])
  }

  ghost predicate Genuine(c: Codec, d: Data) { forall r :: r in Records(d) ==> Own(c, r) }

  lemma GenuineSplit(c: Codec, a: Data, b: Data)
    requires Closed(a)
    ensures Genuine(c, a + b) <==> Genuine(c, a) && Genuine(c, b)
  {
    RecordsOfClosed(a, b);
  }

  /** A cut of an own record without its newline is an own record, and holds
      at most the event the whole record held. */
  lemma CutPiece(c: Codec, raw: Data, k: nat)
    requires c.Sound() && Own(c, raw) && k <= |raw|
    ensures Own(c, raw[..k]) && Decoded(c, raw[..k]) <= Decoded(c, raw)
  {
    var e: Event, n: nat :| IsPiece(c, e, n, raw);
    if k == |raw| {
      assert raw[..k] == raw;
    } else {
      assert k <= n;
      assert raw[..k] == c.Encode(e)[..n][..k] == c.Encode(e)[..k];
      assert IsPiece(c, e, k, raw[..k]);
      CutEncoding(c, e, n, raw, k);
    }
  }

  lemma CutEncoding(c: Codec, e: Event, n: nat, raw: Data, k: nat)
    requires c.Sound() && IsPiece(c, e, n, raw) && k < |raw| && k <= n && raw[..k] == c.Encode(e)[..k]
    ensures Decoded(c, raw[..k]) <= Decoded(c, raw)
  {
    if k < |c.Encode(e)| {
      DecodedPrefix(c, e, k);
    } else {
      assert c.Encode(e)[..k] == c.Encode(e) && c.Encode(e)[..n] == c.Encode(e);
      assert raw == c.Line(e);
      DecodedLine(c, e);
    }
  }

  /** Whatever byte a journal of this program is cut at, the survivors are a
      prefix of what they were, and it is still a journal of this program. */
  lemma {:induction false} CutKeepsPrefix(c: Codec, d: Data, k: nat)
    requires c.Sound() && Genuine(c, d) && k <= |d|
    ensures Survivors(c, d[..k]) <= Survivors(c, d)
    ensures Genuine(c, d[..k])
    decreases |d|
  {
    if d == [] {
    } else {
      var n := FirstLength(d);
      var first, rest := d[..n], d[n..];
      FirstRecord(d);
      assert d == first + rest;
      if k < n {
        assert d[..k] == first[..k];
        CutFirst(c, d, first, k);
      } else if first[n - 1] == NL {
        assert Records(rest) == Records(d)[1..];
        CutKeepsPrefix(c, rest, k - n);
        assert d[..k] == first + rest[..k - n];
        OneRecord(first);
        CutAfter(c, first, rest, rest[..k - n]);
      } else {
        assert d[..k] == d;
      }
    }
  }

  lemma CutFirst(c: Codec, d: Data, first: Data, k: nat)
    requires c.Sound() && Genuine(c, d) && d != [] && first == d[..FirstLength(d)] && k < |first|
    ensures Survivors(c, first[..k]) <= Survivors(c, d)
    ensures Genuine(c, first[..k])
  {
    FirstRecord(d);
    assert first in Records(d);
    CutPiece(c, first, k);
    PrefixIsOneRecord(first, k);
    SurvivorsOfOne(c, first[..k]);
    FirstSurvivor(c, d);
  }

  lemma CutAfter(c: Codec, first: Data, rest: Data, kept: Data)
    requires Closed(first) && Genuine(c, first + rest) && Genuine(c, kept) && Survivors(c, kept) <= Survivors(c, rest)
    ensures Survivors(c, first + kept) <= Survivors(c, first + rest)
    ensures Genuine(c, first + kept)
  {
    SurvivorsSplit(c, first, rest);
    SurvivorsSplit(c, first, kept);
    GenuineSplit(c, first, rest);
    GenuineSplit(c, first, kept);
  }

  lemma {:induction false} FirstRecord(d: Data)
    requires d != []
    ensures NL !in d[..FirstLength(d) - 1]
    ensures d[FirstLength(d) - 1] != NL ==> FirstLength(d) == |d|
  {
    if d[0] != NL {
      if |d| > 1 {
        FirstRecord(d[1..]);
        assert d[..FirstLength(d) - 1] == [d[0]] + d[1..][..FirstLength(d[1..]) - 1];
      }
    }
  }

  lemma PrefixIsOneRecord(first: Data, k: nat)
    requires first != [] && NL !in first[..|first| - 1] && k < |first|
    ensures Records(first[..k]) == if k == 0 then [] else [first[..k]]
    ensures k > 0 ==> NL !in first[..k][..k - 1]
  {
    if k > 0 {
      assert first[..k] == first[..|first| - 1][..k];
      OneRecord(first[..k]);
    }
  }

  lemma FirstSurvivor(c: Codec, d: Data)
    requires d != []
    ensures Decoded(c, d[..FirstLength(d)]) <= Survivors(c, d)
  {
    var first, rest := d[..FirstLength(d)], d[FirstLength(d)..];
    EventsConcat(c, [first], Records(rest));
    EventsOfOne(c, first);
  }
}
