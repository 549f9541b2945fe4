/**
  The audit log: one line per event, a retry on the same path, and a failover
  to a second path, over files whose writes and truncations may fail.
*/
module Audit {
  import opened Bytes
  import opened JournalCodec
  import opened JournalLines
  import opened Journaling

  /** An event, or the notice that the log has switched files. */
  datatype Entry = Logged(id: nat) | Notice

  /** How entries are written: one line each, different lines for different
      entries. */
  datatype Format = Format(encode: Entry -> Data)
  {
    ghost predicate Sound() {
      && (forall e :: NL !in encode(e))
      && (forall a, b :: encode(a) == encode(b) ==> a == b)
    }

    function Line(e: Entry): Data { encode(e) + [NL] }

    function Text(entries: seq<Entry>): Data {
      if entries == [] then [] else Text(entries[..|entries| - 1]) + Line(entries[|entries| - 1])
    }
  }

  function Events(entries: seq<Entry>): seq<Entry> {
    if entries == [] then []
    else
      var last := entries[|entries| - 1];
      Events(entries[..|entries| - 1]) + if last.Logged? then [last] else []
  }

  lemma EntriesAppend(f: Format, entries: seq<Entry>, e: Entry)
    ensures f.Text(entries + [e]) == f.Text(entries) + f.Line(e)
    ensures Events(entries + [e]) == Events(entries) + if e.Logged? then [e] else []
  {
    assert (entries + [e])[..|entries|] == entries;
  }

  /** A reader of the file sees exactly the complete lines. */
  lemma {:induction false} TextReads(f: Format, entries: seq<Entry>, torn: Data)
    requires f.Sound() && NL !in torn
    ensures Closed(f.Text(entries)) && |Records(f.Text(entries))| == |entries|
    ensures forall i :: 0 <= i < |entries| ==> Records(f.Text(entries))[i] == f.Line(entries[i])
    ensures Records(f.Text(entries) + torn) == Records(f.Text(entries)) + if torn == [] then [] else [torn]
  {
    if entries == [] {
    } else {
      var rest, last := entries[..|entries| - 1], entries[|entries| - 1];
      TextReads(f, rest, []);
      LineIsRecord(f, last);
      RecordsOfClosed(f.Text(rest), f.Line(last));
    }
    TornReads(f.Text(entries), torn);
  }

  lemma LineIsRecord(f: Format, e: Entry)
    requires f.Sound()
    ensures Closed(f.Line(e)) && Records(f.Line(e)) == [f.Line(e)]
  {
    assert f.Line(e)[..|f.encode(e)|] == f.encode(e);
    OneRecord(f.Line(e));
  }

  lemma TornReads(text: Data, torn: Data)
    requires Closed(text) && NL !in torn
    ensures Records(text + torn) == Records(text) + if torn == [] then [] else [torn]
  {
    RecordsOfClosed(text, torn);
    if torn != [] {
      assert torn[..|torn|] == torn;
      OneRecord(torn);
    }
  }

  /** What one write attempt of a line came to. */
  datatype Attempt = Done | Unchanged | Torn

  /** Appends a line as a whole, or tells whether the file could be put back as
      it was. */
  method WriteAtomicLine(file: File, line: Data) returns (a: Attempt, ghost torn: Data)
    requires line != []
    modifies file
    ensures a.Done? ==> file.bytes == old(file.bytes) + line
    ensures a.Unchanged? ==> file.bytes == old(file.bytes)
    ensures a.Torn? ==> file.bytes == old(file.bytes) + torn && torn <= line && |torn| < |line|
  {
    var seekable: bool := *;
    torn := [];
    if !seekable {
      return Unchanged, [];
    }
    var before := |file.bytes|;
    var written := file.Write(line);
    if written {
      return Done, [];
    }
    torn := file.bytes[before..];
    assert file.bytes == old(file.bytes) + torn;
    var restored := file.SetLength(before);
    if restored {
      assert file.bytes == old(file.bytes);
      return Unchanged, torn;
    }
    return Torn, torn;
  }

  class AuditWriter {
    const format: Format
    const primary: File
    const fallback: File
    /** The current path, and the handle open on it. */
    var onFallback: bool
    var degraded: bool
    /** The complete entries in each file, and the bytes torn off after them. */
    ghost var inPrimary: seq<Entry>
    ghost var inFallback: seq<Entry>
    ghost var tornPrimary: Data
    ghost var tornFallback: Data
    /** The events whose `Emit` returned success. */
    ghost var emitted: seq<Entry>

    /** Each file is complete lines, with torn bytes at most after the last; and
        the lines are the emitted events, in order, once each, with notices only
        in the second file, where one comes first. */
    ghost predicate Shape()
      reads this, primary, fallback
    {
      && format.Sound() && primary != fallback
      && primary.bytes == format.Text(inPrimary) + tornPrimary && NL !in tornPrimary
      && fallback.bytes == format.Text(inFallback) + tornFallback && NL !in tornFallback
      && Events(inPrimary) == inPrimary
      && Events(inPrimary) + Events(inFallback) == emitted
      && (inFallback != [] ==> inFallback[0] == Notice)
    }

    /** The file in use has no torn bytes, and no file is used ahead of its
        turn. */
    ghost predicate Valid()
      reads this, primary, fallback
    {
      && Shape()
      && (!onFallback ==> tornPrimary == [] && inFallback == [])
      && (onFallback ==> degraded && inFallback != [])
      && tornFallback == []
    }

    constructor (format: Format, primary: File, fallback: File)
      requires format.Sound() && primary != fallback && primary.bytes == fallback.bytes == []
      ensures Valid() && emitted == [] && !degraded
      ensures this.format == format && this.primary == primary && this.fallback == fallback
    {
      this.format, this.primary, this.fallback := format, primary, fallback;
      onFallback, degraded := false, false;
      inPrimary, inFallback, tornPrimary, tornFallback, emitted := [], [], [], [], [];
    }

    /** Writes one entry to the primary. */
    method PutPrimary(e: Entry) returns (a: Attempt)
      requires Shape() && tornPrimary == [] && inFallback == [] && e.Logged?
      modifies primary, this`inPrimary, this`tornPrimary, this`emitted
      ensures Shape()
      ensures a.Done? ==> tornPrimary == [] && emitted == old(emitted) + [e]
      ensures a.Unchanged? ==> tornPrimary == [] && emitted == old(emitted)
      ensures a.Torn? ==> emitted == old(emitted)
    {
      ghost var torn;
      EntriesAppend(format, inPrimary, e);
      a, torn := WriteAtomicLine(primary, format.Line(e));
      if a.Done? {
        inPrimary, emitted := inPrimary + [e], emitted + [e];
      } else if a.Torn? {
        TornHasNoNewline(format.encode(e), torn);
        tornPrimary := torn;
      }
    }

    /** Writes one entry to the fallback, where a notice must come first. */
    method PutFallback(e: Entry) returns (a: Attempt)
      requires Shape() && tornFallback == [] && (e.Notice? || inFallback != [])
      modifies fallback, this`inFallback, this`tornFallback, this`emitted
      ensures Shape() && old(inFallback) <= inFallback
      ensures a.Done? ==> tornFallback == [] && inFallback != []
                          && emitted == old(emitted) + (if e.Logged? then [e] else [])
      ensures a.Unchanged? ==> tornFallback == [] && inFallback == old(inFallback) && emitted == old(emitted)
      ensures a.Torn? ==> emitted == old(emitted)
    {
      ghost var torn;
      EntriesAppend(format, inFallback, e);
      a, torn := WriteAtomicLine(fallback, format.Line(e));
      if a.Done? {
        inFallback := inFallback + [e];
        emitted := Events(inPrimary) + Events(inFallback);
      } else if a.Torn? {
        TornHasNoNewline(format.encode(e), torn);
        tornFallback := torn;
      }
    }

    method Put(e: Entry) returns (a: Attempt)
      requires Valid() && e.Logged?
      modifies primary, fallback, this`inPrimary, this`tornPrimary, this`inFallback, this`tornFallback, this`emitted
      ensures Shape()
      ensures a.Done? ==> Valid() && emitted == old(emitted) + [e]
      ensures a.Unchanged? ==> Valid() && emitted == old(emitted)
      ensures a.Torn? ==> emitted == old(emitted)
      ensures a.Torn? && !onFallback ==> inFallback == [] && tornFallback == []
    {
      if onFallback {
        a := PutFallback(e);
      } else {
        a := PutPrimary(e);
      }
    }

    /** Emits one event, or gives up: then the run stops, and the files still hold
        exactly what was emitted before. */
    method Emit(e: Entry) returns (ok: bool)
      requires Valid() && e.Logged?
      modifies this, primary, fallback
      ensures Shape()
      ensures ok ==> Valid() && emitted == old(emitted) + [e]
      ensures !ok ==> emitted == old(emitted)
      ensures old(degraded) ==> degraded
    {
      var a := Put(e);
      if a.Unchanged? {
        a := ReopenAndRetry(e);
      }
      if a.Done? {
        return true;
      }
      if a.Torn? && onFallback {
        return false;
      }
      ok := FailoverAndRetry(e);
    }

    /** Opens the same path again and retries once. */
    method ReopenAndRetry(e: Entry) returns (a: Attempt)
      requires Valid() && e.Logged?
      modifies primary, fallback, this`inPrimary, this`tornPrimary, this`inFallback, this`tornFallback, this`emitted
      ensures Shape()
      ensures a.Done? ==> Valid() && emitted == old(emitted) + [e]
      ensures a.Unchanged? ==> Valid() && emitted == old(emitted)
      ensures a.Torn? ==> emitted == old(emitted)
      ensures a.Torn? && !onFallback ==> inFallback == [] && tornFallback == []
    {
      var reachable: bool := *;
      if !reachable {
        return Unchanged;
      }
      a := Put(e);
    }

    /** Switches to the second path: a notice, retried once if it left no trace,
        and then the event. */
    method FailoverAndRetry(e: Entry) returns (ok: bool)
      requires Shape() && e.Logged? && tornFallback == []
      modifies this, fallback
      ensures Shape()
      ensures ok ==> Valid() && emitted == old(emitted) + [e]
      ensures !ok ==> emitted == old(emitted)
      ensures old(degraded) ==> degraded
    {
      var reachable: bool := *;
      if !reachable {
        return false;
      }
      onFallback, degraded := true, true;
      var a := PutFallback(Notice);
      if a.Torn? {
        return false;
      }
      if a.Unchanged? {
        reachable := *;
        if !reachable {
          return false;
        }
        a := PutFallback(Notice);
        if !a.Done? {
          return false;
        }
      }
      a := PutFallback(e);
      ok := a.Done?;
    }
  }

  lemma TornHasNoNewline(body: Data, torn: Data)
    requires NL !in body && torn <= body + [NL] && |torn| <= |body|
    ensures NL !in torn
  {
    assert torn == body[..|torn|];
  }
}
