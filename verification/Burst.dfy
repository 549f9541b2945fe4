/**
  The phased transfer of the single-spindle transport: one buffer is filled from
  the source, hashed, and written out, in requests of bounded size.
*/
module Burst {
  import opened Bytes

  type Data = seq<Byte>

  /** What one request to the system came to. */
  datatype Io = Moved(n: nat) | Interrupted | Broken

  class Source {
    const data: Data
    var position: nat

    ghost predicate Valid()
      reads this
    {
      position <= |data|
    }

    constructor (data: Data)
      ensures Valid() && this.data == data && position == 0
    {
      this.data, position := data, 0;
    }

    /** Reads into a[from..to]: some bytes, or none at the end. */
    method Read(a: array<Byte>, from: nat, to: nat, interrupts: bool) returns (io: Io)
      requires Valid() && from < to <= a.Length
      modifies this`position, a
      ensures Valid() && a[..from] == old(a[..from])
      ensures io.Moved? ==>
                && io.n <= to - from && position == old(position) + io.n
                && a[from..from + io.n] == data[old(position)..position]
                && (io.n == 0 <==> position == |data| == old(position))
      ensures !io.Moved? ==> position == old(position)
      ensures io.Interrupted? ==> interrupts
    {
      var fails, stops: bool := *, *;
      if fails {
        return if interrupts && stops then Interrupted else Broken;
      }
      var want: nat :| want >= 1;
      var n := Min(Min(want, to - from), |data| - position);
      forall k | from <= k < from + n {
        a[k] := data[position + k - from];
      }
      position := position + n;
      return Moved(n);
    }
  }

  class Destination {
    var bytes: Data

    constructor ()
      ensures bytes == []
    {
      bytes := [];
    }

    /** Appends some of a[from..to]; a destination may also take nothing. */
    method Write(a: array<Byte>, from: nat, to: nat, interrupts: bool) returns (io: Io)
      requires from < to <= a.Length
      modifies this`bytes
      ensures io.Moved? ==> io.n <= to - from && bytes == old(bytes) + a[from..from + io.n]
      ensures !io.Moved? ==> bytes == old(bytes)
      ensures io.Interrupted? ==> interrupts
    {
      var fails, stops: bool := *, *;
      if fails {
        return if interrupts && stops then Interrupted else Broken;
      }
      var want: nat :| want >= 0;
      var n := Min(want, to - from);
      bytes := bytes + a[from..from + n];
      return Moved(n);
    }
  }

  datatype Fault = Canceled | ReadError | WriteError | SourceChanged

  /** How far an operation got, and what stopped it. */
  datatype Phase = Phase(transferred: nat, fault: Option<Fault>)

  class BurstBuffer {
    const bytes: array<Byte>
    const requestBytes: nat

    ghost predicate Valid() { 1 <= requestBytes <= bytes.Length }

    /** At most the bytes still to be moved, and never empty. */
    constructor (burst: nat, request: nat, remaining: nat)
      ensures Valid() && fresh(bytes)
      ensures bytes.Length == Max(Min(burst, remaining), 1)
      ensures requestBytes <= Max(request, 1)
    {
      var capacity: nat := Max(Min(burst, remaining), 1);
      bytes := new Byte[capacity](_ => 0);
      requestBytes := Max(Min(request, capacity), 1);
    }

    /** Fills up to `limit` bytes of the buffer. Cancellation is polled before
        every request, and the system may interrupt `patience` of them. */
    method ReadFrom(source: Source, limit: nat, patience: nat) returns (p: Phase)
      requires Valid() && source.Valid() && limit <= bytes.Length
      modifies bytes, source`position
      ensures source.Valid() && p.transferred <= limit
      ensures source.position == old(source.position) + p.transferred
      ensures bytes[..p.transferred] == source.data[old(source.position)..source.position]
      ensures p.fault.None? && p.transferred < limit ==> source.position == |source.data|
      ensures p.fault.Some? ==> p.fault.value in {Canceled, ReadError} && p.transferred < limit
    {
      var filled: nat := 0;
      var left := patience;
      while filled < limit
        invariant source.Valid() && filled <= limit
        invariant source.position == old(source.position) + filled
        invariant bytes[..filled] == source.data[old(source.position)..source.position]
        decreases limit - filled, left
      {
        var canceled: bool := *;
        if canceled {
          return Phase(filled, Some(Canceled));
        }
        ghost var front := bytes[..filled];
        var io := source.Read(bytes, filled, Min(filled + requestBytes, limit), left > 0);
        assert bytes[..filled] == front;
        match io {
          case Interrupted =>
            left := left - 1;
          case Broken => return Phase(filled, Some(ReadError));
          case Moved(n) =>
            assert bytes[..filled + n] == front + bytes[filled..filled + n];
            if n == 0 {
              return Phase(filled, None);
            }
            filled := filled + n;
        }
      }
      return Phase(filled, None);
    }

    /** Writes the first `length` bytes of the buffer. */
    method WriteTo(destination: Destination, length: nat, patience: nat) returns (p: Phase)
      requires Valid() && length <= bytes.Length
      modifies destination`bytes
      ensures p.transferred <= length
      ensures destination.bytes == old(destination.bytes) + bytes[..p.transferred]
      ensures p.fault.None? <==> p.transferred == length
      ensures p.fault.Some? ==> p.fault.value in {Canceled, WriteError}
    {
      var written: nat := 0;
      var left := patience;
      assert bytes[..0] == [];
      while written < length
        invariant written <= length
        invariant destination.bytes == old(destination.bytes) + bytes[..written]
        decreases length - written, left
      {
        var canceled: bool := *;
        if canceled {
          return Phase(written, Some(Canceled));
        }
        var io := destination.Write(bytes, written, Min(written + requestBytes, length), left > 0);
        match io {
          case Interrupted => left := left - 1;
          case Broken => return Phase(written, Some(WriteError));
          case Moved(n) =>
            if n == 0 {
              return Phase(written, Some(WriteError));
            }
            assert bytes[..written + n] == bytes[..written] + bytes[written..written + n];
            written := written + n;
        }
      }
      return Phase(written, None);
    }
  }

  /** One burst. The counters grow by exactly the bytes moved, however it ends;
      success means the whole stretch was read, hashed and written; and what was
      hashed is the whole stretch or nothing. */
  method TransferBurst(buffer: BurstBuffer, source: Source, destination: Destination, requested: nat, patience: nat,
                       hasher: Data, read: nat, written: nat)
    returns (fault: Option<Fault>, hashed: Data, readNow: nat, writtenNow: nat)
    requires buffer.Valid() && source.Valid() && requested <= buffer.bytes.Length
    modifies buffer.bytes, source`position, destination`bytes
    ensures source.Valid() && source.position - old(source.position) == readNow - read <= requested
    ensures old(destination.bytes) <= destination.bytes
    ensures |destination.bytes| - |old(destination.bytes)| == writtenNow - written <= readNow - read
    ensures destination.bytes[|old(destination.bytes)|..]
         == source.data[old(source.position)..old(source.position) + (writtenNow - written)]
    ensures hashed == hasher
            || (readNow == read + requested && hashed == hasher + source.data[old(source.position)..source.position])
    ensures fault.None? ==>
              && readNow - read == writtenNow - written == requested
              && hashed == hasher + source.data[old(source.position)..source.position]
    ensures fault == Some(SourceChanged) ==> source.position == |source.data| && readNow - read < requested
    ensures requested > 0 && old(source.position) + requested > |source.data| ==> fault.Some?
  {
    hashed, readNow, writtenNow := hasher, read, written;
    var p := buffer.ReadFrom(source, requested, patience);
    readNow := read + p.transferred;
    if p.fault.Some? {
      return p.fault, hashed, readNow, writtenNow;
    }
    if p.transferred != requested {
      return Some(SourceChanged), hashed, readNow, writtenNow;
    }
    ghost var piece := buffer.bytes[..requested];
    hashed := hasher + buffer.bytes[..requested];
    var q := buffer.WriteTo(destination, requested, patience);
    assert piece[..q.transferred] == buffer.bytes[..q.transferred];
    return q.fault, hashed, readNow, written + q.transferred;
  }
}
