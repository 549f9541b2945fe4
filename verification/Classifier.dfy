/**
  What decides whether a file already at the destination is left alone: the
  filesystem policy's quantised comparisons, and the classification table.
*/
module Classifier {
  import opened Bytes

  type Attributes = bv32

  const READONLY: Attributes := 0x1
  const HIDDEN: Attributes := 0x2
  const SYSTEM: Attributes := 0x4
  const ARCHIVE: Attributes := 0x20
  const NOT_CONTENT_INDEXED: Attributes := 0x2000

  const COPYABLE: Attributes := READONLY | HIDDEN | SYSTEM | ARCHIVE | NOT_CONTENT_INDEXED
  const FAT_COPYABLE: Attributes := READONLY | HIDDEN | SYSTEM | ARCHIVE

  /** Last-write and creation times in 100 ns ticks. */
  datatype Basic = Basic(created: int, written: int, attributes: Attributes)

  datatype Kind = File | Directory | Reparse

  datatype Meta = Meta(kind: Kind, tag: nat, size: nat, eaSize: nat, basic: Basic)

  datatype FileSystem = Ntfs | Refs | Fat | ExFat | Wsl | Remote

  const TICKS_PER_MS: nat := 10_000
  const TICKS_PER_SECOND: nat := 10_000_000

  datatype Policy = Policy(fs: FileSystem, remoteEndpoint: bool, supportsEas: bool, sourceProjects: bool)
  {
    predicate FatFamily() { fs.Fat? || fs.ExFat? }

    /** Only data facts survive; creation time and attributes are not copied. */
    predicate Projected() { sourceProjects || fs.Wsl? || fs.Remote? }

    function Mask(): Attributes {
      if Projected() then 0 else if FatFamily() then FAT_COPYABLE else COPYABLE
    }

    function WrittenQuantum(): Option<nat> {
      match fs
      case Fat => Some(2 * TICKS_PER_SECOND)
      case ExFat => Some(10 * TICKS_PER_MS)
      case _ => None
    }

    function CreatedQuantum(): Option<nat> {
      if FatFamily() then Some(10 * TICKS_PER_MS) else None
    }

    predicate WrittenEqual(a: int, b: int) { TimeEqual(a, b, WrittenQuantum()) }

    predicate CreatedEqual(a: int, b: int) { Projected() || TimeEqual(a, b, CreatedQuantum()) }

    predicate AttributesEqual(a: Attributes, b: Attributes) { a & Mask() == b & Mask() }

    /** What is set on the destination. A zero creation time means unchanged. */
    function Project(b: Basic): Basic {
      Basic(if Projected() then 0 else b.created, b.written, b.attributes & Mask())
    }

    /** Drivers that touch times while data is written get a stamp afterwards,
        the others one at creation. */
    predicate StampsAfterwards() { FatFamily() || remoteEndpoint }
  }

  predicate TimeEqual(a: int, b: int, quantum: Option<nat>) {
    match quantum
    case None => a == b
    case Some(q) => Distance(a, b) < q
  }

  function Distance(a: int, b: int): nat { if a >= b then a - b else b - a }

  datatype Difference = DSize | DMtime | DAttributes | DCreated | DEaSize

  datatype Classification =
    | New
    | Same
    | TypeConflict
    | MetadataDiff(fields: seq<Difference>)
    | Replace(fields: seq<Difference>, newer: bool)
    | SkipDifferent(fields: seq<Difference>, newer: bool)

  function If(c: bool, d: Difference): seq<Difference> { if c then [d] else [] }

  function DataDifferences(p: Policy, s: Meta, d: Meta): seq<Difference> {
    If(s.size != d.size, DSize) + If(!p.WrittenEqual(s.basic.written, d.basic.written), DMtime)
  }

  function MetadataDifferences(p: Policy, s: Meta, d: Meta): seq<Difference> {
    If(!p.AttributesEqual(s.basic.attributes, d.basic.attributes), DAttributes)
    + If(!p.CreatedEqual(s.basic.created, d.basic.created), DCreated)
    + If(p.supportsEas && s.eaSize != d.eaSize, DEaSize)
  }

  /** The decision table. */
  function Classify(p: Policy, s: Meta, destination: Option<Meta>, replace: bool): Classification {
    if destination.None? then New
    else
      var d := destination.value;
      if s.kind != d.kind || (s.kind.Reparse? && s.tag != d.tag) then TypeConflict
      else
        var data := DataDifferences(p, s, d);
        var newer := !p.WrittenEqual(s.basic.written, d.basic.written) && d.basic.written > s.basic.written;
        if data != [] then
          if replace then Replace(data, newer) else SkipDifferent(data, newer)
        else
          var metadata := MetadataDifferences(p, s, d);
          if metadata == [] then Same else MetadataDiff(metadata)
  }

  /** The table, read by outcome: a file is left alone exactly when kind, size
      and every projected fact agree; its data is, exactly when size and
      last-write time do. */
  lemma ClassifyMeans(p: Policy, s: Meta, d: Meta, replace: bool)
    ensures var c := Classify(p, s, Some(d), replace);
      var kinds := s.kind == d.kind && (s.kind.Reparse? ==> s.tag == d.tag);
      var data := s.size == d.size && p.WrittenEqual(s.basic.written, d.basic.written);
      var metadata := && p.AttributesEqual(s.basic.attributes, d.basic.attributes)
                      && p.CreatedEqual(s.basic.created, d.basic.created)
                      && (p.supportsEas ==> s.eaSize == d.eaSize);
      && (c.TypeConflict? <==> !kinds)
      && (c.Same? <==> kinds && data && metadata)
      && (c.MetadataDiff? <==> kinds && data && !metadata)
      && (c.Replace? <==> kinds && !data && replace)
      && (c.SkipDifferent? <==> kinds && !data && !replace)
      && !c.New?
    ensures var c := Classify(p, s, Some(d), replace);
      (c.Replace? || c.SkipDifferent?) ==>
        && c.fields != []
        && (DSize in c.fields <==> s.size != d.size)
        && (DMtime in c.fields <==> !p.WrittenEqual(s.basic.written, d.basic.written))
        && (c.newer <==> DMtime in c.fields && d.basic.written > s.basic.written)
  {
  }

  /** "Newer" is a whole quantum newer: never a rounding difference. */
  lemma NewerMeansByAQuantum(p: Policy, s: Meta, d: Meta, replace: bool)
    requires var c := Classify(p, s, Some(d), replace); (c.Replace? || c.SkipDifferent?) && c.newer
    ensures d.basic.written >= s.basic.written + (if p.WrittenQuantum().Some? then p.WrittenQuantum().value else 1)
  {
    ClassifyMeans(p, s, d, replace);
  }

  /** What the storage makes of the values set: times within their quantum,
      exact where there is none, and the copyable attributes. */
  predicate Stores(p: Policy, given: Basic, stored: Basic) {
    && p.WrittenEqual(given.written, stored.written)
    && p.CreatedEqual(given.created, stored.created)
    && p.AttributesEqual(given.attributes, stored.attributes)
  }

  lemma MaskTwice(a: Attributes, m: Attributes)
    ensures (a & m) & m == a & m
  {
  }

  /** A completed copy is recognised as the same on the next run, however the
      storage rounds strictly inside the quantum. */
  lemma CompletedCopyIsSame(p: Policy, s: Meta, stored: Basic, replace: bool)
    requires Stores(p, p.Project(s.basic), stored)
    ensures Classify(p, s, Some(Meta(s.kind, s.tag, s.size, s.eaSize, stored)), replace) == Same
  {
    MaskTwice(s.basic.attributes, p.Mask());
    ClassifyMeans(p, s, Meta(s.kind, s.tag, s.size, s.eaSize, stored), replace);
  }

  /** Rounding by a whole quantum is recognised as a difference. */
  lemma QuantumIsStrict(p: Policy, s: Meta, d: Meta, replace: bool)
    requires p.WrittenQuantum().Some? && Distance(s.basic.written, d.basic.written) >= p.WrittenQuantum().value
    requires s.kind == d.kind && (s.kind.Reparse? ==> s.tag == d.tag)
    ensures var c := Classify(p, s, Some(d), replace); c.Replace? || c.SkipDifferent?
  {
    ClassifyMeans(p, s, d, replace);
  }
}
