/**
  Terminal outcomes, the disjoint counters they are booked on, the summaries
  kept for each top-level folder, and the reconciliation equations. The
  program's counters saturate at 64 bits: what it holds is the saturation of
  the numbers kept here (`SatAdds`: adding to a saturated counter is saturating
  the sum), and the equations are checked on the saturated values. A ghost log
  of what was settled says what the counters stand for.
*/
module Accounting {
  import opened Bytes

  const U64_MAX: nat := 0xFFFF_FFFF_FFFF_FFFF

  function Sat(n: int): int { if n >= U64_MAX then U64_MAX else n }

  function SatAdd(a: int, b: int): int { Sat(a + b) }

  /** Saturating as one goes loses no more than saturating the sum. */
  lemma SatAdds(a: nat, b: nat)
    ensures SatAdd(Sat(a), Sat(b)) == Sat(a + b)
  {
  }

  type Path = seq<string>

  datatype Category =
    | Permissions | Locked | PathError | Space | Media | DeviceGone | FsLimit | SourceChanged
    | DestinationChanged | UnsupportedReparse | TypeConflict | Cloud | Internal

  datatype FileEnd =
    CopiedNew | CopiedReplaced | SkippedSame | SkippedDiff | MetaFixed | FileFailed | FileExcluded | FileNotAttempted

  datatype DirEnd = DirDone | DirMetaFailed | DirFailed | DirExcluded | DirPlanned

  datatype LinkEnd = LinkCopied | LinkFailed | LinkExcluded | LinkNotAttempted | LinkSkipped | LinkPlanned

  /** The order in which the equations add the counters up. */
  const FILE_ENDS: seq<FileEnd> :=
    [CopiedNew, CopiedReplaced, SkippedSame, SkippedDiff, MetaFixed, FileFailed, FileExcluded, FileNotAttempted]
  const DIR_ENDS: seq<DirEnd> := [DirDone, DirMetaFailed, DirFailed, DirExcluded, DirPlanned]
  const LINK_ENDS: seq<LinkEnd> :=
    [LinkCopied, LinkFailed, LinkExcluded, LinkNotAttempted, LinkSkipped, LinkPlanned]

  /** One counter per terminal outcome. */
  type Table<!K> = map<K, int>

  function Get<K>(t: Table<K>, k: K): int { if k in t then t[k] else 0 }

  function Bump<K>(t: Table<K>, k: K): Table<K> { t[k := Get(t, k) + 1] }

  /** The counters stand for these outcomes. */
  ghost predicate Matches<K(!new)>(t: Table<K>, ends: multiset<K>) {
    forall k :: Get(t, k) == ends[k]
  }

  /** The chained saturating sum of the saturated counters. */
  function Total<K>(t: Table<K>, kinds: seq<K>): int {
    if kinds == [] then 0
    else SatAdd(Total(t, kinds[..|kinds| - 1]), Sat(Get(t, kinds[|kinds| - 1])))
  }

  /** The chain loses nothing beyond the saturation of the true number. */
  lemma {:induction false} TotalIsCount<K>(t: Table<K>, ends: multiset<K>, kinds: seq<K>)
    requires forall i :: 0 <= i < |kinds| ==> Get(t, kinds[i]) == ends[kinds[i]]
    requires forall i, j :: 0 <= i < j < |kinds| ==> kinds[i] != kinds[j]
    requires forall k :: k in ends ==> k in kinds
    ensures Total(t, kinds) == Sat(|ends|)
  {
    if kinds == [] {
      assert ends == multiset{};
    } else {
      var last := kinds[|kinds| - 1];
      var rest := kinds[..|kinds| - 1];
      forall k | k in ends[last := 0] ensures k in rest {
        assert k in kinds;
      }
      TotalIsCount(t, ends[last := 0], rest);
    }
  }

  /** The counters after these outcomes, one by one. */
  function TableOf<K>(log: seq<K>): Table<K> {
    if log == [] then map[] else Bump(TableOf(log[..|log| - 1]), log[|log| - 1])
  }

  lemma TableAppend<K>(log: seq<K>, k: K)
    ensures TableOf(log + [k]) == Bump(TableOf(log), k)
  {
    assert (log + [k])[..|log|] == log;
  }

  lemma {:induction false} TableMatches<K(!new)>(log: seq<K>)
    ensures Matches(TableOf(log), multiset(log))
  {
    if log == [] {
    } else {
      var rest, last := log[..|log| - 1], log[|log| - 1];
      TableMatches(rest);
      BumpMatches(TableOf(rest), multiset(rest), last);
      assert log == rest + [last];
    }
  }

  lemma BumpMatches<K(!new)>(t: Table<K>, ends: multiset<K>, k: K)
    requires Matches(t, ends)
    ensures Matches(Bump(t, k), ends + multiset{k})
  {
  }

  ghost predicate TableIs<K>(t: Table<K>, log: seq<K>) {
    forall u {:trigger Unfold(u)} :: Unfold(u) ==> t == TableOf(log)
  }

  lemma TableMore<K>(t: Table<K>, log: seq<K>, k: K)
    requires TableIs(t, log)
    ensures TableIs(Bump(t, k), log + [k])
  {
    assert Unfold(0);
    TableAppend(log, k);
  }

  // ---- files, counted apart at discovery and at their end

  /** A file that reached its terminal outcome. */
  datatype Settled = Settled(path: Path, end: FileEnd, bytes: nat)

  predicate Copied(end: FileEnd) { end == CopiedNew || end == CopiedReplaced }

  /** What file counters stand for, unsaturated. */
  datatype Truth = Truth(files: int, ends: multiset<FileEnd>, bytes: int, copied: int)

  const NOTHING := Truth(0, multiset{}, 0, 0)

  ghost predicate Positive(x: Truth) { x.files >= 0 && x.bytes >= 0 && x.copied >= 0 }

  ghost function Add(x: Truth, y: Truth): Truth {
    Truth(x.files + y.files, x.ends + y.ends, x.bytes + y.bytes, x.copied + y.copied)
  }

  function TruthOfOne(e: Settled): Truth {
    Truth(1, multiset{e.end}, e.bytes, if Copied(e.end) then e.bytes else 0)
  }

  /** The totals of the settled files that belong to the given folders. */
  ghost function PartOf(log: seq<Settled>, folders: set<string>): (x: Truth)
    ensures Positive(x)
  {
    if log == [] then NOTHING
    else
      var rest, last := PartOf(log[..|log| - 1], folders), log[|log| - 1];
      if TopLevel(last.path) in folders then Add(rest, TruthOfOne(last)) else rest
  }

  /** The totals of all settled files. */
  ghost function TruthOf(log: seq<Settled>): (x: Truth)
    ensures Positive(x)
  {
    if log == [] then NOTHING else Add(TruthOf(log[..|log| - 1]), TruthOfOne(log[|log| - 1]))
  }

  function TopLevel(p: Path): string { if p == [] then "." else p[0] }

  lemma PartAppend(log: seq<Settled>, e: Settled, folders: set<string>)
    ensures PartOf(log + [e], folders)
         == if TopLevel(e.path) in folders then Add(PartOf(log, folders), TruthOfOne(e)) else PartOf(log, folders)
  {
    assert (log + [e])[..|log|] == log;
  }

  lemma {:induction false} LogFacts(log: seq<Settled>)
    ensures TruthOf(log).files == |TruthOf(log).ends| == |log|
    ensures TruthOf(log).copied <= TruthOf(log).bytes
    ensures forall i :: 0 <= i < |log| ==> log[i].end in TruthOf(log).ends
  {
    if log == [] {
    } else {
      LogFacts(log[..|log| - 1]);
    }
  }

  lemma {:induction false} EndIsLogged(log: seq<Settled>, end: FileEnd) returns (i: nat)
    requires end in TruthOf(log).ends
    ensures i < |log| && log[i].end == end
  {
    if log[|log| - 1].end == end {
      i := |log| - 1;
    } else {
      i := EndIsLogged(log[..|log| - 1], end);
    }
  }

  /** The file outcomes counted, and the logical bytes they represent. */
  datatype Tally = Tally(ends: Table<FileEnd>, bytes: int, copied: int)

  const NO_FILES := Tally(map[], 0, 0)

  function Book(t: Tally, e: Settled): Tally {
    Tally(Bump(t.ends, e.end), t.bytes + e.bytes, if Copied(e.end) then t.copied + e.bytes else t.copied)
  }

  ghost predicate Stands(t: Tally, x: Truth) { Matches(t.ends, x.ends) && Amounts(t, x) }

  ghost predicate Amounts(t: Tally, x: Truth) { t.bytes == x.bytes && t.copied == x.copied }

  lemma BookAdds(t: Tally, x: Truth, e: Settled)
    requires Stands(t, x) && Positive(x)
    ensures Stands(Book(t, e), Add(x, TruthOfOne(e)))
  {
    BumpMatches(t.ends, x.ends, e.end);
  }

  /** The tally after these outcomes, one by one. */
  function TallyOf(log: seq<Settled>): Tally {
    if log == [] then NO_FILES else Book(TallyOf(log[..|log| - 1]), log[|log| - 1])
  }

  lemma TallyAppend(log: seq<Settled>, e: Settled)
    ensures TallyOf(log + [e]) == Book(TallyOf(log), e)
  {
    assert (log + [e])[..|log|] == log;
  }

  ghost predicate TallyIs(t: Tally, log: seq<Settled>) {
    forall u {:trigger Unfold(u)} :: Unfold(u) ==> t == TallyOf(log)
  }

  lemma TallyMore(t: Tally, log: seq<Settled>, e: Settled)
    requires TallyIs(t, log)
    ensures TallyIs(Book(t, e), log + [e])
  {
    assert Unfold(0);
    TallyAppend(log, e);
  }

  lemma {:induction false} TallyStands(log: seq<Settled>)
    ensures Stands(TallyOf(log), TruthOf(log))
  {
    if log == [] {
    } else {
      TallyStands(log[..|log| - 1]);
      BookAdds(TallyOf(log[..|log| - 1]), TruthOf(log[..|log| - 1]), log[|log| - 1]);
    }
  }

  // ---- the counters as the program holds them

  function SatBump<K>(t: Table<K>, k: K): Table<K> { t[k := SatAdd(Get(t, k), 1)] }

  /** Adds one file, saturating as it goes. */
  function SatBook(t: Tally, e: Settled): Tally {
    Tally(SatBump(t.ends, e.end), SatAdd(t.bytes, Sat(e.bytes)),
          if Copied(e.end) then SatAdd(t.copied, Sat(e.bytes)) else t.copied)
  }

  function HeldTally(log: seq<Settled>): Tally {
    if log == [] then NO_FILES else SatBook(HeldTally(log[..|log| - 1]), log[|log| - 1])
  }

  ghost predicate HoldsSat(held: Tally, t: Tally) {
    && (forall k :: Get(held.ends, k) == Sat(Get(t.ends, k)))
    && held.bytes == Sat(t.bytes) && held.copied == Sat(t.copied)
  }

  /** However long the run, what the program holds is the saturation of the exact
      tally: so the equations may be read on either. */
  lemma {:induction false} HeldIsSat(log: seq<Settled>)
    ensures HoldsSat(HeldTally(log), TallyOf(log))
    ensures TallyOf(log).bytes >= 0 && TallyOf(log).copied >= 0 && forall k :: Get(TallyOf(log).ends, k) >= 0
  {
    if log == [] {
    } else {
      HeldIsSat(log[..|log| - 1]);
      var t := TallyOf(log[..|log| - 1]);
      SatBookStep(HeldTally(log[..|log| - 1]), t, log[|log| - 1]);
      forall k ensures Get(TallyOf(log).ends, k) >= 0 {
        assert Get(t.ends, k) >= 0;
      }
    }
  }

  lemma SatBookStep(held: Tally, t: Tally, e: Settled)
    requires HoldsSat(held, t) && t.bytes >= 0 && t.copied >= 0 && forall k :: Get(t.ends, k) >= 0
    ensures HoldsSat(SatBook(held, e), Book(t, e))
  {
    SatAdds(t.bytes, e.bytes);
    SatAdds(t.copied, e.bytes);
    forall k ensures Get(SatBook(held, e).ends, k) == Sat(Get(Book(t, e).ends, k)) {
      assert Get(held.ends, k) == Sat(Get(t.ends, k));
      if k == e.end {
        SatAdds(Get(t.ends, k), 1);
        assert Sat(1) == 1;
      }
    }
  }

  // ---- what has been seen and not settled

  ghost predicate IsOwed<T, U>(n: int, seen: int, settled: seq<T>, flying: seq<U>) {
    forall t {:trigger Unfold(t)} :: Unfold(t) ==> n == seen - |settled| - |flying|
  }

  /** Those seen, less those settled and those in flight. */
  ghost function Owed<T, U>(seen: int, settled: seq<T>, flying: seq<U>): int {
    assert IsOwed(seen - |settled| - |flying|, seen, settled, flying);
    var n :| IsOwed(n, seen, settled, flying);
    n
  }

  lemma OwedIs<T, U>(seen: int, settled: seq<T>, flying: seq<U>)
    ensures Owed(seen, settled, flying) == seen - |settled| - |flying|
  {
    assert Unfold(0);
  }

  lemma OwedMore<T, U>(seen: int, settled: seq<T>, flying: seq<U>)
    ensures Owed(seen + 1, settled, flying) == Owed(seen, settled, flying) + 1
  {
    OwedIs(seen, settled, flying);
    OwedIs(seen + 1, settled, flying);
  }

  lemma OwedLess<T, U>(seen: int, settled: seq<T>, flying: seq<U>, e: T)
    ensures Owed(seen, settled + [e], flying) == Owed(seen, settled, flying) - 1
  {
    OwedIs(seen, settled, flying);
    OwedIs(seen, settled + [e], flying);
  }

  lemma OwedFlying<T, U>(seen: int, settled: seq<T>, flying: seq<U>, now: seq<U>)
    requires |flying| == |now| + 1
    ensures Owed(seen, settled, now) == Owed(seen, settled, flying) + 1
  {
    OwedIs(seen, settled, flying);
    OwedIs(seen, settled, now);
  }

  datatype Check = Pass | Mismatch(what: string)

  /** The counters of a run. */
  class Counters {
    var filesDiscovered: int
    var files: Tally
    var dirsDiscovered: int
    var dirs: Table<DirEnd>
    var linksDiscovered: int
    var links: Table<LinkEnd>
    /** What the counters stand for. */
    ghost var filesSeen: nat
    ghost var log: seq<Settled>
    ghost var dirsSeen: nat
    ghost var dirLog: seq<DirEnd>
    ghost var linksSeen: nat
    ghost var linkLog: seq<LinkEnd>

    ghost predicate Valid()
      reads this
    {
      && filesDiscovered == filesSeen
      && TallyIs(files, log)
      && dirsDiscovered == dirsSeen
      && TableIs(dirs, dirLog)
      && linksDiscovered == linksSeen
      && TableIs(links, linkLog)
    }

    constructor ()
      ensures Valid()
      ensures filesSeen == dirsSeen == linksSeen == 0
      ensures log == [] && dirLog == [] && linkLog == []
    {
      filesDiscovered, files := 0, NO_FILES;
      dirsDiscovered, dirs, linksDiscovered, links := 0, map[], 0, map[];
      filesSeen, log, dirsSeen, dirLog, linksSeen, linkLog := 0, [], 0, [], 0, [];
    }

    /** Discovery is counted apart from the outcome, so that a lost file shows. */
    method NoteFileDiscovered()
      requires Valid()
      modifies this`filesDiscovered, this`filesSeen
      ensures Valid() && filesSeen == old(filesSeen) + 1
    {
      filesDiscovered := filesDiscovered + 1;
      filesSeen := filesSeen + 1;
    }

    /** Books exactly one terminal outcome. */
    method ApplyFile(e: Settled)
      requires Valid()
      modifies this`files, this`log
      ensures Valid() && log == old(log) + [e]
    {
      TallyMore(files, log, e);
      files := Book(files, e);
      log := log + [e];
    }

    method NoteDir()
      requires Valid()
      modifies this`dirsDiscovered, this`dirsSeen
      ensures Valid() && dirsSeen == old(dirsSeen) + 1
    {
      dirsDiscovered := dirsDiscovered + 1;
      dirsSeen := dirsSeen + 1;
    }

    method SettleDir(end: DirEnd)
      requires Valid()
      modifies this`dirs, this`dirLog
      ensures Valid() && dirLog == old(dirLog) + [end]
    {
      TableMore(dirs, dirLog, end);
      dirs := Bump(dirs, end);
      dirLog := dirLog + [end];
    }

    method NoteLink()
      requires Valid()
      modifies this`linksDiscovered, this`linksSeen
      ensures Valid() && linksSeen == old(linksSeen) + 1
    {
      linksDiscovered := linksDiscovered + 1;
      linksSeen := linksSeen + 1;
    }

    method SettleLink(end: LinkEnd)
      requires Valid()
      modifies this`links, this`linkLog
      ensures Valid() && linkLog == old(linkLog) + [end]
    {
      TableMore(links, linkLog, end);
      links := Bump(links, end);
      linkLog := linkLog + [end];
    }

    /** Everything discovered has exactly one terminal outcome. */
    ghost predicate Balanced()
      reads this
    {
      filesSeen == |log| && dirsSeen == |dirLog| && linksSeen == |linkLog|
    }

    /** The disjoint equations, as the run checks them. */
    function Reconcile(): Check
      reads this
    {
      if Total(files.ends, FILE_ENDS) != Sat(filesDiscovered) then Mismatch("files")
      else if Total(dirs, DIR_ENDS) != Sat(dirsDiscovered) then Mismatch("directories")
      else if Total(links, LINK_ENDS) != Sat(linksDiscovered) then Mismatch("links")
      else if Sat(files.copied) > Sat(files.bytes) then Mismatch("bytes")
      else Pass
    }
  }

  lemma EveryFileEndIsCounted(k: FileEnd)
    ensures k in FILE_ENDS
  {
    var place := match k
      case CopiedNew => 0 case CopiedReplaced => 1 case SkippedSame => 2 case SkippedDiff => 3
      case MetaFixed => 4 case FileFailed => 5 case FileExcluded => 6 case FileNotAttempted => 7;
    assert FILE_ENDS[place] == k;
  }

  lemma EveryDirEndIsCounted(k: DirEnd)
    ensures k in DIR_ENDS
  {
    var place := match k
      case DirDone => 0 case DirMetaFailed => 1 case DirFailed => 2 case DirExcluded => 3 case DirPlanned => 4;
    assert DIR_ENDS[place] == k;
  }

  lemma EveryLinkEndIsCounted(k: LinkEnd)
    ensures k in LINK_ENDS
  {
    var place := match k
      case LinkCopied => 0 case LinkFailed => 1 case LinkExcluded => 2 case LinkNotAttempted => 3
      case LinkSkipped => 4 case LinkPlanned => 5;
    assert LINK_ENDS[place] == k;
  }

  lemma FileTotal(t: Table<FileEnd>, ends: multiset<FileEnd>)
    requires Matches(t, ends)
    ensures Total(t, FILE_ENDS) == Sat(|ends|)
  {
    forall k: FileEnd ensures k in FILE_ENDS { EveryFileEndIsCounted(k); }
    TotalIsCount(t, ends, FILE_ENDS);
  }

  lemma DirTotal(log: seq<DirEnd>)
    ensures Total(TableOf(log), DIR_ENDS) == Sat(|log|)
  {
    TableMatches(log);
    forall k: DirEnd ensures k in DIR_ENDS { EveryDirEndIsCounted(k); }
    TotalIsCount(TableOf(log), multiset(log), DIR_ENDS);
  }

  lemma LinkTotal(log: seq<LinkEnd>)
    ensures Total(TableOf(log), LINK_ENDS) == Sat(|log|)
  {
    TableMatches(log);
    forall k: LinkEnd ensures k in LINK_ENDS { EveryLinkEndIsCounted(k); }
    TotalIsCount(TableOf(log), multiset(log), LINK_ENDS);
  }

  /** The equations accept every balanced run, however large; and until a
      counter saturates they accept nothing else. */
  lemma ReconcileExact(c: Counters)
    requires c.Valid()
    ensures c.Balanced() ==> c.Reconcile() == Pass
    ensures c.filesSeen < U64_MAX && c.dirsSeen < U64_MAX && c.linksSeen < U64_MAX
            ==> (c.Reconcile() == Pass <==> c.Balanced())
  {
    assert Unfold(0);
    LogFacts(c.log);
    TallyStands(c.log);
    FileTotal(c.files.ends, TruthOf(c.log).ends);
    DirTotal(c.dirLog);
    LinkTotal(c.linkLog);
  }

  // ---- summaries per top-level folder

  datatype Summary = Summary(discovered: int, files: Tally)

  const EMPTY := Summary(0, NO_FILES)

  /** The summary stands for these settled files. */
  ghost predicate Sums(s: Summary, x: Truth) { s.discovered == x.files && Stands(s.files, x) }

  /** Every folder's summary stands for its part of the log, and no settled
      file is without a folder. */
  ghost predicate FoldersMatch(folders: map<string, Summary>, log: seq<Settled>) {
    forall k :: FolderMatches(folders, k, PartOf(log, {k}))
  }

  ghost predicate FolderMatches(folders: map<string, Summary>, k: string, part: Truth) {
    if k in folders then Sums(folders[k], part) else part == NOTHING
  }

  function BookFolder(folders: map<string, Summary>, e: Settled): map<string, Summary> {
    var k := TopLevel(e.path);
    var was := if k in folders then folders[k] else EMPTY;
    folders[k := Summary(was.discovered + 1, Book(was.files, e))]
  }

  lemma BookFolderMatches(folders: map<string, Summary>, log: seq<Settled>, e: Settled)
    requires FoldersMatch(folders, log)
    ensures FoldersMatch(BookFolder(folders, e), log + [e])
  {
    forall k ensures FolderMatches(BookFolder(folders, e), k, PartOf(log + [e], {k})) {
      assert FolderMatches(folders, k, PartOf(log, {k}));
      PartAppend(log, e, {k});
      BookOne(folders, e, k, PartOf(log, {k}));
    }
  }

  lemma BookOne(folders: map<string, Summary>, e: Settled, k: string, part: Truth)
    requires FolderMatches(folders, k, part) && Positive(part)
    ensures FolderMatches(BookFolder(folders, e), k, if TopLevel(e.path) == k then Add(part, TruthOfOne(e)) else part)
  {
    if TopLevel(e.path) == k {
      BookTop(if k in folders then folders[k] else EMPTY, part, e);
    }
  }

  lemma BookTop(s: Summary, x: Truth, e: Settled)
    requires Sums(s, x) && Positive(x)
    ensures Sums(Summary(s.discovered + 1, Book(s.files, e)), Add(x, TruthOfOne(e)))
  {
    BookAdds(s.files, x, e);
  }

  /** The summaries after these outcomes, one by one. */
  function FoldersOf(log: seq<Settled>): map<string, Summary> {
    if log == [] then map[] else BookFolder(FoldersOf(log[..|log| - 1]), log[|log| - 1])
  }

  ghost predicate FoldersAre(folders: map<string, Summary>, log: seq<Settled>) {
    forall u {:trigger Unfold(u)} :: Unfold(u) ==> folders == FoldersOf(log)
  }

  lemma FoldersMore(folders: map<string, Summary>, log: seq<Settled>, e: Settled)
    requires FoldersAre(folders, log)
    ensures FoldersAre(BookFolder(folders, e), log + [e])
  {
    assert Unfold(0);
    FoldersAppend(log, e);
  }

  lemma FoldersAppend(log: seq<Settled>, e: Settled)
    ensures FoldersOf(log + [e]) == BookFolder(FoldersOf(log), e)
  {
    assert (log + [e])[..|log|] == log;
  }

  lemma {:induction false} FoldersAlwaysMatch(log: seq<Settled>)
    ensures FoldersMatch(FoldersOf(log), log)
  {
    if log == [] {
    } else {
      var rest, last := log[..|log| - 1], log[|log| - 1];
      FoldersAlwaysMatch(rest);
      BookFolderMatches(FoldersOf(rest), rest, last);
      assert log == rest + [last];
    }
  }

  lemma AddFacts(x: Truth, y: Truth, z: Truth)
    ensures Add(Add(x, y), z) == Add(Add(x, z), y) == Add(x, Add(y, z))
  {
  }

  lemma AddNothing()
    ensures Add(NOTHING, NOTHING) == NOTHING
  {
    assert NOTHING.ends + NOTHING.ends == NOTHING.ends;
  }

  /** A part takes in one more folder. */
  lemma {:induction false} PartSplit(log: seq<Settled>, done: set<string>, k: string)
    requires k !in done
    ensures PartOf(log, done + {k}) == Add(PartOf(log, done), PartOf(log, {k}))
  {
    if log == [] {
      AddNothing();
    } else {
      var rest := log[..|log| - 1];
      PartSplit(rest, done, k);
      PartSplitStep(PartOf(rest, done), PartOf(rest, {k}), PartOf(rest, done + {k}), log, done, k);
    }
  }

  lemma PartSplitStep(a: Truth, b: Truth, both: Truth, log: seq<Settled>, done: set<string>, k: string)
    requires log != [] && k !in done && both == Add(a, b)
    requires a == PartOf(log[..|log| - 1], done) && b == PartOf(log[..|log| - 1], {k})
    requires both == PartOf(log[..|log| - 1], done + {k})
    ensures PartOf(log, done + {k}) == Add(PartOf(log, done), PartOf(log, {k}))
  {
    var last := log[|log| - 1];
    var top := TopLevel(last.path);
    if top in done {
      assert PartOf(log, done + {k}) == Add(Add(a, b), TruthOfOne(last));
      assert PartOf(log, {k}) == b;
      AddFacts(a, b, TruthOfOne(last));
    } else if top == k {
      assert PartOf(log, done + {k}) == Add(Add(a, b), TruthOfOne(last));
      assert PartOf(log, done) == a;
      AddFacts(a, b, TruthOfOne(last));
    } else {
      assert PartOf(log, done + {k}) == both;
    }
  }

  lemma {:induction false} PartNone(log: seq<Settled>)
    ensures PartOf(log, {}) == NOTHING
  {
    if log == [] {
    } else {
      PartNone(log[..|log| - 1]);
    }
  }

  lemma {:induction false} PartAll(log: seq<Settled>, folders: set<string>)
    requires forall e :: e in log ==> TopLevel(e.path) in folders
    ensures PartOf(log, folders) == TruthOf(log)
  {
    if log == [] {
    } else {
      PartAll(log[..|log| - 1], folders);
    }
  }

  lemma FoldersCover(folders: map<string, Summary>, log: seq<Settled>)
    requires FoldersMatch(folders, log)
    ensures PartOf(log, folders.Keys) == TruthOf(log)
  {
    forall e | e in log ensures TopLevel(e.path) in folders.Keys {
      PartHolds(log, e);
      assert FolderMatches(folders, TopLevel(e.path), PartOf(log, {TopLevel(e.path)}));
    }
    PartAll(log, folders.Keys);
  }

  lemma {:induction false} PartHolds(log: seq<Settled>, e: Settled)
    requires e in log
    ensures PartOf(log, {TopLevel(e.path)}).files > 0
  {
    var rest, last := log[..|log| - 1], log[|log| - 1];
    if last != e {
      PartHolds(rest, e);
    }
  }

  function Merge(a: Summary, b: Summary): Summary {
    Summary(a.discovered + b.discovered,
            Tally(MergeTables(a.files.ends, b.files.ends), a.files.bytes + b.files.bytes,
                  a.files.copied + b.files.copied))
  }

  function MergeTables<K>(a: Table<K>, b: Table<K>): Table<K> {
    map k | k in a.Keys + b.Keys :: Get(a, k) + Get(b, k)
  }

  lemma MergeTablesMatches<K(!new)>(a: Table<K>, b: Table<K>, endsA: multiset<K>, endsB: multiset<K>)
    requires Matches(a, endsA) && Matches(b, endsB)
    ensures Matches(MergeTables(a, b), endsA + endsB)
  {
  }

  lemma MergeSums(a: Summary, b: Summary, x: Truth, y: Truth)
    requires Sums(a, x) && Sums(b, y)
    requires Positive(x) && Positive(y)
    ensures Sums(Merge(a, b), Add(x, y))
  {
    MergeTablesMatches(a.files.ends, b.files.ends, x.ends, y.ends);
  }

  lemma NoFolders(log: seq<Settled>)
    ensures Sums(EMPTY, PartOf(log, {}))
  {
    PartNone(log);
  }

  lemma FolderStep(total: Summary, log: seq<Settled>, done: set<string>, k: string)
    requires k !in done && k in FoldersOf(log)
    requires Sums(total, PartOf(log, done))
    ensures Sums(Merge(total, FoldersOf(log)[k]), PartOf(log, done + {k}))
  {
    FoldersAlwaysMatch(log);
    assert FolderMatches(FoldersOf(log), k, PartOf(log, {k}));
    PartSplit(log, done, k);
    MergeSums(total, FoldersOf(log)[k], PartOf(log, done), PartOf(log, {k}));
  }

  lemma AllFolders(log: seq<Settled>)
    ensures PartOf(log, FoldersOf(log).Keys) == TruthOf(log)
  {
    FoldersAlwaysMatch(log);
    FoldersCover(FoldersOf(log), log);
  }

  /** The totals over the folders, in whatever order they come, are the totals
      of all settled files. */
  method SumFolders(folders: map<string, Summary>, ghost log: seq<Settled>) returns (total: Summary)
    requires folders == FoldersOf(log)
    ensures Sums(total, TruthOf(log))
  {
    total := EMPTY;
    var rest := folders.Keys;
    ghost var done: set<string> := {};
    NoFolders(log);
    while rest != {}
      invariant done + rest == folders.Keys && done !! rest
      invariant Sums(total, PartOf(log, done))
      decreases rest
    {
      var k :| k in rest;
      FolderStep(total, log, done, k);
      total := Merge(total, folders[k]);
      rest, done := rest - {k}, done + {k};
    }
    assert done == folders.Keys;
    AllFolders(log);
  }

  /** The folder equations: every run whose files are balanced passes, and
      until the discovery counter saturates no other run does. */
  method ReconcileFolders(c: Counters, folders: map<string, Summary>) returns (ok: bool)
    requires c.Valid() && FoldersAre(folders, c.log)
    ensures c.filesSeen == |c.log| ==> ok
    ensures c.filesSeen < U64_MAX ==> (ok <==> c.filesSeen == |c.log|)
  {
    assert Unfold(0);
    var total := SumFolders(folders, c.log);
    LogFacts(c.log);
    TallyStands(c.log);
    ok := && Sat(total.discovered) == Sat(c.filesDiscovered)
          && (forall i :: 0 <= i < |FILE_ENDS| ==>
                Sat(Get(total.files.ends, FILE_ENDS[i])) == Sat(Get(c.files.ends, FILE_ENDS[i])))
          && Sat(total.files.bytes) == Sat(c.files.bytes)
          && Sat(total.files.copied) == Sat(c.files.copied);
  }
}
