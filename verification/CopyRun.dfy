/**
  A whole copy run: the walk, the reconciliation of its counters, and the exit
  code.
*/
module CopyRun {
  import opened Bytes
  import opened Accounting
  import opened Walk
  import opened Trail
  import opened Pool
  import opened Coordinator

  const INTEGRITY_FAILED := 6

  /** The exit code of a run whose counters reconcile. The breaker outranks
      cancellation, and both outrank failures, those of the read-back included. */
  function CompletedExit(canceled: bool, breakerTripped: bool, c: Counters, unverified: Option<nat>): int
    reads c
  {
    if breakerTripped then 4
    else if canceled then 3
    else if Get(c.files.ends, FileFailed) > 0 || Get(c.dirs, DirFailed) > 0
            || Get(c.dirs, DirMetaFailed) > 0 || Get(c.links, LinkFailed) > 0
            || (unverified.Some? && unverified.value > 0) then 2
    else 0
  }

  /** Some file, directory or link failed, or was not what it should be when read
      back. */
  ghost predicate AnyFailed(c: Counters, unverified: Option<nat>)
    reads c
  {
    || (unverified.Some? && unverified.value > 0)
    || (exists i :: 0 <= i < |c.log| && c.log[i].end == FileFailed)
    || DirFailed in c.dirLog || DirMetaFailed in c.dirLog || LinkFailed in c.linkLog
  }

  lemma FailuresShow(c: Counters)
    requires c.Valid()
    ensures Get(c.files.ends, FileFailed) > 0 <==> exists i :: 0 <= i < |c.log| && c.log[i].end == FileFailed
    ensures Get(c.dirs, DirFailed) > 0 <==> DirFailed in c.dirLog
    ensures Get(c.dirs, DirMetaFailed) > 0 <==> DirMetaFailed in c.dirLog
    ensures Get(c.links, LinkFailed) > 0 <==> LinkFailed in c.linkLog
  {
    assert Unfold(0);
    TallyStands(c.log);
    LogFacts(c.log);
    if FileFailed in TruthOf(c.log).ends {
      var i := EndIsLogged(c.log, FileFailed);
    }
    TableMatches(c.dirLog);
    TableMatches(c.linkLog);
  }

  /** The exit code says exactly how the run went, and a run that is not a dry
      run and exits with 0 has left no file out. */
  lemma ExitMeans(r: Runner, unverified: Option<nat>)
    requires r.Valid()
    ensures var exit := CompletedExit(r.canceled, r.breaker.Some?, r.counters, unverified);
      && (exit == 4 <==> Tripped(r.health))
      && (exit == 3 <==> r.canceled && !Tripped(r.health))
      && (exit == 2 <==> AnyFailed(r.counters, unverified) && !r.canceled && !Tripped(r.health))
      && (exit == 0 <==> !AnyFailed(r.counters, unverified) && !r.canceled && !Tripped(r.health))
      && (exit == 0 && !r.dry ==> NoneSkipped(r.counters.log))
  {
    assert Unfold(0);
    FailuresShow(r.counters);
  }

  /** Runs a copy. Whatever the I/O does, whenever it is canceled, and in
      whatever order completions arrive: it ends, its counters reconcile, and
      no directory is touched after it was stamped. */
  method Run(dry: bool, sameSpindle: bool, linksSupported: bool, maximumFileSize: Option<nat>,
             fold: string -> Option<string>, capacity: nat, root: Node, present: bool)
    returns (r: Runner, exit: int, unverified: Option<nat>)
    requires capacity >= 1 && root.DirNode?
    ensures r.Valid() && r.dry == dry
    ensures r.counters.Balanced() && r.counters.Reconcile() == Pass
    ensures exit == CompletedExit(r.canceled, r.breaker.Some?, r.counters, unverified) != INTEGRITY_FAILED
    ensures exit == 0 && !dry ==> NoneSkipped(r.counters.log) && !AnyFailed(r.counters, unverified)
    ensures OpenedIn(r.trail) == FinalizedIn(r.trail)
    ensures forall i, j :: 0 <= i < j < |r.trail| && r.trail[i].Finalized? ==> r.trail[j].dir != r.trail[i].dir
    ensures forall i :: 0 <= i < |r.trail| && r.trail[i].Finalized? ==> Flying(r.trail[..i], r.trail[i].dir) == 0
  {
    r := new Runner(dry, sameSpindle, linksSupported, maximumFileSize, fold, capacity);
    r.CopyTree(root, present);
    // the read-back of what was written, if it was asked for
    unverified := None;
    if !dry {
      unverified := *;
    }
    CleanMeans(r.trail);
    ReconcileExact(r.counters);
    ExitMeans(r, unverified);
    var verdict := r.counters.Reconcile();
    var foldersOk := ReconcileFolders(r.counters, r.folders);
    exit := if verdict != Pass || !foldersOk then INTEGRITY_FAILED
            else CompletedExit(r.canceled, r.breaker.Some?, r.counters, unverified);
  }
}
