/**
  What happens to destination directories during a run, in order: work handed
  to the pool and returned, work done by the coordinator itself, and the
  finalization that stamps a directory. `Clean` says no trail ever works in a
  directory after it was stamped.
*/
module Trail {
  import opened Accounting

  datatype Event =
    | Opened(dir: Path)      // listed on both sides
    | Submitted(dir: Path)   // from here on a worker may write in the directory
    | Returned(dir: Path)    // that worker's last write has happened
    | Touched(dir: Path)     // the coordinator's own write
    | Finalized(dir: Path)

  ghost function FinalizedIn(l: seq<Event>): set<Path> {
    if l == [] then {}
    else FinalizedIn(l[..|l| - 1]) + if l[|l| - 1].Finalized? then {l[|l| - 1].dir} else {}
  }

  ghost function OpenedIn(l: seq<Event>): set<Path> {
    if l == [] then {}
    else OpenedIn(l[..|l| - 1]) + if l[|l| - 1].Opened? then {l[|l| - 1].dir} else {}
  }

  /** Jobs a directory has in the pool. */
  ghost function Flying(l: seq<Event>, d: Path): int {
    if l == [] then 0
    else
      var last := l[|l| - 1];
      var before := Flying(l[..|l| - 1], d);
      if last == Submitted(d) then before + 1 else if last == Returned(d) then before - 1 else before
  }

  /** The event may come next. */
  ghost predicate Allowed(l: seq<Event>, e: Event) {
    && e.dir !in FinalizedIn(l)
    && (e.Opened? <==> e.dir !in OpenedIn(l))
    && (e.Returned? ==> Flying(l, e.dir) > 0)
    && (e.Finalized? ==> Flying(l, e.dir) == 0)
  }

  ghost predicate Clean(l: seq<Event>) {
    l == [] || (Clean(l[..|l| - 1]) && Allowed(l[..|l| - 1], l[|l| - 1]))
  }

  lemma TrailAppend(l: seq<Event>, e: Event)
    ensures FinalizedIn(l + [e]) == FinalizedIn(l) + if e.Finalized? then {e.dir} else {}
    ensures OpenedIn(l + [e]) == OpenedIn(l) + if e.Opened? then {e.dir} else {}
    ensures forall d :: Flying(l + [e], d)
                     == if e == Submitted(d) then Flying(l, d) + 1
                        else if e == Returned(d) then Flying(l, d) - 1
                        else Flying(l, d)
    ensures Clean(l + [e]) <==> Clean(l) && Allowed(l, e)
  {
    assert (l + [e])[..|l|] == l;
  }

  /** A directory has jobs in the pool only while it is open. */
  lemma {:induction false} ClosedIsQuiet(l: seq<Event>, d: Path)
    requires Clean(l)
    ensures Flying(l, d) >= 0
    ensures d in FinalizedIn(l) ==> Flying(l, d) == 0
    ensures d !in OpenedIn(l) ==> Flying(l, d) == 0
  {
    if l == [] {
    } else {
      var rest, last := l[..|l| - 1], l[|l| - 1];
      ClosedIsQuiet(rest, d);
      assert l == rest + [last];
      TrailAppend(rest, last);
    }
  }

  /** After a directory is stamped nothing happens in it, it is stamped at most
      once, and at that point every job submitted for it has returned. */
  lemma {:induction false} CleanMeans(l: seq<Event>)
    requires Clean(l)
    ensures forall i, j :: 0 <= i < j < |l| && l[i].Finalized? ==> l[j].dir != l[i].dir
    ensures forall i :: 0 <= i < |l| && l[i].Finalized? ==> Flying(l[..i], l[i].dir) == 0
    ensures forall i :: 0 <= i < |l| && l[i].Finalized? ==> l[i].dir in OpenedIn(l[..i])
  {
    if l == [] {
    } else {
      var n := |l| - 1;
      var rest, last := l[..n], l[n];
      CleanMeans(rest);
      assert forall i :: 0 <= i < n ==> rest[i] == l[i] && rest[..i] == l[..i];
      forall i | 0 <= i < n && l[i].Finalized? ensures last.dir != l[i].dir {
        IsFinalized(rest, i);
      }
    }
  }

  lemma {:induction false} IsFinalized(l: seq<Event>, i: nat)
    requires i < |l| && l[i].Finalized?
    ensures l[i].dir in FinalizedIn(l)
  {
    if i < |l| - 1 {
      IsFinalized(l[..|l| - 1], i);
    }
  }
}
