/**
  What becomes of destination-only names that look like resume temporaries: one
  that this run will resume is passed over, one that is proven to be this
  program's own and useless is deleted, and everything else is reported.
*/
module Reclaim {
  import opened Bytes
  import opened JournalRecords
  import opened Journaling

  /** A source entry of the directory. */
  datatype Child = Child(name: Text, file: bool, identity: Identity, size: nat, mtime: int)

  /** The directory and name a key decodes to, the cheap and the full test of a
      temporary's name, and the size from which a file is streamed. */
  datatype Rules = Rules(parentOf: Text -> Option<Text>, nameOf: Text -> Option<Text>,
                         shaped: Text -> bool, safe: Text -> bool, large: nat)

  /** An orphan of the resumable checkpoints has a path to retire; one that was
      harvested has none. */
  datatype Verdict = Live | Orphan(retire: Option<Text>, identity: Identity)

  // ---- the verdict

  /** The child is still the version the checkpoint was taken from. */
  predicate Unchanged(c: Checkpoint, child: Child) {
    child.file && c.size == child.size && c.mtime == child.mtime && c.sourceIdentity == Some(child.identity)
  }

  /** The first checkpoint, in key order, that names the temporary. */
  function RecordFor(m: Resumable, name: Text): (c: Option<Checkpoint>)
    ensures c.Some? ==> c.value.temp == name && exists k :: k in m && m[k] == c.value
    ensures c.None? <==> forall k :: k in m ==> m[k].temp != name
  {
    var named := map k | k in m && m[k].temp == name :: m[k];
    if named.Keys == {} then
      assert forall k :: k in m && m[k].temp == name ==> k in named.Keys;
      None
    else
      assert FirstKey(named) in m;
      Some(named[FirstKey(named)])
  }

  function ChildNamed(children: seq<Child>, name: Option<Text>): Option<Child> {
    if children == [] then None
    else if name == Some(children[0].name) then Some(children[0])
    else ChildNamed(children[1..], name)
  }

  function Judge(c: Checkpoint, directory: Text, children: seq<Child>, rules: Rules): Option<Verdict> {
    var child := ChildNamed(children, rules.nameOf(c.path));
    if rules.parentOf(c.path) != Some(directory) then None
    else if child.Some? && Unchanged(c, child.value) then Some(Live)
    else if child.Some? && child.value.file && child.value.size >= rules.large then None
    else if c.tempIdentity.Some? then Some(Verdict.Orphan(Some(c.path), c.tempIdentity.value))
    else None
  }

  ghost predicate NamesDiffer(children: seq<Child>) {
    forall i, j :: 0 <= i < j < |children| ==> children[i].name != children[j].name
  }

  lemma {:induction false} ChildNamedIs(children: seq<Child>, name: Option<Text>, child: Child)
    requires NamesDiffer(children)
    ensures ChildNamed(children, name) == Some(child) <==> child in children && name == Some(child.name)
  {
    if children == [] {
    } else {
      assert children == [children[0]] + children[1..];
      ChildNamedIs(children[1..], name, child);
    }
  }

  /** A temporary is live exactly when its checkpoint speaks for this directory
      and the very file it was taken from is still there. */
  lemma LiveExactly(c: Checkpoint, directory: Text, children: seq<Child>, rules: Rules)
    requires NamesDiffer(children)
    ensures Judge(c, directory, children, rules) == Some(Live)
            <==> rules.parentOf(c.path) == Some(directory)
                 && exists child :: child in children && rules.nameOf(c.path) == Some(child.name) && Unchanged(c, child)
  {
    var name := rules.nameOf(c.path);
    forall child ensures ChildNamed(children, name) == Some(child) <==> child in children && name == Some(child.name) {
      ChildNamedIs(children, name, child);
    }
  }

  /** An orphan's checkpoint could not be resumed by any file of the directory,
      and the file it was taken for is below the streaming size. (Its named
      streams may still bring it to the streamed engine.) */
  lemma OrphanIsUseless(c: Checkpoint, directory: Text, children: seq<Child>, rules: Rules, child: Child)
    requires NamesDiffer(children)
    requires Judge(c, directory, children, rules).Some? && Judge(c, directory, children, rules).value.Orphan?
    requires child in children && rules.nameOf(c.path) == Some(child.name) && child.file
    ensures !Unchanged(c, child) && child.size < rules.large
  {
    ChildNamedIs(children, rules.nameOf(c.path), child);
  }

  // ---- proof of creation

  /** A checkpoint of a file of this directory was recorded for a temporary with
      this name and this identity. */
  ghost predicate Created(past: seq<Event>, name: Text, identity: Identity, directory: Text, rules: Rules) {
    exists i :: 0 <= i < |past| && CreatedBy(past[i], name, identity, directory, rules)
  }

  predicate CreatedBy(e: Event, name: Text, identity: Identity, directory: Text, rules: Rules) {
    && e.Check? && e.checkpoint.temp == name && e.checkpoint.tempIdentity == Some(identity)
    && rules.parentOf(e.checkpoint.path) == Some(directory)
  }

  /** Every orphan verdict has its proof. */
  ghost predicate AllCreated(v: map<Text, Verdict>, past: seq<Event>, directory: Text, rules: Rules) {
    forall n :: n in v && v[n].Orphan? ==> Created(past, n, v[n].identity, directory, rules)
  }

  lemma RecordProves(m: Resumable, past: seq<Event>, name: Text, directory: Text, children: seq<Child>,
                     rules: Rules)
    requires Grounded(m, past) && RecordFor(m, name).Some?
    ensures var v := Judge(RecordFor(m, name).value, directory, children, rules);
      v.Some? && v.value.Orphan? ==> Created(past, name, v.value.identity, directory, rules)
  {
    var x := RecordFor(m, name).value;
    var k :| k in m && m[k] == x;
    var i :| 0 <= i < |past| && past[i] == Check(x);
    if x.tempIdentity.Some? && rules.parentOf(x.path) == Some(directory) {
      assert CreatedBy(past[i], name, x.tempIdentity.value, directory, rules);
    }
  }

  lemma HarvestProves(past: seq<Event>, o: Orphan, name: Text, directory: Text, rules: Rules)
    requires Proves(past, o) && Speaks(o, name, directory, rules.parentOf)
    ensures Created(past, name, o.identity, directory, rules)
  {
    var i :| 0 <= i < |past| && past[i].Check? && From(o, past[i].checkpoint);
    assert CreatedBy(past[i], name, o.identity, directory, rules);
  }

  // ---- classifying a directory's names

  /** What the journal knows when a directory is entered. */
  datatype Known = Known(resumable: Resumable, orphans: seq<JournalRecords.Orphan>)

  /** What is decided for one name: a resumable checkpoint decides alone, and
      only without one does the harvest speak. */
  ghost predicate Decided(v: map<Text, Verdict>, name: Text, j: Known, directory: Text, children: seq<Child>,
                          rules: Rules)
  {
    IsVerdict(if name in v then Some(v[name]) else None, name, j, directory, children, rules)
  }

  ghost predicate IsVerdict(verdict: Option<Verdict>, name: Text, j: Known, directory: Text,
                            children: seq<Child>, rules: Rules)
  {
    if !rules.shaped(name) then verdict.None?
    else match RecordFor(j.resumable, name)
         case Some(c) => verdict == Judge(c, directory, children, rules)
         case None => HarvestSays(verdict, name, j.orphans, directory, rules)
  }

  /** An orphan without a path to retire, if and only if a harvested record
      speaks for the name in this directory. */
  ghost predicate HarvestSays(verdict: Option<Verdict>, name: Text, orphans: seq<JournalRecords.Orphan>,
                              directory: Text,
                              rules: Rules)
  {
    match verdict
    case None => forall o :: o in orphans ==> !Speaks(o, name, directory, rules.parentOf)
    case Some(v) =>
      exists o :: o in orphans && Speaks(o, name, directory, rules.parentOf) && v == Verdict.Orphan(None, o.identity)
  }

  /** The harvests agree on every record but those for these names. */
  ghost predicate SameBut(names: seq<Text>, a: seq<JournalRecords.Orphan>, b: seq<JournalRecords.Orphan>) {
    forall o: JournalRecords.Orphan :: o.temp !in names ==> (o in a <==> o in b)
  }

  lemma TakenSame(before: seq<JournalRecords.Orphan>, now: seq<JournalRecords.Orphan>, o: JournalRecords.Orphan)
    requires multiset(now) == multiset(before) - multiset{o}
    ensures SameBut([o.temp], now, before)
  {
    forall x: JournalRecords.Orphan | x.temp !in [o.temp] ensures x in now <==> x in before {
      assert x in now <==> multiset(now)[x] > 0;
      assert x in before <==> multiset(before)[x] > 0;
    }
  }

  lemma SameVerdict(verdict: Option<Verdict>, name: Text, m: Resumable, a: seq<JournalRecords.Orphan>,
                    b: seq<JournalRecords.Orphan>, directory: Text, children: seq<Child>, rules: Rules)
    requires IsVerdict(verdict, name, Known(m, a), directory, children, rules)
    requires forall o: JournalRecords.Orphan :: o.temp == name ==> (o in a <==> o in b)
    ensures IsVerdict(verdict, name, Known(m, b), directory, children, rules)
  {
    if rules.shaped(name) && RecordFor(m, name).None? && verdict.Some? {
      var o :| o in a && Speaks(o, name, directory, rules.parentOf)
              && verdict.value == Verdict.Orphan(None, o.identity);
      assert o in b;
    }
  }

  /** Nothing but the names of the listing is decided, and each of them is. */
  ghost predicate AllDecided(v: map<Text, Verdict>, names: seq<Text>, j: Known, directory: Text,
                             children: seq<Child>, rules: Rules)
  {
    && (forall n :: n in v ==> n in names)
    && (forall n :: n in names ==> Decided(v, n, j, directory, children, rules))
  }

  lemma DecideMore(v: map<Text, Verdict>, names: seq<Text>, name: Text, verdict: Option<Verdict>, j: Known,
                   directory: Text, children: seq<Child>, rules: Rules)
    requires AllDecided(v, names, j, directory, children, rules)
    requires IsVerdict(verdict, name, j, directory, children, rules) && name !in names
    ensures AllDecided(With(v, name, verdict), names + [name], j, directory, children, rules)
  {
    var now := With(v, name, verdict);
    forall n | n in names + [name] ensures Decided(now, n, j, directory, children, rules) {
      if n in names {
        assert Decided(v, n, j, directory, children, rules);
      }
    }
  }

  function With(v: map<Text, Verdict>, name: Text, verdict: Option<Verdict>): map<Text, Verdict> {
    if verdict.Some? then v[name := verdict.value] else v
  }

  /** Classifies the names of one directory listing, which all differ. Without a
      journal, as in a dry run, nothing is classified. */
  method Classify(journal: Journal?, dry: bool, names: seq<Text>, directory: Text, children: seq<Child>, rules: Rules)
    returns (v: map<Text, Verdict>)
    requires journal != null ==> journal.Valid()
    requires forall i, j :: 0 <= i < j < |names| ==> names[i] != names[j]
    modifies (if journal == null then {} else {journal})`orphans
    ensures journal != null ==> journal.Valid() && AllCreated(v, journal.past, directory, rules)
    ensures dry || journal == null ==> v == map[]
    ensures !dry && journal != null ==>
              AllDecided(v, names, Known(journal.resumable, old(journal.orphans)), directory, children, rules)
  {
    v := map[];
    if dry || journal == null {
      return;
    }
    ghost var j := Known(journal.resumable, journal.orphans);
    for i := 0 to |names|
      invariant journal.Valid() && AllCreated(v, journal.past, directory, rules)
      invariant AllDecided(v, names[..i], j, directory, children, rules)
      invariant SameBut(names[..i], journal.orphans, j.orphans)
    {
      ghost var left := journal.orphans;
      var verdict := ClassifyOne(journal, names[i], directory, children, rules);
      SameVerdict(verdict, names[i], j.resumable, left, j.orphans, directory, children, rules);
      DecideMore(v, names[..i], names[i], verdict, j, directory, children, rules);
      assert names[..i + 1] == names[..i] + [names[i]];
      v := With(v, names[i], verdict);
    }
    assert names[..|names|] == names;
  }

  method ClassifyOne(journal: Journal, name: Text, directory: Text, children: seq<Child>, rules: Rules)
    returns (verdict: Option<Verdict>)
    requires journal.Valid()
    modifies journal`orphans
    ensures journal.Valid()
    ensures IsVerdict(verdict, name, Known(journal.resumable, old(journal.orphans)), directory, children, rules)
    ensures SameBut([name], journal.orphans, old(journal.orphans))
    ensures verdict.Some? && verdict.value.Orphan?
            ==> Created(journal.past, name, verdict.value.identity, directory, rules)
  {
    if !rules.shaped(name) {
      return None;
    }
    match RecordFor(journal.resumable, name)
    case Some(c) =>
      RecordProves(journal.resumable, journal.past, name, directory, children, rules);
      verdict := Judge(c, directory, children, rules);
    case None =>
      var harvested := journal.TakeOrphan(name, directory, rules.parentOf);
      if harvested.None? {
        return None;
      }
      TakenSame(old(journal.orphans), journal.orphans, harvested.value);
      HarvestProves(journal.past, harvested.value, name, directory, rules);
      verdict := Some(Verdict.Orphan(None, harvested.value.identity));
  }

  // ---- settling the extras

  datatype Outcome = Skipped | Reclaimed(identity: Identity) | Counted

  /** A live temporary is passed over, a name without a verdict is counted, and
      only an object with the proven identity is ever deleted. */
  ghost predicate Right(name: Text, o: Outcome, v: map<Text, Verdict>, known: seq<Event>, directory: Text,
                        rules: Rules)
  {
    && (o.Skipped? <==> name in v && v[name].Live?)
    && (o.Reclaimed? ==> name in v && v[name].Orphan? && o.identity == v[name].identity && rules.safe(name)
                         && Created(known, name, o.identity, directory, rules))
  }

  /** The paths whose checkpoints a settled listing retires. */
  function Retired(extras: seq<Text>, outcomes: seq<Outcome>, v: map<Text, Verdict>): seq<Text>
    requires |extras| == |outcomes|
  {
    if extras == [] then []
    else
      var n := |extras| - 1;
      Retired(extras[..n], outcomes[..n], v) + RetiredBy(extras[n], outcomes[n], v)
  }

  function RetiredBy(name: Text, o: Outcome, v: map<Text, Verdict>): seq<Text> {
    if o.Reclaimed? && name in v && v[name].Orphan? && v[name].retire.Some? then [v[name].retire.value] else []
  }

  function RetireAll(m: Resumable, paths: seq<Text>): Resumable {
    if paths == [] then m else Retire(RetireAll(m, paths[..|paths| - 1]), paths[|paths| - 1])
  }

  /** Opens the temporary under its name, and deletes it only if it is the very
      object its checkpoint recorded. By now the name may have gone, or belong to
      another object. The reply is the object deleted. */
  method Discard(name: Text, recorded: Identity, rules: Rules) returns (gone: Option<Identity>)
    ensures gone.Some? ==> gone.value == recorded && rules.safe(name)
  {
    var there: Option<Identity> := *;
    var discarded: bool := *;
    if !rules.safe(name) || there != Some(recorded) || !discarded {
      return None;
    }
    return there;
  }

  /** Settles one destination-only name. A retirement that cannot be recorded
      ends the use of the journal. */
  method SettleOne(journal: Journal?, name: Text, v: map<Text, Verdict>, rules: Rules, ghost known: seq<Event>,
                   ghost directory: Text)
    returns (o: Outcome, kept: Journal?)
    requires AllCreated(v, known, directory, rules)
    requires journal != null ==> journal.Valid()
    modifies (if journal == null then {} else {journal})`resumable, (if journal == null then {} else {journal})`broken
    modifies (if journal == null then {} else {journal})`lossy
    modifies (if journal == null then {} else {journal})`past, (if journal == null then {} else {journal})`surviving
    modifies if journal == null then {} else {journal.file}
    ensures Right(name, o, v, known, directory, rules)
    ensures kept == null || kept == journal
    ensures kept != null ==> kept.Valid() && kept.resumable == RetireAll(old(kept.resumable), RetiredBy(name, o, v))
  {
    o, kept := Counted, journal;
    if name !in v {
      return;
    }
    match v[name]
    case Live => o := Skipped;
    case Orphan(retire, identity) =>
      var gone := Discard(name, identity, rules);
      if gone.None? {
        return;
      }
      o := Reclaimed(gone.value);
      if journal != null && retire.Some? {
        var ok := RetirePath(journal, retire.value);
        if !ok {
          kept := null;
        }
      }
  }

  method RetirePath(journal: Journal, path: Text) returns (ok: bool)
    requires journal.Valid()
    modifies journal`resumable, journal`broken, journal`lossy, journal`past, journal`surviving, journal.file
    ensures ok ==> journal.Valid() && journal.resumable == RetireAll(old(journal.resumable), [path])
  {
    ghost var before := journal.resumable;
    ok := journal.Append(PartDone(path));
    RetireOne(before, path);
  }

  lemma RetireOne(m: Resumable, path: Text)
    ensures RetireAll(m, [path]) == Retire(m, path)
  {
    assert RetireAll(m, []) == m;
  }

  /** Settles every destination-only name of a directory, each exactly once. */
  method Settle(journal: Journal?, extras: seq<Text>, v: map<Text, Verdict>, rules: Rules, ghost known: seq<Event>,
                ghost directory: Text)
    returns (outcomes: seq<Outcome>, kept: Journal?)
    requires AllCreated(v, known, directory, rules)
    requires journal != null ==> journal.Valid()
    modifies (if journal == null then {} else {journal})`resumable, (if journal == null then {} else {journal})`broken
    modifies (if journal == null then {} else {journal})`lossy
    modifies (if journal == null then {} else {journal})`past, (if journal == null then {} else {journal})`surviving
    modifies if journal == null then {} else {journal.file}
    ensures |outcomes| == |extras|
    ensures forall i :: 0 <= i < |extras| ==> Right(extras[i], outcomes[i], v, known, directory, rules)
    ensures kept == null || kept == journal
    ensures kept != null ==> kept.Valid()
    ensures kept != null ==> kept.resumable == RetireAll(old(kept.resumable), Retired(extras, outcomes, v))
  {
    outcomes, kept := [], journal;
    for i := 0 to |extras|
      invariant |outcomes| == i && (kept == null || kept == journal)
      invariant forall j :: 0 <= j < i ==> Right(extras[j], outcomes[j], v, known, directory, rules)
      invariant kept != null ==> kept.Valid()
      invariant kept != null ==> kept.resumable == RetireAll(old(kept.resumable), Retired(extras[..i], outcomes, v))
    {
      var o, now := SettleOne(kept, extras[i], v, rules, known, directory);
      RetireMore(extras[..i], outcomes, v, extras[i], o);
      assert extras[..i + 1] == extras[..i] + [extras[i]];
      if now != null {
        RetireConcat(old(now.resumable), Retired(extras[..i], outcomes, v), RetiredBy(extras[i], o, v));
      }
      outcomes, kept := outcomes + [o], now;
    }
    assert extras[..|extras|] == extras;
  }

  lemma RetireMore(extras: seq<Text>, outcomes: seq<Outcome>, v: map<Text, Verdict>, name: Text, o: Outcome)
    requires |extras| == |outcomes|
    ensures Retired(extras + [name], outcomes + [o], v) == Retired(extras, outcomes, v) + RetiredBy(name, o, v)
  {
    var n := |extras|;
    assert (extras + [name])[..n] == extras && (outcomes + [o])[..n] == outcomes;
  }

  lemma {:induction false} RetireConcat(m: Resumable, a: seq<Text>, b: seq<Text>)
    ensures RetireAll(m, a + b) == RetireAll(RetireAll(m, a), b)
  {
    if b == [] {
      assert a + b == a;
    } else {
      RetireConcat(m, a, b[..|b| - 1]);
      assert (a + b)[..|a + b| - 1] == a + b[..|b| - 1];
    }
  }

  // ---- what settling does to the checkpoints of live temporaries

  lemma {:induction false} RetireAllKeeps(m: Resumable, paths: seq<Text>, k: Key)
    ensures k in RetireAll(m, paths) <==> k in m && k.0 !in paths
    ensures k in RetireAll(m, paths) ==> RetireAll(m, paths)[k] == m[k]
  {
    if paths == [] {
    } else {
      var init, last := paths[..|paths| - 1], paths[|paths| - 1];
      RetireAllKeeps(m, init, k);
      assert paths == init + [last];
    }
  }

  /** All streams checkpointed for a file are in one temporary. */
  ghost predicate OneTemp(m: Resumable) {
    && (forall k :: k in m ==> m[k].path == k.0)
    && forall j, k :: j in m && k in m && j.0 == k.0 ==> m[j].temp == m[k].temp
  }

  /** A retired path is an orphan's: the path of the checkpoint that names it. */
  lemma {:induction false} RetiredIsOrphan(extras: seq<Text>, outcomes: seq<Outcome>, v: map<Text, Verdict>, path: Text)
    requires |extras| == |outcomes|
    ensures path in Retired(extras, outcomes, v)
            <==> exists i :: 0 <= i < |extras| && path in RetiredBy(extras[i], outcomes[i], v)
  {
    if extras == [] {
    } else {
      var n := |extras| - 1;
      RetiredIsOrphan(extras[..n], outcomes[..n], v, path);
      if path in Retired(extras[..n], outcomes[..n], v) {
        var i :| 0 <= i < n && path in RetiredBy(extras[..n][i], outcomes[..n][i], v);
        assert path in RetiredBy(extras[i], outcomes[i], v);
      }
      if exists i :: 0 <= i < |extras| && path in RetiredBy(extras[i], outcomes[i], v) {
        var i :| 0 <= i < |extras| && path in RetiredBy(extras[i], outcomes[i], v);
        assert i < n ==> path in RetiredBy(extras[..n][i], outcomes[..n][i], v);
      }
    }
  }

  /** Some way the settling may go retires the path. */
  ghost predicate MayRetire(extras: seq<Text>, v: map<Text, Verdict>, known: seq<Event>, directory: Text, rules: Rules,
                            path: Text)
  {
    exists outcomes :: Possible(extras, outcomes, v, known, directory, rules) && path in Retired(extras, outcomes, v)
  }

  ghost predicate Possible(extras: seq<Text>, outcomes: seq<Outcome>, v: map<Text, Verdict>, known: seq<Event>,
                           directory: Text, rules: Rules)
  {
    && |outcomes| == |extras|
    && forall i :: 0 <= i < |extras| ==> Right(extras[i], outcomes[i], v, known, directory, rules)
  }

  /** The outcome of a name if exactly the orphan `gone` is deleted. */
  function OutcomeOf(name: Text, v: map<Text, Verdict>, gone: Text): Outcome {
    if name !in v then Counted
    else if v[name].Live? then Skipped
    else if name == gone then Reclaimed(v[name].identity) else Counted
  }

  lemma MayRetireExactly(extras: seq<Text>, v: map<Text, Verdict>, known: seq<Event>, directory: Text, rules: Rules,
                         path: Text)
    requires AllCreated(v, known, directory, rules)
    ensures MayRetire(extras, v, known, directory, rules, path)
            <==> exists n :: n in extras && rules.safe(n) && Retires(v, n, path)
  {
    if MayRetire(extras, v, known, directory, rules, path) {
      var outcomes :| Possible(extras, outcomes, v, known, directory, rules) && path in Retired(extras, outcomes, v);
      RetiredIsOrphan(extras, outcomes, v, path);
      var i :| 0 <= i < |extras| && path in RetiredBy(extras[i], outcomes[i], v);
      assert Right(extras[i], outcomes[i], v, known, directory, rules);
      assert Retires(v, extras[i], path);
    }
    if exists n :: n in extras && rules.safe(n) && Retires(v, n, path) {
      var n :| n in extras && rules.safe(n) && Retires(v, n, path);
      var outcomes := seq(|extras|, i requires 0 <= i < |extras| => OutcomeOf(extras[i], v, n));
      var i :| 0 <= i < |extras| && extras[i] == n;
      assert path in RetiredBy(extras[i], outcomes[i], v);
      RetiredIsOrphan(extras, outcomes, v, path);
      assert Possible(extras, outcomes, v, known, directory, rules);
    }
  }

  /** The name is an orphan whose path is retired with it. */
  predicate Retires(v: map<Text, Verdict>, name: Text, path: Text) {
    name in v && v[name].Orphan? && v[name].retire == Some(path)
  }

  /** The name belongs to a proven temporary of the same file, whose first
      checkpoint is not of the file as it is now, and the file is not large. */
  ghost predicate Rival(name: Text, path: Text, child: Child, m: Resumable, rules: Rules) {
    && rules.shaped(name) && RecordFor(m, name).Some?
    && var c := RecordFor(m, name).value;
       c.path == path && !Unchanged(c, child) && child.size < rules.large && c.tempIdentity.Some?
  }

  lemma RivalRetires(j: Known, v: map<Text, Verdict>, directory: Text, children: seq<Child>, rules: Rules, live: Text,
                     name: Text, child: Child)
    requires Decided(v, name, j, directory, children, rules) && Decided(v, live, j, directory, children, rules)
    requires live in v && v[live].Live?
    requires ChildNamed(children, rules.nameOf(RecordFor(j.resumable, live).value.path)) == Some(child)
    ensures var path := RecordFor(j.resumable, live).value.path;
      Retires(v, name, path) <==> Rival(name, path, child, j.resumable, rules)
  {
    var c := RecordFor(j.resumable, live).value;
    assert Judge(c, directory, children, rules) == Some(Live);
  }

  /** Settling may lose a live temporary's checkpoint if and only if a rival of
      it is among the extras. */
  lemma LiveLostExactly(j: Known, v: map<Text, Verdict>, known: seq<Event>, directory: Text, children: seq<Child>,
                        rules: Rules, extras: seq<Text>, live: Text)
    requires AllCreated(v, known, directory, rules)
    requires forall n :: n in extras || n == live ==> Decided(v, n, j, directory, children, rules)
    requires live in v && v[live].Live?
    ensures RecordFor(j.resumable, live).Some?
    ensures var path := RecordFor(j.resumable, live).value.path;
      && ChildNamed(children, rules.nameOf(path)).Some?
      && var child := ChildNamed(children, rules.nameOf(path)).value;
         MayRetire(extras, v, known, directory, rules, path)
         <==> exists n :: n in extras && rules.safe(n) && Rival(n, path, child, j.resumable, rules)
  {
    assert Decided(v, live, j, directory, children, rules);
    var path := RecordFor(j.resumable, live).value.path;
    var child := ChildNamed(children, rules.nameOf(path)).value;
    MayRetireExactly(extras, v, known, directory, rules, path);
    forall n | n in extras ensures Retires(v, n, path) <==> Rival(n, path, child, j.resumable, rules) {
      RivalRetires(j, v, directory, children, rules, live, n, child);
    }
  }

  /** So it loses none if every file has all its checkpoints in one temporary. */
  lemma OneTempKeepsLive(j: Known, v: map<Text, Verdict>, directory: Text, children: seq<Child>, rules: Rules,
                         extras: seq<Text>, outcomes: seq<Outcome>, live: Text)
    requires OneTemp(j.resumable) && |extras| == |outcomes|
    requires forall n :: n in extras || n == live ==> Decided(v, n, j, directory, children, rules)
    requires live in v && v[live].Live?
    ensures RecordFor(j.resumable, live).Some?
    ensures RecordFor(j.resumable, live).value.path !in Retired(extras, outcomes, v)
  {
    assert Decided(v, live, j, directory, children, rules);
    var path := RecordFor(j.resumable, live).value.path;
    RetiredIsOrphan(extras, outcomes, v, path);
    forall i | 0 <= i < |extras| ensures path !in RetiredBy(extras[i], outcomes[i], v) {
      if extras[i] in v && v[extras[i]].Orphan? && v[extras[i]].retire.Some? {
        RetiresAnother(j, v, directory, children, rules, extras[i], live);
      }
    }
  }

  lemma RetiresAnother(j: Known, v: map<Text, Verdict>, directory: Text, children: seq<Child>, rules: Rules,
                       orphan: Text, live: Text)
    requires OneTemp(j.resumable)
    requires Decided(v, orphan, j, directory, children, rules) && Decided(v, live, j, directory, children, rules)
    requires live in v && v[live].Live?
    requires orphan in v && v[orphan].Orphan? && v[orphan].retire.Some?
    ensures v[orphan].retire.value != RecordFor(j.resumable, live).value.path
  {
    var c, other := RecordFor(j.resumable, live).value, RecordFor(j.resumable, orphan).value;
    SameTemp(j.resumable, c, other);
  }

  lemma SameTemp(m: Resumable, c: Checkpoint, other: Checkpoint)
    requires OneTemp(m) && (exists k :: k in m && m[k] == c) && exists k :: k in m && m[k] == other
    ensures c.path == other.path ==> c.temp == other.temp
  {
    var j :| j in m && m[j] == c;
    var k :| k in m && m[k] == other;
    if j.0 == k.0 {
      assert m[j].temp == m[k].temp;
    }
  }

  /** A rival: the checkpoint of a named stream still names an older temporary.
      Its recorded size is the stream's, not the file's, and the file is not
      large, so that temporary is an orphan. Retiring it retires the path, and
      with it the checkpoint of the newer, live temporary. */
  lemma LiveCheckpointLost(m: Resumable, v: map<Text, Verdict>, child: Child, rules: Rules, main: Checkpoint,
                           stream: Checkpoint, was: Identity)
    requires main.path == stream.path == 7 && main.stream == 0 && stream.stream == 5
    requires main.temp == 1 && stream.temp == 2 && stream.tempIdentity == Some(was)
    requires m == map[(7, 0) := main, (7, 5) := stream]
    requires rules.parentOf(7) == Some(3) && rules.nameOf(7) == Some(child.name)
    requires rules.shaped(1) && rules.shaped(2)
    requires Unchanged(main, child) && stream.size != child.size && child.size < rules.large
    requires v == map[1 := Live, 2 := Verdict.Orphan(Some(7), was)]
    ensures Decided(v, 1, Known(m, []), 3, [child], rules) && Decided(v, 2, Known(m, []), 3, [child], rules)
    ensures Retired([2], [Reclaimed(was)], v) == [7]
    ensures (7, 0) in m && (7, 0) !in RetireAll(m, [7])
  {
    assert m[(7, 0)].temp == 1 && m[(7, 5)].temp == 2;
    assert RecordFor(m, 1) == Some(main) && RecordFor(m, 2) == Some(stream);
    assert ChildNamed([child], rules.nameOf(7)) == Some(child);
    RetireAllKeeps(m, [7], (7, 0));
    assert [2][..0] == [] && [Reclaimed(was)][..0] == [];
    assert Retired([], [], v) == [];
  }
}
