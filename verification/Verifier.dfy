/**
  Verifying one tree against another: the recursive relation the trees should
  be in, and the work list that checks it directory by directory.
*/
module Verifier {
  import opened Bytes
  import opened Classifier

  /** A name's key under the destination's matching rules. */
  type Key = string

  /** A file, directory or link. `data` is a file's content or a link's payload. */
  datatype Object = Object(kind: Kind, basic: Basic, data: seq<Byte>, streams: map<string, seq<Byte>>,
                           eas: seq<Byte>, children: seq<Entry>)

  datatype Entry = Entry(name: string, node: Object)

  function Size(o: Object): (n: nat)
    ensures n >= 1
    decreases o
  {
    1 + SizeAll(o.children)
  }

  function SizeAll(children: seq<Entry>): nat
    decreases children
  {
    if children == [] then 0
    else SizeAll(children[..|children| - 1]) + Size(children[|children| - 1].node)
  }

  lemma SizeAllAppend(children: seq<Entry>, e: Entry)
    ensures SizeAll(children + [e]) == SizeAll(children) + Size(e.node)
  {
    assert (children + [e])[..|children|] == children;
  }

  /** How the two sides are compared: the policy, what each volume can hold, and
      the key of a name. */
  datatype Rules = Rules(policy: Policy, sourceStreams: bool, sourceEas: bool, streams: bool, eas: bool,
                         fold: string -> Key)
  {
    predicate BasicEqual(s: Basic, d: Basic) {
      && policy.CreatedEqual(s.created, d.created)
      && policy.WrittenEqual(s.written, d.written)
      && policy.AttributesEqual(s.attributes, d.attributes)
    }

    /** Streams and attributes, projected to what the destination can hold. */
    predicate AuxEqual(s: Object, d: Object) {
      && (if streams && sourceStreams then s.streams else map[]) == (if streams then d.streams else map[])
      && (if eas && sourceEas then s.eas else []) == (if eas then d.eas else [])
    }

    /** Everything about the pair but their children. */
    predicate PairOk(s: Object, d: Object) {
      && s.kind == d.kind && BasicEqual(s.basic, d.basic) && AuxEqual(s, d)
      && (!s.kind.Directory? ==> s.data == d.data)
    }

    function KeyOf(e: Entry): Key { fold(e.name) }

    /** No two names of a directory have the same key. */
    ghost predicate Distinct(children: seq<Entry>) {
      forall i, j :: 0 <= i < j < |children| ==> KeyOf(children[i]) != KeyOf(children[j])
    }

    ghost predicate HasKey(children: seq<Entry>, k: Key) {
      exists i :: 0 <= i < |children| && KeyOf(children[i]) == k
    }

    /** The same keys on both sides, each once. */
    ghost predicate SameKeys(s: seq<Entry>, d: seq<Entry>) {
      && Distinct(s) && Distinct(d)
      && (forall i :: 0 <= i < |s| ==> HasKey(d, KeyOf(s[i])))
      && (forall j :: 0 <= j < |d| ==> HasKey(s, KeyOf(d[j])))
    }

    /** The trees agree. */
    ghost predicate Matches(s: Object, d: Object)
      decreases s, 1
    {
      PairOk(s, d) && (s.kind.Directory? ==> Below(s, d))
    }

    /** Everything below the two directories agrees. */
    ghost predicate Below(s: Object, d: Object)
      decreases s, 0
    {
      && SameKeys(s.children, d.children)
      && forall i, j :: 0 <= i < |s.children| && 0 <= j < |d.children|
                        && KeyOf(s.children[i]) == KeyOf(d.children[j]) ==>
           Matches(s.children[i].node, d.children[j].node)
    }
  }

  /** A directory pair: what to compare, and what it is worth. */
  type Pair = (Object, Object)

  // ---- one directory on its own

  /** The destination's entries by key; a later entry hides an earlier one. */
  function MapOf(r: Rules, d: seq<Entry>): map<Key, Object> {
    if d == [] then map[] else MapOf(r, d[..|d| - 1])[r.KeyOf(d[|d| - 1]) := d[|d| - 1].node]
  }

  lemma {:induction false} MapOfKeys(r: Rules, d: seq<Entry>, k: Key)
    ensures k in MapOf(r, d) <==> r.HasKey(d, k)
  {
    if d == [] {
    } else {
      var init, last := d[..|d| - 1], d[|d| - 1];
      MapOfKeys(r, init, k);
      if r.KeyOf(last) == k {
        assert r.KeyOf(d[|d| - 1]) == k;
      }
      if r.HasKey(init, k) {
        var i :| 0 <= i < |init| && r.KeyOf(init[i]) == k;
        assert r.KeyOf(d[i]) == k;
      }
    }
  }

  lemma {:induction false} MapOfAt(r: Rules, d: seq<Entry>, j: nat)
    requires r.Distinct(d) && j < |d|
    ensures r.KeyOf(d[j]) in MapOf(r, d) && MapOf(r, d)[r.KeyOf(d[j])] == d[j].node
  {
    if j == |d| - 1 {
    } else {
      MapOfAt(r, d[..|d| - 1], j);
      assert r.KeyOf(d[|d| - 1]) != r.KeyOf(d[j]);
    }
  }

  /** The first n source entries are without fault: new keys, present at the
      destination, and agreeing with what is there. */
  ghost predicate Faultless(r: Rules, s: seq<Entry>, m: map<Key, Object>, n: nat)
    requires n <= |s|
  {
    forall i :: 0 <= i < n ==> FaultlessAt(r, s, m, i)
  }

  ghost predicate FaultlessAt(r: Rules, s: seq<Entry>, m: map<Key, Object>, i: nat)
    requires i < |s|
  {
    var k := r.KeyOf(s[i]);
    !r.HasKey(s[..i], k) && k in m && r.PairOk(s[i].node, m[k])
  }

  /** The directory pairs among the first n entries. */
  function Subdirectories(r: Rules, s: seq<Entry>, m: map<Key, Object>, n: nat): seq<Pair>
    requires n <= |s|
  {
    if n == 0 then []
    else
      var rest, e := Subdirectories(r, s, m, n - 1), s[n - 1];
      if e.node.kind.Directory? && r.KeyOf(e) in m then rest + [(e.node, m[r.KeyOf(e)])] else rest
  }

  function KeysOf(r: Rules, s: seq<Entry>): set<Key> { set i | 0 <= i < |s| :: r.KeyOf(s[i]) }

  /** No fault in this directory pair, leaving its subdirectories aside. */
  ghost predicate LocalOk(r: Rules, s: Object, d: Object) {
    && r.SameKeys(s.children, d.children)
    && forall i, j :: 0 <= i < |s.children| && 0 <= j < |d.children|
                      && r.KeyOf(s.children[i]) == r.KeyOf(d.children[j]) ==>
         r.PairOk(s.children[i].node, d.children[j].node)
  }

  /** The map holds what the entries hold. */
  ghost predicate MapsTo(r: Rules, d: seq<Entry>, m: map<Key, Object>) {
    && (forall k :: k in m ==> r.HasKey(d, k))
    && (forall j :: 0 <= j < |d| ==> r.KeyOf(d[j]) in m && m[r.KeyOf(d[j])] == d[j].node)
  }

  lemma MapOfMaps(r: Rules, d: seq<Entry>)
    requires r.Distinct(d)
    ensures MapsTo(r, d, MapOf(r, d))
  {
    forall k | k in MapOf(r, d) ensures r.HasKey(d, k) {
      MapOfKeys(r, d, k);
    }
    forall j | 0 <= j < |d| ensures r.KeyOf(d[j]) in MapOf(r, d) && MapOf(r, d)[r.KeyOf(d[j])] == d[j].node {
      MapOfAt(r, d, j);
    }
  }

  /** The two directories in the form the work list looks at them. */
  ghost predicate NoFault(r: Rules, s: seq<Entry>, m: map<Key, Object>) {
    Faultless(r, s, m, |s|) && m.Keys <= KeysOf(r, s)
  }

  /** No collision below, all source entries faultless and nothing extra: that is
      exactly a directory pair without fault. */
  lemma LocalExactly(r: Rules, s: Object, d: Object)
    ensures LocalOk(r, s, d) <==> r.Distinct(d.children) && NoFault(r, s.children, MapOf(r, d.children))
  {
    if r.Distinct(d.children) {
      MapOfMaps(r, d.children);
      if LocalOk(r, s, d) {
        LocalIsFaultless(r, s, d, MapOf(r, d.children));
      }
      if NoFault(r, s.children, MapOf(r, d.children)) {
        FaultlessIsLocal(r, s, d, MapOf(r, d.children));
      }
    }
  }

  lemma LocalIsFaultless(r: Rules, s: Object, d: Object, m: map<Key, Object>)
    requires LocalOk(r, s, d) && MapsTo(r, d.children, m)
    ensures NoFault(r, s.children, m)
  {
    DistinctMeansNew(r, s.children);
    forall i | 0 <= i < |s.children| ensures FaultlessAt(r, s.children, m, i) {
      assert r.HasKey(d.children, r.KeyOf(s.children[i]));
      var j :| 0 <= j < |d.children| && r.KeyOf(d.children[j]) == r.KeyOf(s.children[i]);
    }
    forall k | k in m.Keys ensures k in KeysOf(r, s.children) {
      assert r.HasKey(d.children, k);
      var j :| 0 <= j < |d.children| && r.KeyOf(d.children[j]) == k;
      assert r.HasKey(s.children, k);
    }
  }

  lemma FaultlessIsLocal(r: Rules, s: Object, d: Object, m: map<Key, Object>)
    requires r.Distinct(d.children) && NoFault(r, s.children, m) && MapsTo(r, d.children, m)
    ensures LocalOk(r, s, d)
  {
    forall i | 0 <= i < |s.children|
      ensures !r.HasKey(s.children[..i], r.KeyOf(s.children[i])) && r.HasKey(d.children, r.KeyOf(s.children[i]))
    {
      assert FaultlessAt(r, s.children, m, i);
    }
    DistinctMeansNew(r, s.children);
    forall j | 0 <= j < |d.children| ensures r.HasKey(s.children, r.KeyOf(d.children[j])) {
      assert r.KeyOf(d.children[j]) in m.Keys;
    }
    forall i, j | 0 <= i < |s.children| && 0 <= j < |d.children|
                  && r.KeyOf(s.children[i]) == r.KeyOf(d.children[j])
      ensures r.PairOk(s.children[i].node, d.children[j].node)
    {
      assert FaultlessAt(r, s.children, m, i);
    }
  }

  lemma DistinctMeansNew(r: Rules, s: seq<Entry>)
    ensures r.Distinct(s) <==> forall i :: 0 <= i < |s| ==> !r.HasKey(s[..i], r.KeyOf(s[i]))
  {
    if forall i :: 0 <= i < |s| ==> !r.HasKey(s[..i], r.KeyOf(s[i])) {
      forall i, j | 0 <= i < j < |s| ensures r.KeyOf(s[i]) != r.KeyOf(s[j]) {
        assert s[..j][i] == s[i];
      }
    }
    if r.Distinct(s) {
      forall i | 0 <= i < |s| ensures !r.HasKey(s[..i], r.KeyOf(s[i])) {
        forall k | 0 <= k < i ensures r.KeyOf(s[..i][k]) != r.KeyOf(s[i]) {
        }
      }
    }
  }

  /** A directory among the entries, and what the destination has under its key. */
  ghost predicate IsSubdirectory(r: Rules, e: Entry, m: map<Key, Object>, p: Pair) {
    e.node.kind.Directory? && r.KeyOf(e) in m && p == (e.node, m[r.KeyOf(e)])
  }

  lemma {:induction false} SubdirectoryMember(r: Rules, s: seq<Entry>, m: map<Key, Object>, n: nat, p: Pair)
    requires n <= |s|
    ensures p in Subdirectories(r, s, m, n) <==> exists i :: 0 <= i < n && IsSubdirectory(r, s[i], m, p)
  {
    if n == 0 {
    } else {
      SubdirectoryMember(r, s, m, n - 1, p);
      assert IsSubdirectory(r, s[n - 1], m, p)
             <==> s[n - 1].node.kind.Directory? && r.KeyOf(s[n - 1]) in m && p == (s[n - 1].node, m[r.KeyOf(s[n - 1])]);
    }
  }

  /** Below a directory pair without fault everything agrees exactly when it does
      below every subdirectory pair. */
  lemma BelowExactly(r: Rules, s: Object, d: Object)
    ensures r.Below(s, d)
            <==> LocalOk(r, s, d)
                 && AllBelow(r, Subdirectories(r, s.children, MapOf(r, d.children), |s.children|))
  {
    BelowIsLocal(r, s, d);
    if LocalOk(r, s, d) {
      MapOfMaps(r, d.children);
      if r.Below(s, d) {
        BelowReaches(r, s, d, MapOf(r, d.children));
      }
      if AllBelow(r, Subdirectories(r, s.children, MapOf(r, d.children), |s.children|)) {
        ReachedIsBelow(r, s, d, MapOf(r, d.children));
      }
    }
  }

  /** Everything below each of the pairs agrees. */
  ghost predicate AllBelow(r: Rules, pairs: seq<Pair>) {
    forall p :: p in pairs ==> r.Below(p.0, p.1)
  }

  lemma BelowReaches(r: Rules, s: Object, d: Object, m: map<Key, Object>)
    requires r.Below(s, d) && MapsTo(r, d.children, m)
    ensures AllBelow(r, Subdirectories(r, s.children, m, |s.children|))
  {
    forall p | p in Subdirectories(r, s.children, m, |s.children|) ensures r.Below(p.0, p.1) {
      SubdirectoryMember(r, s.children, m, |s.children|, p);
      var i :| 0 <= i < |s.children| && IsSubdirectory(r, s.children[i], m, p);
      var j :| 0 <= j < |d.children| && r.KeyOf(d.children[j]) == r.KeyOf(s.children[i]);
      assert r.Matches(s.children[i].node, d.children[j].node);
    }
  }

  lemma ReachedIsBelow(r: Rules, s: Object, d: Object, m: map<Key, Object>)
    requires LocalOk(r, s, d) && MapsTo(r, d.children, m)
    requires AllBelow(r, Subdirectories(r, s.children, m, |s.children|))
    ensures r.Below(s, d)
  {
    forall i, j | 0 <= i < |s.children| && 0 <= j < |d.children|
                  && r.KeyOf(s.children[i]) == r.KeyOf(d.children[j])
      ensures r.Matches(s.children[i].node, d.children[j].node)
    {
      var p := (s.children[i].node, d.children[j].node);
      if s.children[i].node.kind.Directory? {
        assert IsSubdirectory(r, s.children[i], m, p);
        SubdirectoryMember(r, s.children, m, |s.children|, p);
      }
    }
  }

  lemma BelowIsLocal(r: Rules, s: Object, d: Object)
    ensures r.Below(s, d) ==> LocalOk(r, s, d)
  {
    if r.Below(s, d) {
      forall i, j | 0 <= i < |s.children| && 0 <= j < |d.children|
                    && r.KeyOf(s.children[i]) == r.KeyOf(d.children[j])
        ensures r.PairOk(s.children[i].node, d.children[j].node)
      {
        assert r.Matches(s.children[i].node, d.children[j].node);
      }
    }
  }

  // ---- the work list

  function Weight(pairs: seq<Pair>): nat {
    if pairs == [] then 0 else Weight(pairs[..|pairs| - 1]) + Size(pairs[|pairs| - 1].0)
  }

  lemma WeightAppend(pairs: seq<Pair>, p: Pair)
    ensures Weight(pairs + [p]) == Weight(pairs) + Size(p.0)
  {
    assert (pairs + [p])[..|pairs|] == pairs;
  }

  lemma {:induction false} WeightConcat(a: seq<Pair>, b: seq<Pair>)
    ensures Weight(a + b) == Weight(a) + Weight(b)
  {
    if b == [] {
      assert a + b == a;
    } else {
      WeightConcat(a, b[..|b| - 1]);
      assert (a + b)[..|a + b| - 1] == a + b[..|b| - 1];
    }
  }

  /** The destination's map, and how many of its names collide. */
  method MapDestination(r: Rules, d: seq<Entry>) returns (m: map<Key, Object>, failed: nat)
    ensures m == MapOf(r, d) && (failed == 0 <==> r.Distinct(d))
  {
    m, failed := map[], 0;
    for j := 0 to |d|
      invariant m == MapOf(r, d[..j]) && (failed == 0 <==> r.Distinct(d[..j]))
    {
      assert d[..j + 1][..j] == d[..j];
      MapOfKeys(r, d[..j], r.KeyOf(d[j]));
      OneMoreDistinct(r, d[..j], d[j]);
      assert d[..j + 1] == d[..j] + [d[j]];
      if r.KeyOf(d[j]) in m {
        failed := failed + 1;
      }
      m := m[r.KeyOf(d[j]) := d[j].node];
    }
    assert d[..|d|] == d;
  }

  lemma OneMoreDistinct(r: Rules, d: seq<Entry>, e: Entry)
    ensures r.Distinct(d + [e]) <==> r.Distinct(d) && !r.HasKey(d, r.KeyOf(e))
  {
    var all := d + [e];
    if r.Distinct(all) {
      forall i | 0 <= i < |d| ensures r.KeyOf(d[i]) != r.KeyOf(e) {
        assert all[i] == d[i] && all[|d|] == e;
      }
      forall i, j | 0 <= i < j < |d| ensures r.KeyOf(d[i]) != r.KeyOf(d[j]) {
        assert all[i] == d[i] && all[j] == d[j];
      }
    }
  }

  /** What a directory's loop has after its first n entries. */
  datatype Progress = Progress(seen: set<Key>, rest: map<Key, Object>, faults: nat, errors: nat, below: seq<Pair>)
  {
    ghost predicate After(r: Rules, s: seq<Entry>, m: map<Key, Object>, n: nat)
      requires n <= |s|
    {
      && seen == KeysOf(r, s[..n]) && Left(m, rest, seen)
      && (errors == 0 ==> (faults == 0 <==> Faultless(r, s, m, n)))
      && (faults == 0 ==> errors == 0 && below == Subdirectories(r, s, m, n))
      && Weight(below) <= SizeAll(s[..n])
    }
  }

  /** What is left of the destination's map is what no source entry has named. */
  ghost predicate Left(m: map<Key, Object>, rest: map<Key, Object>, seen: set<Key>) {
    rest.Keys == m.Keys - seen && forall k :: k in rest ==> rest[k] == m[k]
  }

  /** What comparing one entry says, when reading one of the two failed or did not. */
  ghost predicate Compared(r: Rules, e: Entry, p: Progress, q: Progress, fault: bool, error: bool, next: seq<Pair>) {
    var k := r.KeyOf(e);
    && (fault <==> error || k in p.seen || k !in p.rest || !r.PairOk(e.node, p.rest[k]))
    && (!fault ==> next == if e.node.kind.Directory? then [(e.node, p.rest[k])] else [])
    && Weight(next) <= Size(e.node)
    && q.seen == p.seen + {k} && q.below == p.below + next
    && q.rest == (if k in p.seen then p.rest else p.rest - {k})
    && q.faults == (if fault then p.faults + 1 else p.faults)
    && q.errors == (if error then p.errors + 1 else p.errors)
  }

  lemma OneMoreEntry(r: Rules, s: seq<Entry>, m: map<Key, Object>, i: nat, p: Progress, q: Progress, fault: bool,
                     error: bool, next: seq<Pair>)
    requires i < |s| && p.After(r, s, m, i) && Compared(r, s[i], p, q, fault, error, next)
    ensures q.After(r, s, m, i + 1)
  {
    SeenMeans(r, s, i);
    LeftKeeps(m, p.rest, p.seen, r.KeyOf(s[i]));
    FaultMeans(r, s, m, i, p, fault, error);
    StaysLight(s, i, p.below, next);
    assert Faultless(r, s, m, i + 1) <==> Faultless(r, s, m, i) && FaultlessAt(r, s, m, i);
    if q.faults == 0 {
      NextBelow(r, s, m, i, p, next);
    }
  }

  lemma StaysLight(s: seq<Entry>, i: nat, below: seq<Pair>, next: seq<Pair>)
    requires i < |s| && Weight(below) <= SizeAll(s[..i]) && Weight(next) <= Size(s[i].node)
    ensures Weight(below + next) <= SizeAll(s[..i + 1])
  {
    SizeAllAppend(s[..i], s[i]);
    assert s[..i + 1] == s[..i] + [s[i]];
    WeightConcat(below, next);
  }

  lemma NextBelow(r: Rules, s: seq<Entry>, m: map<Key, Object>, i: nat, p: Progress, next: seq<Pair>)
    requires i < |s| && r.KeyOf(s[i]) in p.rest && Left(m, p.rest, p.seen)
    requires p.below == Subdirectories(r, s, m, i)
    requires next == if s[i].node.kind.Directory? then [(s[i].node, p.rest[r.KeyOf(s[i])])] else []
    ensures p.below + next == Subdirectories(r, s, m, i + 1)
  {
  }

  lemma LeftKeeps(m: map<Key, Object>, rest: map<Key, Object>, seen: set<Key>, k: Key)
    requires Left(m, rest, seen)
    ensures Left(m, if k in seen then rest else rest - {k}, seen + {k})
  {
  }

  lemma FaultMeans(r: Rules, s: seq<Entry>, m: map<Key, Object>, i: nat, p: Progress, fault: bool, error: bool)
    requires i < |s| && p.seen == KeysOf(r, s[..i]) && Left(m, p.rest, p.seen)
    requires fault
             <==> error || r.KeyOf(s[i]) in p.seen || r.KeyOf(s[i]) !in p.rest
                  || !r.PairOk(s[i].node, p.rest[r.KeyOf(s[i])])
    ensures fault <==> error || !FaultlessAt(r, s, m, i)
  {
    SeenMeans(r, s, i);
  }

  lemma SeenMeans(r: Rules, s: seq<Entry>, i: nat)
    requires i < |s|
    ensures r.KeyOf(s[i]) in KeysOf(r, s[..i]) <==> r.HasKey(s[..i], r.KeyOf(s[i]))
    ensures KeysOf(r, s[..i + 1]) == KeysOf(r, s[..i]) + {r.KeyOf(s[i])}
  {
    assert s[..i + 1] == s[..i] + [s[i]];
    forall k | k in KeysOf(r, s[..i]) ensures k in KeysOf(r, s[..i + 1]) {
      var j :| 0 <= j < i && r.KeyOf(s[..i][j]) == k;
      assert s[..i + 1][j] == s[..i][j];
    }
    assert s[..i + 1][i] == s[i];
  }

  /** One source entry against the destination's map: a fault or not, and a pair
      to go on with if both are directories. An object that cannot be read is a
      fault, and what is below it is looked at all the same. */
  method CompareEntry(r: Rules, e: Entry, p: Progress)
    returns (fault: bool, error: bool, next: seq<Pair>, q: Progress)
    ensures Compared(r, e, p, q, fault, error, next)
  {
    var k := r.KeyOf(e);
    fault, error, next := true, false, [];
    if k in p.seen {
      assert p.seen + {k} == p.seen;
      q := p.(faults := p.faults + 1);
      return;
    }
    if k !in p.rest {
      assert p.rest - {k} == p.rest;
      q := p.(seen := p.seen + {k}, faults := p.faults + 1);
      return;
    }
    var d := p.rest[k];
    q := p.(seen := p.seen + {k}, rest := p.rest - {k});
    if e.node.kind != d.kind {
      q := q.(faults := q.faults + 1);
      return;
    }
    if e.node.kind.Directory? {
      next := [(e.node, d)];
      WeightAppend([], (e.node, d));
      assert [] + next == next;
    }
    error := *;
    fault := error || !r.PairOk(e.node, d);
    q := q.(faults := if fault then q.faults + 1 else q.faults,
            errors := if error then q.errors + 1 else q.errors,
            below := q.below + next);
  }

  /** Checks one directory pair and returns the pairs below it. A directory that
      cannot be listed is one failure and ends the look at that subtree. */
  method CheckDirectory(r: Rules, s: Object, d: Object) returns (failed: nat, errors: nat, below: seq<Pair>)
    ensures errors == 0 ==> (failed == 0 <==> LocalOk(r, s, d))
    ensures failed == 0
            ==> errors == 0 && below == Subdirectories(r, s.children, MapOf(r, d.children), |s.children|)
    ensures Weight(below) < Size(s)
  {
    var listed: bool := *;
    if !listed {
      return 1, 1, [];
    }
    var m, collisions := MapDestination(r, d.children);
    var p := Progress({}, m, 0, 0, []);
    for i := 0 to |s.children|
      invariant p.After(r, s.children, m, i)
    {
      var fault, error, next, q := CompareEntry(r, s.children[i], p);
      OneMoreEntry(r, s.children, m, i, p, q, fault, error, next);
      p := q;
    }
    assert s.children[..|s.children|] == s.children;
    failed, errors, below := collisions + p.faults + |p.rest.Keys|, p.errors, p.below;
    NothingLeft(r, s.children, m, p);
    LocalExactly(r, s, d);
  }

  lemma NothingLeft(r: Rules, s: seq<Entry>, m: map<Key, Object>, p: Progress)
    requires p.After(r, s, m, |s|)
    ensures p.errors == 0 ==> (p.faults + |p.rest.Keys| == 0 <==> NoFault(r, s, m))
  {
    assert s[..|s|] == s;
    assert |p.rest.Keys| == 0 <==> p.rest.Keys == {};
    assert p.rest.Keys == {} <==> m.Keys <= KeysOf(r, s);
  }

  /** Verifies two trees with a work list. It never passes two trees that differ,
      and without read errors it passes exactly the trees that agree. */
  method VerifyTrees(r: Rules, source: Object, destination: Object) returns (failed: nat, errors: nat)
    requires source.kind.Directory? && destination.kind.Directory?
    ensures failed == 0 ==> r.Matches(source, destination)
    ensures errors == 0 ==> (failed == 0 <==> r.Matches(source, destination))
  {
    failed := if r.BasicEqual(source.basic, destination.basic) && r.AuxEqual(source, destination) then 0 else 1;
    errors := 0;
    ghost var rootOk := failed == 0;
    var tasks: seq<Pair> := [(source, destination)];
    while tasks != []
      invariant errors == 0 ==> (rootOk && r.Below(source, destination) <==> failed == 0 && AllBelow(r, tasks))
      invariant failed == 0 ==> errors == 0
      decreases Weight(tasks)
    {
      var (s, d) := tasks[|tasks| - 1];
      var rest := tasks[..|tasks| - 1];
      assert tasks == rest + [(s, d)];
      var more, unread, below := CheckDirectory(r, s, d);
      BelowExactly(r, s, d);
      WeightAppend(rest, (s, d));
      WeightConcat(rest, below);
      AllBelowConcat(r, rest, [(s, d)]);
      AllBelowConcat(r, rest, below);
      assert AllBelow(r, [(s, d)]) <==> r.Below(s, d);
      failed, errors, tasks := failed + more, errors + unread, rest + below;
    }
  }

  lemma AllBelowConcat(r: Rules, a: seq<Pair>, b: seq<Pair>)
    ensures AllBelow(r, a + b) <==> AllBelow(r, a) && AllBelow(r, b)
  {
    if AllBelow(r, a + b) {
      forall p | p in a ensures r.Below(p.0, p.1) {
        assert p in a + b;
      }
      forall p | p in b ensures r.Below(p.0, p.1) {
        assert p in a + b;
      }
    }
  }
}
