/**
  The directory walk's work list: trees, paths, and a deque of Enter and Exit
  tasks. `Placed` says that the tasks and the directories already finalized
  never overlap, whatever order the exits come in.
*/
module Walk {
  import opened Accounting

  /** A source object; sizes are the enumerated ones. */
  datatype Node =
    | FileNode(name: string, size: nat)
    | LinkNode(name: string)
    | DirNode(name: string, children: seq<Node>)

  function Size(n: Node): (r: nat)
    ensures r >= 1
    decreases n
  {
    if n.DirNode? then 1 + SizeAll(n.children) else 1
  }

  function SizeAll(nodes: seq<Node>): nat
    decreases nodes
  {
    if nodes == [] then 0 else SizeAll(nodes[..|nodes| - 1]) + Size(nodes[|nodes| - 1])
  }

  lemma SizeAllAppend(nodes: seq<Node>, n: Node)
    ensures SizeAll(nodes + [n]) == SizeAll(nodes) + Size(n)
  {
    assert (nodes + [n])[..|nodes|] == nodes;
  }

  datatype Task =
    | Enter(path: Path, node: Node, present: bool)
    | Exit(path: Path, present: bool)

  ghost predicate IsPrefix(p: Path, q: Path) { |p| <= |q| && p == q[..|p|] }

  /** The task will still touch this directory. */
  ghost predicate Covers(t: Task, d: Path) { if t.Enter? then IsPrefix(t.path, d) else t.path == d }

  ghost predicate Apart(s: Task, t: Task) { !Covers(s, t.path) && !Covers(t, s.path) }

  ghost predicate Clear(t: Task, done: set<Path>) { forall d :: d in done ==> !Covers(t, d) }

  /** No two tasks share a directory, and none touches a finalized one. */
  ghost predicate Placed(tasks: seq<Task>, done: set<Path>) {
    && (forall i, j :: 0 <= i < j < |tasks| ==> Apart(tasks[i], tasks[j]))
    && (forall i :: 0 <= i < |tasks| ==> Clear(tasks[i], done))
  }

  /** The task has no directory in common with any of the others. */
  ghost predicate Fits(t: Task, tasks: seq<Task>, done: set<Path>) {
    && (forall i :: 0 <= i < |tasks| ==> Apart(tasks[i], t))
    && Clear(t, done)
  }

  lemma PlacedPop(tasks: seq<Task>, t: Task, done: set<Path>)
    requires Placed(tasks + [t], done)
    ensures Placed(tasks, done) && Fits(t, tasks, done)
  {
    assert forall i :: 0 <= i < |tasks| ==> (tasks + [t])[i] == tasks[i];
    assert (tasks + [t])[|tasks|] == t;
  }

  lemma PlacedPush(tasks: seq<Task>, t: Task, done: set<Path>)
    requires Placed(tasks, done) && Fits(t, tasks, done)
    ensures Placed(tasks + [t], done)
  {
  }

  lemma PlacedPushFront(tasks: seq<Task>, t: Task, done: set<Path>)
    requires Placed(tasks, done) && Fits(t, tasks, done)
    ensures Placed([t] + tasks, done)
  {
  }

  /** Finalizing a popped directory keeps the rest in place. */
  lemma PlacedFinalize(tasks: seq<Task>, t: Task, done: set<Path>)
    requires Placed(tasks, done) && Fits(t, tasks, done)
    ensures Placed(tasks, done + {t.path})
  {
  }

  /** An entered directory leaves room for its own exit and for its children. */
  lemma EnterMakesRoom(tasks: seq<Task>, enter: Task, present: bool, done: set<Path>)
    requires enter.Enter? && Placed(tasks, done) && Fits(enter, tasks, done)
    ensures Fits(Exit(enter.path, present), tasks, done)
    ensures Placed(tasks + [Exit(enter.path, present)], done)
  {
    var p := enter.path;
    assert IsPrefix(p, p);
  }

  lemma ChildFits(tasks: seq<Task>, parent: Task, exit: Task, child: Task, done: set<Path>)
    requires parent.Enter? && exit.Exit? && exit.path == parent.path && child.Enter?
    requires |child.path| == |parent.path| + 1 && IsPrefix(parent.path, child.path)
    requires Fits(parent, tasks, done)
    ensures Fits(child, tasks + [exit], done)
  {
    forall d | IsPrefix(child.path, d) ensures IsPrefix(parent.path, d) {
      PrefixTransitive(parent.path, child.path, d);
    }
    forall i | 0 <= i < |tasks| ensures Apart(tasks[i], child) {
      ChildCovered(tasks[i], parent, child);
    }
  }

  lemma ChildCovered(t: Task, parent: Task, child: Task)
    requires parent.Enter? && IsPrefix(parent.path, child.path)
    ensures Covers(t, child.path) ==> Covers(t, parent.path) || Covers(parent, t.path)
  {
    if t.Enter? && IsPrefix(t.path, child.path) {
      PrefixesNest(t.path, parent.path, child.path);
    }
  }

  lemma PrefixTransitive(p: Path, q: Path, d: Path)
    requires IsPrefix(p, q) && IsPrefix(q, d)
    ensures IsPrefix(p, d)
  {
    assert d[..|q|][..|p|] == d[..|p|];
  }

  lemma PrefixesNest(a: Path, b: Path, c: Path)
    requires IsPrefix(a, c) && IsPrefix(b, c)
    ensures IsPrefix(a, b) || IsPrefix(b, a)
  {
    if |a| <= |b| {
      assert b[..|a|] == c[..|a|];
    } else {
      assert a[..|b|] == c[..|b|];
    }
  }

  lemma SiblingsApart(p: Path, x: string, y: string, s: Task, t: Task)
    requires s.Enter? && t.Enter? && s.path == p + [x] && t.path == p + [y] && x != y
    ensures Apart(s, t)
  {
    assert s.path[|p|] == x && t.path[|p|] == y;
  }

  // ---- measures

  /** Unvisited nodes: those below the directories still to be entered. */
  ghost function Pending(tasks: seq<Task>): nat {
    if tasks == [] then 0
    else
      var last := tasks[|tasks| - 1];
      if last.Enter? then Pending(tasks[..|tasks| - 1]) + Size(last.node) else Pending(tasks[..|tasks| - 1])
  }

  /** Directories entered and not yet finalized. */
  ghost function Exits(tasks: seq<Task>): nat {
    if tasks == [] then 0
    else if tasks[|tasks| - 1].Exit? then Exits(tasks[..|tasks| - 1]) + 1
    else Exits(tasks[..|tasks| - 1])
  }

  ghost function ExitPaths(tasks: seq<Task>): set<Path> {
    set i | 0 <= i < |tasks| && tasks[i].Exit? :: tasks[i].path
  }

  lemma TasksAppend(tasks: seq<Task>, t: Task)
    ensures Pending(tasks + [t]) == if t.Enter? then Pending(tasks) + Size(t.node) else Pending(tasks)
    ensures Exits(tasks + [t]) == if t.Exit? then Exits(tasks) + 1 else Exits(tasks)
    ensures ExitPaths(tasks + [t]) == ExitPaths(tasks) + if t.Exit? then {t.path} else {}
  {
    assert (tasks + [t])[..|tasks|] == tasks;
  }

  /** Moving a task to the front changes no count. */
  lemma {:induction false} TasksRotate(tasks: seq<Task>, t: Task)
    ensures Pending([t] + tasks) == Pending(tasks + [t])
    ensures Exits([t] + tasks) == Exits(tasks + [t])
  {
    TasksAppend(tasks, t);
    if tasks == [] {
      assert [t] + tasks == tasks + [t];
    } else {
      var rest, last := tasks[..|tasks| - 1], tasks[|tasks| - 1];
      TasksRotate(rest, t);
      assert [t] + tasks == ([t] + rest) + [last];
      TasksAppend([t] + rest, last);
      TasksAppend(rest, t);
      assert tasks == rest + [last];
      TasksAppend(rest, last);
    }
  }

  lemma ExitPathsRotate(tasks: seq<Task>, t: Task)
    ensures ExitPaths([t] + tasks) == ExitPaths(tasks + [t])
  {
    TasksAppend(tasks, t);
    var all := [t] + tasks;
    forall d | d in ExitPaths(tasks) ensures d in ExitPaths(all) {
      var i :| 0 <= i < |tasks| && tasks[i].Exit? && tasks[i].path == d;
      assert all[i + 1] == tasks[i];
    }
    assert all[0] == t;
  }
}
