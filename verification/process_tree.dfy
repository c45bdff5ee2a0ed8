/** The cpu ticks of a process tree (backend/bench/resources.py): over any table of processes, whether or not its
    parents go round in circles. */
module ProcessTree {
  import opened Wrappers

  datatype Pid = Pid(number: int)

  datatype Process = Process(parent: Pid, ticks: int)

  type ProcessTable = map<Pid, Process>

  // ---- what is counted ----

  /** From a root down to the last process, each the child of the one before. */
  predicate IsDescent(table: ProcessTable, roots: seq<Pid>, path: seq<Pid>) {
    && path != [] && path[|path| - 1] in table
    && if |path| == 1 then path[0] in roots
       else table[path[|path| - 1]].parent == path[|path| - 2] && IsDescent(table, roots, path[..|path| - 1])
  }

  /** A root, or a root's child, or its child's child, and so on. */
  ghost predicate Descends(table: ProcessTable, roots: seq<Pid>, pid: Pid) {
    exists path :: IsDescent(table, roots, path) && path[|path| - 1] == pid
  }

  ghost function Tree(table: ProcessTable, roots: seq<Pid>): set<Pid> {
    set pid | pid in table && Descends(table, roots, pid)
  }

  ghost function TicksOf(table: ProcessTable, pids: set<Pid>): int
    requires pids <= table.Keys
  {
    if pids == {} then 0
    else
      var pid :| pid in pids;
      table[pid].ticks + TicksOf(table, pids - {pid})
  }

  /** Whichever process is counted first. */
  lemma {:induction false} TicksWith(table: ProcessTable, pids: set<Pid>, pid: Pid)
    requires pids <= table.Keys && pid in pids
    ensures TicksOf(table, pids) == table[pid].ticks + TicksOf(table, pids - {pid})
    decreases |pids|
  {
    var other :| other in pids && TicksOf(table, pids) == table[other].ticks + TicksOf(table, pids - {other});
    if other != pid {
      TicksWith(table, pids - {other}, pid);
      TicksWith(table, pids - {pid}, other);
      assert pids - {other} - {pid} == pids - {pid} - {other};
    }
  }

  // ---- tree_ticks ----

  /** children, by parent; a parent without any has no entry, as in a defaultdict not asked yet. */
  predicate GroupsChildren(children: map<Pid, seq<Pid>>, table: ProcessTable, pids: set<Pid>) {
    && (forall parent, i :: parent in children && 0 <= i < |children[parent]| ==>
          children[parent][i] in table && table[children[parent][i]].parent == parent)
    && (forall pid :: pid in pids && pid in table ==> IsChild(children, table[pid].parent, pid))
  }

  predicate IsChild(children: map<Pid, seq<Pid>>, parent: Pid, pid: Pid) { parent in children && pid in children[parent] }

  method Children(table: ProcessTable) returns (children: map<Pid, seq<Pid>>)
    ensures GroupsChildren(children, table, table.Keys)
  {
    children := map[];
    var rest := table.Keys;
    while rest != {}
      invariant rest <= table.Keys
      invariant GroupsChildren(children, table, table.Keys - rest)
      decreases |rest|
    {
      var pid :| pid in rest;
      var parent := table[pid].parent;
      ghost var before := children;
      children := children[parent := (if parent in children then children[parent] else []) + [pid]];
      rest := rest - {pid};
      forall p | p in table.Keys - rest
        ensures IsChild(children, table[p].parent, p)
      {
        if p == pid { assert children[parent][|children[parent]| - 1] == pid; }
        else { assert IsChild(before, table[p].parent, p); }
      }
    }
  }

  method SumTicks(table: ProcessTable, pids: set<Pid>) returns (ticks: int)
    requires pids <= table.Keys
    ensures ticks == TicksOf(table, pids)
  {
    ticks := 0;
    var rest := pids;
    while rest != {}
      invariant rest <= pids && ticks + TicksOf(table, rest) == TicksOf(table, pids)
      decreases |rest|
    {
      var pid :| pid in rest;
      TicksWith(table, rest, pid);
      ticks := ticks + table[pid].ticks;
      rest := rest - {pid};
    }
  }

  predicate Missing(table: ProcessTable, roots: seq<Pid>) { exists i :: 0 <= i < |roots| && roots[i] !in table }

  lemma ChildDescends(table: ProcessTable, roots: seq<Pid>, parent: Pid, pid: Pid)
    requires Descends(table, roots, parent) && pid in table && table[pid].parent == parent
    ensures Descends(table, roots, pid)
  {
    var path :| IsDescent(table, roots, path) && path[|path| - 1] == parent;
    assert (path + [pid])[..|path|] == path;
    assert IsDescent(table, roots, path + [pid]) && (path + [pid])[|path|] == pid;
  }

  lemma RootDescends(table: ProcessTable, roots: seq<Pid>, root: Pid)
    requires root in roots && root in table
    ensures Descends(table, roots, root)
  {
    assert IsDescent(table, roots, [root]) && [root][|[root]| - 1] == root;
  }

  /** Whatever holds of the roots, and of the children of whatever it holds of, holds of all that descends. */
  lemma {:induction false} ClosedIsAll(table: ProcessTable, roots: seq<Pid>, seen: set<Pid>, path: seq<Pid>)
    requires forall root :: root in roots ==> root in seen
    requires forall pid :: pid in table && table[pid].parent in seen ==> pid in seen
    requires IsDescent(table, roots, path)
    ensures path[|path| - 1] in seen
  {
    if |path| > 1 {
      var init := path[..|path| - 1];
      assert IsDescent(table, roots, init);
      ClosedIsAll(table, roots, seen, init);
      assert table[path[|path| - 1]].parent == init[|init| - 1];
    }
  }

  /** Everything yet to look at descends from a root. */
  ghost predicate AllDescend(table: ProcessTable, roots: seq<Pid>, pending: seq<Pid>) {
    forall i :: 0 <= i < |pending| ==> pending[i] in table && Descends(table, roots, pending[i])
  }

  predicate Noticed(pid: Pid, seen: set<Pid>, pending: seq<Pid>) { pid in seen || pid in pending }

  ghost predicate ChildrenNoticed(table: ProcessTable, seen: set<Pid>, pending: seq<Pid>) {
    forall pid :: pid in table && table[pid].parent in seen ==> Noticed(pid, seen, pending)
  }

  lemma NothingPending(table: ProcessTable, roots: seq<Pid>, seen: set<Pid>)
    requires seen <= Tree(table, roots) && ChildrenNoticed(table, seen, [])
    requires forall root :: root in roots ==> Noticed(root, seen, [])
    ensures seen == Tree(table, roots)
  {
    forall pid | pid in Tree(table, roots)
      ensures pid in seen
    {
      var path :| IsDescent(table, roots, path) && path[|path| - 1] == pid;
      forall root | root in roots
        ensures root in seen
      {
        assert Noticed(root, seen, []);
      }
      forall child | child in table && table[child].parent in seen
        ensures child in seen
      {
        assert Noticed(child, seen, []);
      }
      ClosedIsAll(table, roots, seen, path);
    }
  }

  /** What the worklist keeps. */
  ghost predicate Working(table: ProcessTable, roots: seq<Pid>, seen: set<Pid>, pending: seq<Pid>) {
    && seen <= Tree(table, roots) && AllDescend(table, roots, pending) && ChildrenNoticed(table, seen, pending)
    && forall root :: root in roots ==> Noticed(root, seen, pending)
  }

  lemma SeenAgain(table: ProcessTable, roots: seq<Pid>, seen: set<Pid>, pending: seq<Pid>)
    requires Working(table, roots, seen, pending) && pending != [] && pending[|pending| - 1] in seen
    ensures Working(table, roots, seen, pending[..|pending| - 1])
  {
    var last, rest := pending[|pending| - 1], pending[..|pending| - 1];
    assert pending == rest + [last];
    forall pid | Noticed(pid, seen, pending)
      ensures Noticed(pid, seen, rest)
    {}
  }

  /** What the worklist gets when a process is first seen; a defaultdict answers [] for one without children. */
  function ChildrenOf(children: map<Pid, seq<Pid>>, pid: Pid): seq<Pid> {
    if pid in children then children[pid] else []
  }

  lemma StillNoticed(pid: Pid, seen: set<Pid>, rest: seq<Pid>, last: Pid, added: seq<Pid>)
    requires Noticed(pid, seen, rest + [last])
    ensures Noticed(pid, seen + {last}, rest + added)
  {}

  lemma ChildrenDescend(table: ProcessTable, roots: seq<Pid>, rest: seq<Pid>, last: Pid, children: map<Pid, seq<Pid>>)
    requires AllDescend(table, roots, rest) && Descends(table, roots, last) && GroupsChildren(children, table, table.Keys)
    ensures AllDescend(table, roots, rest + ChildrenOf(children, last))
  {
    var pending := rest + ChildrenOf(children, last);
    forall i | |rest| <= i < |pending|
      ensures pending[i] in table && Descends(table, roots, pending[i])
    {
      assert pending[i] == children[last][i - |rest|];
      ChildDescends(table, roots, last, pending[i]);
    }
  }

  lemma ChildrenNoticedToo(table: ProcessTable, seen: set<Pid>, rest: seq<Pid>, last: Pid, children: map<Pid, seq<Pid>>)
    requires ChildrenNoticed(table, seen, rest + [last]) && GroupsChildren(children, table, table.Keys)
    ensures ChildrenNoticed(table, seen + {last}, rest + ChildrenOf(children, last))
  {
    var added := ChildrenOf(children, last);
    forall pid | pid in table && table[pid].parent in seen + {last}
      ensures Noticed(pid, seen + {last}, rest + added)
    {
      if table[pid].parent in seen {
        StillNoticed(pid, seen, rest, last, added);
      } else {
        assert IsChild(children, last, pid);
      }
    }
  }

  lemma SeenFirst(table: ProcessTable, roots: seq<Pid>, seen: set<Pid>, rest: seq<Pid>, last: Pid, children: map<Pid, seq<Pid>>)
    requires Working(table, roots, seen, rest + [last]) && GroupsChildren(children, table, table.Keys)
    ensures Working(table, roots, seen + {last}, rest + ChildrenOf(children, last))
  {
    assert (rest + [last])[|rest|] == last;
    assert forall i :: 0 <= i < |rest| ==> (rest + [last])[i] == rest[i];
    ChildrenDescend(table, roots, rest, last, children);
    ChildrenNoticedToo(table, seen, rest, last, children);
    forall root | root in roots
      ensures Noticed(root, seen + {last}, rest + ChildrenOf(children, last))
    {
      StillNoticed(root, seen, rest, last, ChildrenOf(children, last));
    }
  }

  lemma FewerUnseen(all: set<Pid>, seen: set<Pid>, pid: Pid)
    requires pid in all && pid !in seen
    ensures |all - (seen + {pid})| < |all - seen|
  {
    assert all - (seen + {pid}) == all - seen - {pid};
  }

  lemma NothingSeen(table: ProcessTable, roots: seq<Pid>)
    requires !Missing(table, roots)
    ensures Working(table, roots, {}, roots)
  {
    forall i | 0 <= i < |roots|
      ensures roots[i] in table && Descends(table, roots, roots[i])
    {
      RootDescends(table, roots, roots[i]);
    }
  }

  /** What one turn of the worklist sees, and what it leaves. */
  function Turn(children: map<Pid, seq<Pid>>, seen: set<Pid>, pending: seq<Pid>): (set<Pid>, seq<Pid>)
    requires pending != []
  {
    var pid, rest := pending[|pending| - 1], pending[..|pending| - 1];
    if pid in seen then (seen, rest) else (seen + {pid}, rest + ChildrenOf(children, pid))
  }

  /** One turn keeps the worklist in order, and either sees one more process or leaves one fewer pending. */
  lemma OneTurn(table: ProcessTable, roots: seq<Pid>, children: map<Pid, seq<Pid>>, seen: set<Pid>, pending: seq<Pid>)
    requires pending != [] && Working(table, roots, seen, pending) && GroupsChildren(children, table, table.Keys)
    ensures
      var (seen', pending') := Turn(children, seen, pending);
      && Working(table, roots, seen', pending')
      && (|table.Keys - seen'| < |table.Keys - seen| || (seen' == seen && |pending'| < |pending|))
  {
    var pid, rest := pending[|pending| - 1], pending[..|pending| - 1];
    assert pending == rest + [pid];
    if pid in seen {
      SeenAgain(table, roots, seen, pending);
    } else {
      SeenFirst(table, roots, seen, rest, pid, children);
      FewerUnseen(table.Keys, seen, pid);
    }
  }

  /** The worklist of tree_ticks. */
  method Walk(table: ProcessTable, roots: seq<Pid>) returns (seen: set<Pid>)
    requires !Missing(table, roots)
    ensures seen == Tree(table, roots)
  {
    var children := Children(table);
    NothingSeen(table, roots);
    var pending: seq<Pid>;
    seen, pending := {}, roots;
    while pending != []
      invariant Working(table, roots, seen, pending)
      decreases |table.Keys - seen|, |pending|
    {
      OneTurn(table, roots, children, seen, pending);
      var pid := pending[|pending| - 1];
      pending := pending[..|pending| - 1];
      if pid !in seen {
        seen := seen + {pid};
        pending := pending + ChildrenOf(children, pid);
      }
    }
    NothingPending(table, roots, seen);
  }

  lemma {:induction false} DescentOfEither(table: ProcessTable, a: seq<Pid>, b: seq<Pid>, path: seq<Pid>)
    ensures IsDescent(table, a + b, path) <==> IsDescent(table, a, path) || IsDescent(table, b, path)
    decreases |path|
  {
    if |path| > 1 { DescentOfEither(table, a, b, path[..|path| - 1]); }
  }

  /** Roots in one another's trees change nothing: more roots mean the union of the trees. */
  lemma TreesJoin(table: ProcessTable, a: seq<Pid>, b: seq<Pid>)
    ensures Tree(table, a + b) == Tree(table, a) + Tree(table, b)
  {
    forall pid
      ensures Descends(table, a + b, pid) <==> Descends(table, a, pid) || Descends(table, b, pid)
    {
      if Descends(table, a + b, pid) {
        var path :| IsDescent(table, a + b, path) && path[|path| - 1] == pid;
        DescentOfEither(table, a, b, path);
      }
      if Descends(table, a, pid) {
        var path :| IsDescent(table, a, path) && path[|path| - 1] == pid;
        DescentOfEither(table, a, b, path);
      }
      if Descends(table, b, pid) {
        var path :| IsDescent(table, b, path) && path[|path| - 1] == pid;
        DescentOfEither(table, a, b, path);
      }
    }
  }

  /** tree_ticks: the ticks of every process in the roots' trees, each once; None without roots or with one not running. */
  method TreeTicks(table: ProcessTable, roots: seq<Pid>) returns (ticks: Option<int>)
    ensures ticks == if roots == [] || Missing(table, roots) then None else Some(TicksOf(table, Tree(table, roots)))
  {
    if roots == [] || Missing(table, roots) { return None; }
    var seen := Walk(table, roots);
    var sum := SumTicks(table, seen);
    ticks := Some(sum);
  }
}
