/**
 The processes under one process (scripts/misura_m14_3.py, `descendants`): a worklist over the
 children of each, with no record of what was visited.
 */
module Processes {

  type Pid = int

  /** A line of `ps`: a process and its parent. */
  datatype Row = Row(pid: Pid, parent: Pid)

  /** The children of a process, in the order of the rows. */
  function Children(rows: seq<Row>, pid: Pid): seq<Pid>
    decreases |rows|
  {
    if rows == [] then []
    else
      var last := rows[|rows| - 1];
      Children(rows[..|rows| - 1], pid) + (if last.parent == pid then [last.pid] else [])
  }

  ghost predicate IsChild(rows: seq<Row>, child: Pid, parent: Pid) {
    exists i :: 0 <= i < |rows| && rows[i] == Row(child, parent)
  }

  /** A process is listed once, so it has one parent. */
  ghost predicate OneParent(rows: seq<Row>) {
    forall i, j :: 0 <= i < j < |rows| ==> rows[i].pid != rows[j].pid
  }

  lemma {:induction false} ChildrenAreListed(rows: seq<Row>, child: Pid, parent: Pid)
    ensures child in Children(rows, parent) <==> IsChild(rows, child, parent)
    decreases |rows|
  {
    if rows != [] {
      var before, last := rows[..|rows| - 1], rows[|rows| - 1];
      ChildrenAreListed(before, child, parent);
      if IsChild(rows, child, parent) {
        var i :| 0 <= i < |rows| && rows[i] == Row(child, parent);
        if i < |before| {
          assert before[i] == Row(child, parent);
        }
      }
      if IsChild(before, child, parent) {
        var i :| 0 <= i < |before| && before[i] == Row(child, parent);
        assert rows[i] == Row(child, parent);
      }
      if last == Row(child, parent) {
        assert rows[|rows| - 1] == Row(child, parent);
      }
    }
  }

  /** Each process comes once at most. */
  ghost predicate Once(pids: multiset<Pid>) {
    forall pid :: pids[pid] <= 1
  }

  lemma {:induction false} ChildrenAreDistinct(rows: seq<Row>, parent: Pid)
    requires OneParent(rows)
    ensures Once(multiset(Children(rows, parent)))
    decreases |rows|
  {
    if rows != [] {
      var before, last := rows[..|rows| - 1], rows[|rows| - 1];
      ChildrenAreDistinct(before, parent);
      ChildrenAreListed(before, last.pid, parent);
    }
  }

  lemma TheParentIsOne(rows: seq<Row>, child: Pid, a: Pid, b: Pid)
    requires OneParent(rows) && IsChild(rows, child, a) && IsChild(rows, child, b)
    ensures a == b
  {
    var i :| 0 <= i < |rows| && rows[i] == Row(child, a);
    var j :| 0 <= j < |rows| && rows[j] == Row(child, b);
    if i < j {
      assert rows[i].pid == rows[j].pid;
    } else if j < i {
      assert rows[j].pid == rows[i].pid;
    }
  }

  // ------------------------------------------------------------------------------------------
  // Descent
  // ------------------------------------------------------------------------------------------

  /** A line of descent: each process a child of the one before it. */
  ghost predicate IsLine(rows: seq<Row>, line: seq<Pid>) {
    line != [] && forall i :: 0 <= i < |line| - 1 ==> IsChild(rows, line[i + 1], line[i])
  }

  ghost predicate Descends(rows: seq<Row>, root: Pid, pid: Pid) {
    exists line :: IsLine(rows, line) && line[0] == root && line[|line| - 1] == pid
  }

  /** No process of the tree has the root for a child: the root is not its own descendant. */
  ghost predicate RootIsTop(rows: seq<Row>, root: Pid) {
    forall pid :: Descends(rows, root, pid) ==> !IsChild(rows, root, pid)
  }

  lemma RootDescends(rows: seq<Row>, root: Pid)
    ensures Descends(rows, root, root)
  {
    assert IsLine(rows, [root]);
  }

  lemma ChildDescends(rows: seq<Row>, root: Pid, parent: Pid, child: Pid)
    requires Descends(rows, root, parent) && IsChild(rows, child, parent)
    ensures Descends(rows, root, child)
  {
    var line :| IsLine(rows, line) && line[0] == root && line[|line| - 1] == parent;
    var longer := line + [child];
    assert IsLine(rows, longer);
  }

  /** What is closed under children and holds the root holds every descendant. */
  lemma {:induction false} LineStaysInside(rows: seq<Row>, line: seq<Pid>, inside: set<Pid>)
    requires IsLine(rows, line) && line[0] in inside
    requires forall parent, child :: parent in inside && IsChild(rows, child, parent) ==> child in inside
    ensures line[|line| - 1] in inside
    decreases |line|
  {
    if |line| > 1 {
      var before := line[..|line| - 1];
      assert IsLine(rows, before) by {
        forall i | 0 <= i < |before| - 1
          ensures IsChild(rows, before[i + 1], before[i])
        {
          assert IsChild(rows, line[i + 1], line[i]);
        }
      }
      LineStaysInside(rows, before, inside);
      assert IsChild(rows, line[|line| - 2 + 1], line[|line| - 2]);
    }
  }

  // ------------------------------------------------------------------------------------------
  // The worklist
  // ------------------------------------------------------------------------------------------

  /** Where the worklist is: every process met came once, from a parent already in the tree. */
  ghost predicate Walked(rows: seq<Row>, root: Pid, tree: seq<Pid>, todo: seq<Pid>) {
    && Once(multiset(tree) + multiset(todo))
    && (root in tree || root in todo)
    && (forall pid :: pid in tree || pid in todo ==> Descends(rows, root, pid))
    && (forall pid :: (pid in tree || pid in todo) && pid != root ==>
          exists parent :: parent in tree && IsChild(rows, pid, parent))
    && (forall parent, child :: parent in tree && IsChild(rows, child, parent) ==> child in tree || child in todo)
  }

  /** The children of a process taken from the worklist were never met before. */
  lemma ChildrenAreNew(rows: seq<Row>, root: Pid, tree: seq<Pid>, todo: seq<Pid>, pid: Pid, child: Pid)
    requires OneParent(rows) && RootIsTop(rows, root) && Walked(rows, root, tree, todo)
    requires pid in todo && IsChild(rows, child, pid)
    ensures child !in tree && child !in todo
  {
    assert Descends(rows, root, pid);
    assert pid !in tree by {
      assert (multiset(tree) + multiset(todo))[pid] <= 1 && pid in multiset(todo);
    }
    if child in tree || child in todo {
      assert child != root;
      var parent :| parent in tree && IsChild(rows, child, parent);
      TheParentIsOne(rows, child, pid, parent);
      assert false;
    }
  }

  lemma OnceGoesOn(rows: seq<Row>, root: Pid, tree: seq<Pid>, before: seq<Pid>, pid: Pid)
    requires OneParent(rows) && RootIsTop(rows, root) && Walked(rows, root, tree, before + [pid])
    ensures Once(multiset(tree + [pid]) + multiset(before + Children(rows, pid))) && pid !in tree
  {
    var children := Children(rows, pid);
    var met := multiset(tree) + multiset(before + [pid]);
    assert multiset(tree + [pid]) + multiset(before + children) == met + multiset(children);
    ChildrenAreDistinct(rows, pid);
    forall c
      ensures (met + multiset(children))[c] <= 1
    {
      if c in children {
        ChildrenAreListed(rows, c, pid);
        ChildrenAreNew(rows, root, tree, before + [pid], pid, c);
      }
    }
    assert met[pid] <= 1;
  }

  lemma WalkGoesOn(rows: seq<Row>, root: Pid, tree: seq<Pid>, before: seq<Pid>, pid: Pid)
    requires OneParent(rows) && RootIsTop(rows, root) && Walked(rows, root, tree, before + [pid])
    ensures Walked(rows, root, tree + [pid], before + Children(rows, pid)) && pid !in tree
  {
    OnceGoesOn(rows, root, tree, before, pid);
    var tree', todo' := tree + [pid], before + Children(rows, pid);
    forall c | c in tree' || c in todo'
      ensures Descends(rows, root, c)
      ensures c != root ==> exists parent :: parent in tree' && IsChild(rows, c, parent)
    {
      ChildrenAreListed(rows, c, pid);
      if c in tree || c in before + [pid] {
        if c != root {
          var parent :| parent in tree && IsChild(rows, c, parent);
          assert parent in tree';
        }
      } else {
        ChildDescends(rows, root, pid, c);
        assert pid in tree' && IsChild(rows, c, pid);
      }
    }
    forall parent, child | parent in tree' && IsChild(rows, child, parent)
      ensures child in tree' || child in todo'
    {
      ChildrenAreListed(rows, child, pid);
      if parent in tree {
        assert child in tree || child in before + [pid];
      }
    }
  }

  function Everyone(rows: seq<Row>, root: Pid): set<Pid> {
    {root} + set row | row in rows :: row.pid
  }

  lemma DescendantsAreListed(rows: seq<Row>, root: Pid, pid: Pid)
    requires Descends(rows, root, pid)
    ensures pid in Everyone(rows, root)
  {
    var line :| IsLine(rows, line) && line[0] == root && line[|line| - 1] == pid;
    if |line| > 1 {
      assert IsChild(rows, line[|line| - 2 + 1], line[|line| - 2]);
      var i :| 0 <= i < |rows| && rows[i] == Row(pid, line[|line| - 2]);
      assert rows[i] in rows;
    }
  }

  /** `descendants`: it ends, and returns every process that descends from the root, each once, and
      nothing else. */
  method Descendants(rows: seq<Row>, root: Pid) returns (tree: seq<Pid>)
    requires OneParent(rows) && RootIsTop(rows, root)
    ensures Once(multiset(tree))
    ensures forall pid :: pid in tree <==> Descends(rows, root, pid)
  {
    var todo := [root];
    tree := [];
    RootDescends(rows, root);
    while todo != []
      invariant Walked(rows, root, tree, todo)
      decreases Everyone(rows, root) - set pid | pid in tree
    {
      var pid := todo[|todo| - 1];
      assert todo == todo[..|todo| - 1] + [pid];
      WalkGoesOn(rows, root, tree, todo[..|todo| - 1], pid);
      DescendantsAreListed(rows, root, pid);
      ghost var before := Everyone(rows, root) - set p | p in tree;
      assert pid in before;
      tree, todo := tree + [pid], todo[..|todo| - 1] + Children(rows, pid);
      assert pid in tree;
    }
    assert multiset(tree) + multiset(todo) == multiset(tree);
    forall pid | Descends(rows, root, pid)
      ensures pid in tree
    {
      var line :| IsLine(rows, line) && line[0] == root && line[|line| - 1] == pid;
      LineStaysInside(rows, line, set p | p in tree);
    }
  }

  // ------------------------------------------------------------------------------------------
  // Without the condition on the root
  // ------------------------------------------------------------------------------------------

  /** What is left to do after `n` turns of the loop. */
  function TodoAfter(rows: seq<Row>, todo: seq<Pid>, n: nat): seq<Pid>
    decreases n
  {
    if n == 0 || todo == [] then todo
    else TodoAfter(rows, todo[..|todo| - 1] + Children(rows, todo[|todo| - 1]), n - 1)
  }

  /** A process that is its own descendant keeps the worklist busy for ever. */
  lemma {:induction false} AnOwnDescendantNeverEnds(rows: seq<Row>, todo: seq<Pid>, circle: seq<Pid>, n: nat)
    requires IsLine(rows, circle) && |circle| > 1 && circle[0] == circle[|circle| - 1]
    requires exists i :: 0 <= i < |circle| && circle[i] in todo
    ensures TodoAfter(rows, todo, n) != []
    decreases n
  {
    var i :| 0 <= i < |circle| && circle[i] in todo;
    if n > 0 {
      var pid, before := todo[|todo| - 1], todo[..|todo| - 1];
      var next := before + Children(rows, pid);
      assert todo == before + [pid];
      if circle[i] in before {
        assert circle[i] in next;
      } else {
        var k := if i == |circle| - 1 then 0 else i;
        assert IsChild(rows, circle[k + 1], circle[k]);
        ChildrenAreListed(rows, circle[k + 1], pid);
        assert circle[k + 1] in next;
      }
      AnOwnDescendantNeverEnds(rows, next, circle, n - 1);
    }
  }

  /** So the loop ends exactly when the root is not its own descendant: otherwise there is always more
      to do. */
  lemma RootOfACircleNeverEnds(rows: seq<Row>, root: Pid, n: nat)
    requires !RootIsTop(rows, root)
    ensures TodoAfter(rows, [root], n) != []
  {
    var pid :| Descends(rows, root, pid) && IsChild(rows, root, pid);
    var line :| IsLine(rows, line) && line[0] == root && line[|line| - 1] == pid;
    var circle := line + [root];
    assert IsLine(rows, circle);
    assert circle[0] in [root];
    AnOwnDescendantNeverEnds(rows, [root], circle, n);
  }

  /** A process listed as its own parent, say. */
  lemma ItsOwnParentNeverEnds(pid: Pid, n: nat)
    ensures OneParent([Row(pid, pid)]) && TodoAfter([Row(pid, pid)], [pid], n) != []
  {
    var rows := [Row(pid, pid)];
    assert rows[0] == Row(pid, pid);
    RootDescends(rows, pid);
    RootOfACircleNeverEnds(rows, pid, n);
  }
}
