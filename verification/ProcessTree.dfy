/** The walk over a process snapshot that collects all descendants of one process without a visited set. */
module ProcessTree {

  datatype Entry = Entry(pid: nat, parent: nat)

  /** The items of the parent dictionary in their order; a dictionary holds every process id once. */
  ghost predicate Dictionary(entries: seq<Entry>) {
    forall i, j | 0 <= i < j < |entries| :: entries[i].pid != entries[j].pid
  }

  datatype Walk = Walk(descendants: seq<nat>, frontier: seq<nat>)

  function Children(entries: seq<Entry>, current: nat): (children: seq<nat>) {
    if entries == [] then []
    else (if entries[0].parent == current then [entries[0].pid] else []) + Children(entries[1..], current)
  }

  /** One round of the loop: the last process of the frontier makes way for its children. */
  function Expand(entries: seq<Entry>, w: Walk): Walk
    requires w.frontier != []
  {
    var children := Children(entries, w.frontier[|w.frontier| - 1]);
    Walk(w.descendants + children, w.frontier[..|w.frontier| - 1] + children)
  }

  /** The state after `steps` rounds; an ended walk stays as it is. */
  function WalkFor(entries: seq<Entry>, root: nat, steps: nat): Walk {
    if steps == 0 then Walk([], [root])
    else
      var w := WalkFor(entries, root, steps - 1);
      if w.frontier == [] then w else Expand(entries, w)
  }

  // What the parent links say on their own

  ghost predicate IsParent(entries: seq<Entry>, parent: nat, pid: nat) {
    Entry(pid, parent) in entries
  }

  /** `x` is `pid` itself or reached from it by `k` parent links. */
  ghost predicate AncestorBy(entries: seq<Entry>, x: nat, pid: nat, k: nat)
    decreases k
  {
    if k == 0 then x == pid
    else exists child: nat :: IsParent(entries, x, child) && AncestorBy(entries, child, pid, k - 1)
  }

  ghost predicate StrictDescendant(entries: seq<Entry>, pid: nat, root: nat) {
    exists k: nat :: k > 0 && AncestorBy(entries, root, pid, k)
  }

  ghost predicate NoRepeats(s: seq<nat>) {
    forall i, j | 0 <= i < j < |s| :: s[i] != s[j]
  }

  // The children of one process

  lemma {:induction false} ChildrenAreExact(entries: seq<Entry>, current: nat, pid: nat)
    ensures pid in Children(entries, current) <==> IsParent(entries, current, pid)
  {
    if entries != [] {
      ChildrenAreExact(entries[1..], current, pid);
      assert entries == [entries[0]] + entries[1..];
    }
  }

  lemma {:induction false} ChildrenDoNotRepeat(entries: seq<Entry>, current: nat)
    requires Dictionary(entries)
    ensures NoRepeats(Children(entries, current))
  {
    if entries != [] {
      ChildrenDoNotRepeat(entries[1..], current);
      ChildrenAreExact(entries[1..], current, entries[0].pid);
    }
  }

  lemma OneParent(entries: seq<Entry>, pid: nat, first: nat, second: nat)
    requires Dictionary(entries) && IsParent(entries, first, pid) && IsParent(entries, second, pid)
    ensures first == second
  {
    var i :| 0 <= i < |entries| && entries[i] == Entry(pid, first);
    var j :| 0 <= j < |entries| && entries[j] == Entry(pid, second);
  }

  /** One more parent link at the near end. */
  lemma {:induction false} AncestorOfChild(entries: seq<Entry>, x: nat, parent: nat, child: nat, k: nat)
    requires AncestorBy(entries, x, parent, k) && IsParent(entries, parent, child)
    ensures AncestorBy(entries, x, child, k + 1)
    decreases k
  {
    if k == 0 {
      assert AncestorBy(entries, child, child, 0);
    } else {
      var next: nat :| IsParent(entries, x, next) && AncestorBy(entries, next, parent, k - 1);
      AncestorOfChild(entries, next, parent, child, k - 1);
    }
  }

  /** The last parent link, taken off at the near end. */
  lemma {:induction false} ParentOfDescendant(entries: seq<Entry>, x: nat, pid: nat, k: nat) returns (parent: nat)
    requires k > 0 && AncestorBy(entries, x, pid, k)
    ensures IsParent(entries, parent, pid) && AncestorBy(entries, x, parent, k - 1)
    decreases k
  {
    var next: nat :| IsParent(entries, x, next) && AncestorBy(entries, next, pid, k - 1);
    if k == 1 {
      parent := x;
    } else {
      parent := ParentOfDescendant(entries, next, pid, k - 1);
    }
  }

  // What every round keeps

  /** Found before, and its children already collected. */
  ghost predicate Done(w: Walk, root: nat, pid: nat) {
    (pid == root || pid in w.descendants) && pid !in w.frontier
  }

  ghost predicate Inv(entries: seq<Entry>, root: nat, w: Walk) {
    && NoRepeats(w.descendants) && NoRepeats(w.frontier)
    && (forall x | x in w.frontier :: x == root || x in w.descendants)
    && (forall x | x in w.descendants :: StrictDescendant(entries, x, root))
    && ChildrenFollow(entries, root, w)
  }

  /** A process is collected exactly when its parent is done. */
  ghost predicate ChildrenFollow(entries: seq<Entry>, root: nat, w: Walk) {
    forall x, parent | IsParent(entries, parent, x) :: x in w.descendants <==> Done(w, root, parent)
  }

  lemma StartKeepsInv(entries: seq<Entry>, root: nat)
    ensures Inv(entries, root, Walk([], [root]))
  {
  }

  lemma ChildrenAreNew(entries: seq<Entry>, root: nat, w: Walk, child: nat)
    requires Dictionary(entries) && Inv(entries, root, w) && w.frontier != []
    requires !StrictDescendant(entries, root, root)
    requires child in Children(entries, w.frontier[|w.frontier| - 1])
    ensures StrictDescendant(entries, child, root)
    ensures child != root && child !in w.descendants && child !in w.frontier
  {
    var current := w.frontier[|w.frontier| - 1];
    ChildrenAreExact(entries, current, child);
    if current == root {
      assert AncestorBy(entries, root, root, 0);
      AncestorOfChild(entries, root, root, child, 0);
    } else {
      assert StrictDescendant(entries, current, root);
      var k: nat :| k > 0 && AncestorBy(entries, root, current, k);
      AncestorOfChild(entries, root, current, child, k);
    }
  }

  lemma ExpandKeepsInv(entries: seq<Entry>, root: nat, w: Walk)
    requires Dictionary(entries) && Inv(entries, root, w) && w.frontier != []
    requires !StrictDescendant(entries, root, root)
    ensures Inv(entries, root, Expand(entries, w))
  {
    var current := w.frontier[|w.frontier| - 1];
    var children := Children(entries, current);
    var next := Expand(entries, w);
    ChildrenDoNotRepeat(entries, current);
    forall child | child in children
      ensures StrictDescendant(entries, child, root)
      ensures child != root && child !in w.descendants && child !in w.frontier
    {
      ChildrenAreNew(entries, root, w, child);
    }
    JoinDoesNotRepeat(w.descendants, children);
    JoinDoesNotRepeat(w.frontier[..|w.frontier| - 1], children);
    forall x, parent | IsParent(entries, parent, x)
      ensures x in next.descendants <==> Done(next, root, parent)
    {
      ChildrenAreExact(entries, current, x);
      DoneAfter(entries, root, w, parent);
      if parent != current && x in children {
        OneParent(entries, x, parent, current);
      }
    }
  }

  lemma JoinDoesNotRepeat(a: seq<nat>, b: seq<nat>)
    requires NoRepeats(a) && NoRepeats(b) && forall x | x in b :: x !in a
    ensures NoRepeats(a + b)
  {
    forall i, j | 0 <= i < j < |a + b|
      ensures (a + b)[i] != (a + b)[j]
    {
      if i < |a| <= j {
        assert b[j - |a|] in b;
      }
    }
  }

  /** A round finishes the process it takes from the frontier and no other. */
  lemma DoneAfter(entries: seq<Entry>, root: nat, w: Walk, pid: nat)
    requires w.frontier != [] && NoRepeats(w.frontier)
    requires forall x | x in w.frontier :: x == root || x in w.descendants
    requires forall x | x in Children(entries, w.frontier[|w.frontier| - 1]) ::
               x != root && x !in w.descendants && x !in w.frontier
    ensures Done(Expand(entries, w), root, pid) <==> Done(w, root, pid) || pid == w.frontier[|w.frontier| - 1]
  {
    var n := |w.frontier| - 1;
    assert w.frontier == w.frontier[..n] + [w.frontier[n]];
  }

  // Termination

  ghost function Pids(entries: seq<Entry>): set<nat> {
    set i | 0 <= i < |entries| :: entries[i].pid
  }

  /** Processes still to be taken from the frontier, now or later. */
  ghost function Remaining(entries: seq<Entry>, root: nat, w: Walk): nat {
    |Pids(entries) + {root} - set x | x in Pids(entries) + {root} && Done(w, root, x)|
  }

  lemma ExpandMakesProgress(entries: seq<Entry>, root: nat, w: Walk)
    requires Dictionary(entries) && Inv(entries, root, w) && w.frontier != []
    requires !StrictDescendant(entries, root, root)
    ensures Remaining(entries, root, Expand(entries, w)) < Remaining(entries, root, w)
  {
    var current := w.frontier[|w.frontier| - 1];
    var all := Pids(entries) + {root};
    forall child | child in Children(entries, current)
      ensures child != root && child !in w.descendants && child !in w.frontier
    {
      ChildrenAreNew(entries, root, w, child);
    }
    forall pid
      ensures Done(Expand(entries, w), root, pid) <==> Done(w, root, pid) || pid == current
    {
      DoneAfter(entries, root, w, pid);
    }
    if current != root {
      DescendantIsListed(entries, current, root);
    }
    var before := all - set x | x in all && Done(w, root, x);
    var after := all - set x | x in all && Done(Expand(entries, w), root, x);
    assert current in before;
    assert after == before - {current};
  }

  lemma DescendantIsListed(entries: seq<Entry>, pid: nat, root: nat)
    requires StrictDescendant(entries, pid, root)
    ensures pid in Pids(entries)
  {
    var k: nat :| k > 0 && AncestorBy(entries, root, pid, k);
    var parent := ParentOfDescendant(entries, root, pid, k);
    var i :| 0 <= i < |entries| && entries[i] == Entry(pid, parent);
  }

  /** With nothing left to expand, every strict descendant has been collected. */
  lemma {:induction false} AllCollected(entries: seq<Entry>, root: nat, w: Walk, pid: nat, k: nat)
    requires ChildrenFollow(entries, root, w) && w.frontier == []
    requires k > 0 && AncestorBy(entries, root, pid, k)
    ensures pid in w.descendants
    decreases k
  {
    var parent := ParentOfDescendant(entries, root, pid, k);
    if k > 1 {
      AllCollected(entries, root, w, parent, k - 1);
    } else {
      assert parent == root;
    }
    assert Done(w, root, parent);
  }

  /** The strict descendants of `root`, each once and nothing else. */
  ghost predicate ExactlyTheDescendants(entries: seq<Entry>, root: nat, found: seq<nat>) {
    NoRepeats(found) && forall pid :: pid in found <==> StrictDescendant(entries, pid, root)
  }

  lemma EndedWalkIsExact(entries: seq<Entry>, root: nat, w: Walk)
    requires Inv(entries, root, w) && w.frontier == []
    ensures ExactlyTheDescendants(entries, root, w.descendants)
  {
    forall pid | StrictDescendant(entries, pid, root)
      ensures pid in w.descendants
    {
      var k: nat :| k > 0 && AncestorBy(entries, root, pid, k);
      AllCollected(entries, root, w, pid, k);
    }
  }

  /** The frontier loop of `_windows_descendants`, for a root that is not its own ancestor. */
  method WindowsDescendants(entries: seq<Entry>, root: nat) returns (descendants: seq<nat>)
    requires Dictionary(entries) && !StrictDescendant(entries, root, root)
    ensures ExactlyTheDescendants(entries, root, descendants)
    ensures exists steps :: WalkFor(entries, root, steps) == Walk(descendants, [])
  {
    descendants := [];
    var frontier := [root];
    ghost var steps := 0;
    while frontier != []
      invariant Inv(entries, root, Walk(descendants, frontier))
      invariant WalkFor(entries, root, steps) == Walk(descendants, frontier)
      decreases Remaining(entries, root, Walk(descendants, frontier))
    {
      ExpandKeepsInv(entries, root, Walk(descendants, frontier));
      ExpandMakesProgress(entries, root, Walk(descendants, frontier));
      var current := frontier[|frontier| - 1];
      frontier := frontier[..|frontier| - 1];
      var children := Children(entries, current);
      descendants := descendants + children;
      frontier := frontier + children;
      steps := steps + 1;
    }
    EndedWalkIsExact(entries, root, Walk(descendants, frontier));
  }

  // The other roots

  /** Some process in the frontier is the root or one of the root's ancestors. */
  ghost predicate Circling(entries: seq<Entry>, root: nat, w: Walk) {
    exists x, k: nat :: x in w.frontier && AncestorBy(entries, x, root, k)
  }

  /** An ancestor of the root has a child that is the root or an ancestor of it, if the root is its own ancestor. */
  lemma ChildOnTheCycle(entries: seq<Entry>, root: nat, x: nat, k: nat) returns (child: nat, j: nat)
    requires StrictDescendant(entries, root, root) && AncestorBy(entries, x, root, k)
    ensures IsParent(entries, x, child) && AncestorBy(entries, child, root, j)
  {
    if k == 0 {
      var cycle: nat :| cycle > 0 && AncestorBy(entries, root, root, cycle);
      j := cycle - 1;
    } else {
      j := k - 1;
    }
    child :| IsParent(entries, x, child) && AncestorBy(entries, child, root, j);
  }

  lemma {:induction false} KeepsCircling(entries: seq<Entry>, root: nat, steps: nat)
    requires StrictDescendant(entries, root, root)
    ensures Circling(entries, root, WalkFor(entries, root, steps))
    decreases steps
  {
    if steps == 0 {
      assert AncestorBy(entries, root, root, 0);
      assert root in WalkFor(entries, root, 0).frontier;
    } else {
      KeepsCircling(entries, root, steps - 1);
      ExpandKeepsCircling(entries, root, WalkFor(entries, root, steps - 1));
    }
  }

  lemma ExpandKeepsCircling(entries: seq<Entry>, root: nat, w: Walk)
    requires StrictDescendant(entries, root, root) && Circling(entries, root, w)
    ensures w.frontier != [] && Circling(entries, root, Expand(entries, w))
  {
    var x, k: nat :| x in w.frontier && AncestorBy(entries, x, root, k);
    var n := |w.frontier| - 1;
    if x == w.frontier[n] {
      var child, j := ChildOnTheCycle(entries, root, x, k);
      ChildrenAreExact(entries, x, child);
      assert child in Expand(entries, w).frontier;
    } else {
      assert w.frontier == w.frontier[..n] + [w.frontier[n]];
      assert x in Expand(entries, w).frontier;
    }
  }

  lemma {:induction false} WalkEnds(entries: seq<Entry>, root: nat, steps: nat) returns (end: nat)
    requires Dictionary(entries) && !StrictDescendant(entries, root, root)
    requires Inv(entries, root, WalkFor(entries, root, steps))
    ensures WalkFor(entries, root, end).frontier == []
    decreases Remaining(entries, root, WalkFor(entries, root, steps))
  {
    var w := WalkFor(entries, root, steps);
    if w.frontier == [] {
      end := steps;
    } else {
      ExpandKeepsInv(entries, root, w);
      ExpandMakesProgress(entries, root, w);
      end := WalkEnds(entries, root, steps + 1);
    }
  }

  /** The loop ends exactly for the roots that are not their own ancestors. */
  lemma EndsUnlessOwnAncestor(entries: seq<Entry>, root: nat)
    requires Dictionary(entries)
    ensures (exists steps :: WalkFor(entries, root, steps).frontier == []) <==> !StrictDescendant(entries, root, root)
  {
    if StrictDescendant(entries, root, root) {
      forall steps
        ensures WalkFor(entries, root, steps).frontier != []
      {
        KeepsCircling(entries, root, steps);
      }
    } else {
      StartKeepsInv(entries, root);
      var end := WalkEnds(entries, root, 0);
    }
  }

  /** A process recorded as its own parent is such a root. */
  lemma SelfParentNeverEnds(steps: nat)
    ensures Dictionary([Entry(0, 0)]) && StrictDescendant([Entry(0, 0)], 0, 0)
    ensures WalkFor([Entry(0, 0)], 0, steps).frontier != []
  {
    var entries := [Entry(0, 0)];
    assert IsParent(entries, 0, 0) && AncestorBy(entries, 0, 0, 0);
    assert AncestorBy(entries, 0, 0, 1);
    KeepsCircling(entries, 0, steps);
  }
}
