/**
 * The relationships `set_relationships` and `set_all_relationships` derive
 * from the parent links (task_module.py:15-18, 77-84): siblings are the other
 * tasks with the same parent, and `parents` is the chain of ancestors, root
 * first.
 */
module Relations {
  import opened Wrappers
  import opened Tasks

  /** The positions `0, 1, ..., n - 1`. */
  function Range(n: nat): (r: seq<nat>)
    ensures |r| == n && forall i :: 0 <= i < n ==> r[i] == i
  {
    if n == 0 then []
    else Range(n - 1) + [n - 1]
  }

  /** `[x for x in ids if x != i]`: `ids` with every occurrence of `i`
      dropped, the rest kept in order. */
  function Without(ids: seq<nat>, i: nat): (r: seq<nat>)
    ensures forall x :: x in r <==> x in ids && x != i
    ensures |r| <= |ids|
    ensures Increasing(ids) ==> Increasing(r)
  {
    if ids == [] then []
    else
      var init, last := ids[..|ids| - 1], ids[|ids| - 1];
      var rest := Without(init, i);
      var r := rest + (if last == i then [] else [last]);
      assert Increasing(ids) ==> Increasing(r) by {
        if Increasing(ids) {
          assert Increasing(init);
          forall a, b | 0 <= a < b < |r| ensures r[a] < r[b] {
            if b == |rest| {
              assert r[a] in rest;
              var k :| 0 <= k < |init| && init[k] == r[a];
            }
          }
        }
      }
      r
  }

  /** `[task for task in ids if task.parent is None]`, and for any other
      parent the same filter. */
  function WithParent(s: seq<Task>, ids: seq<nat>, parent: Option<nat>): (r: seq<nat>)
    requires forall k :: 0 <= k < |ids| ==> ids[k] < |s|
    ensures forall x :: x in r <==> x in ids && x < |s| && s[x].parent == parent
  {
    if ids == [] then []
    else
      var init, last := ids[..|ids| - 1], ids[|ids| - 1];
      WithParent(s, init, parent) + (if s[last].parent == parent then [last] else [])
  }

  /** Filtering all positions in order gives the members of a parent. */
  lemma {:induction false} WithParentRange(s: seq<Task>, n: nat, parent: Option<nat>)
    requires n <= |s|
    ensures WithParent(s, Range(n), parent) == Members(s[..n], parent, 0)
    decreases n
  {
    if n == 0 {
      assert Range(n) == [] && s[..n] == [];
    } else {
      var r, t := Range(n), s[..n];
      assert r[..n - 1] == Range(n - 1);
      assert t[..n - 1] == s[..n - 1];
      WithParentUnfold(s, r, parent);
      MembersUnfold(t, parent, 0);
      WithParentRange(s, n - 1, parent);
    }
  }

  lemma WithParentUnfold(s: seq<Task>, ids: seq<nat>, parent: Option<nat>)
    requires ids != [] && forall k :: 0 <= k < |ids| ==> ids[k] < |s|
    ensures WithParent(s, ids, parent) ==
      WithParent(s, ids[..|ids| - 1], parent) + (if s[ids[|ids| - 1]].parent == parent then [ids[|ids| - 1]] else [])
  {
  }

  /** The ancestors of task `i`, root first and its own parent last: the
      value `parents` takes (task_module.py:18). */
  ghost function Ancestors(s: seq<Task>, i: nat): (r: seq<nat>)
    requires ParentsBefore(s) && i < |s|
    ensures forall k :: 0 <= k < |r| ==> r[k] < i
    ensures s[i].parent.None? <==> r == []
    ensures s[i].parent.Some? ==> r[|r| - 1] == s[i].parent.value
    ensures r != [] ==> s[r[0]].parent.None?
    ensures forall k :: 0 < k < |r| ==> s[r[k]].parent == Some(r[k - 1])
    decreases i
  {
    match s[i].parent
    case None => []
    case Some(p) => Ancestors(s, p) + [p]
  }

  /** The siblings `set_all_relationships` leaves: the other tasks with the
      same parent, in creation order. For a task with a parent this is the
      parent's `children` minus the task (task_module.py:17), for a top-level
      task the other top-level tasks (task_module.py:82-84). */
  ghost predicate SiblingsSettled(s: seq<Task>) {
    forall i :: 0 <= i < |s| ==> s[i].siblings == Without(Members(s, s[i].parent, 0), i)
  }

  /** Every task's `parents` is its ancestor chain. */
  ghost predicate ParentsSettled(s: seq<Task>)
    requires ParentsBefore(s)
  {
    forall i :: 0 <= i < |s| ==> s[i].parents == Ancestors(s, i)
  }

  /** Siblings are exactly the other tasks with the same parent; in
      particular no task is its own sibling. */
  lemma SiblingsMembership(s: seq<Task>, i: nat, j: nat)
    requires SiblingsSettled(s) && i < |s|
    ensures j in s[i].siblings <==> j < |s| && j != i && s[j].parent == s[i].parent
  {
    var m := Members(s, s[i].parent, 0);
    assert s[i].siblings == Without(m, i);
    assert j in s[i].siblings <==> j in m && j != i;
    MembersSpec(s, s[i].parent, 0);
  }

  /** The `parents` list `set_relationships` computes when the tasks are
      visited parents first (task_module.py:18): the parent's list, already
      computed, followed by the parent. A top-level task keeps its list. */
  ghost function Lineage(s: seq<Task>, i: nat): seq<nat>
    requires ParentsBefore(s) && i < |s|
    decreases i
  {
    match s[i].parent
    case None => s[i].parents
    case Some(p) => Lineage(s, p) + [p]
  }

  /** Top-level tasks still have the empty `parents` they were created with. */
  ghost predicate RootsBare(s: seq<Task>) {
    forall i :: 0 <= i < |s| && s[i].parent.None? ==> s[i].parents == []
  }

  /** When top-level tasks have no `parents`, the computed list is the
      ancestor chain. */
  lemma {:induction false} LineageIsAncestors(s: seq<Task>, i: nat)
    requires ParentsBefore(s) && RootsBare(s) && i < |s|
    ensures Lineage(s, i) == Ancestors(s, i)
    decreases i
  {
    if s[i].parent.Some? {
      LineageIsAncestors(s, s[i].parent.value);
    }
  }

  /** Task `i` after the first pass of `set_all_relationships`
      (task_module.py:78-79): a task with a parent takes the parent's other
      children as siblings and the parent's lineage as `parents`. */
  ghost function Relinked(s: seq<Task>, i: nat): Task
    requires ParentsBefore(s) && i < |s|
  {
    match s[i].parent
    case None => s[i]
    case Some(p) => s[i].(siblings := Without(s[p].children, i), parents := Lineage(s, i))
  }

  /** Task `i` after the whole of `set_all_relationships`: the second pass
      (task_module.py:82-84) gives each top-level task the other top-level
      tasks, in creation order, as siblings. */
  ghost function Related(s: seq<Task>, i: nat): Task
    requires ParentsBefore(s) && i < |s|
  {
    if s[i].parent.None? then s[i].(siblings := Without(Members(s, None, 0), i))
    else Relinked(s, i)
  }

  /** One step of the first pass: after `set_relationships` on task `k`,
      visited after its parent, the tasks up to `k` are relinked. */
  lemma RelinkStep(o: seq<Task>, cur: seq<Task>, next: seq<Task>, k: nat)
    requires ParentsBefore(o) && |cur| == |o| && k < |o|
    requires forall j :: 0 <= j < k ==> cur[j] == Relinked(o, j)
    requires forall j :: k <= j < |o| ==> cur[j] == o[j]
    requires o[k].parent.None? ==> next == cur
    requires o[k].parent.Some? ==>
      var p := o[k].parent.value;
      next == cur[k := cur[k].(siblings := Without(cur[p].children, k), parents := cur[p].parents + [p])]
    ensures |next| == |o|
    ensures forall j :: 0 <= j <= k ==> next[j] == Relinked(o, j)
    ensures forall j :: k < j < |o| ==> next[j] == o[j]
  {
    if o[k].parent.Some? {
      RelinkOne(o, cur, next, k);
    } else {
      RelinkTop(o, cur, next, k);
    }
  }

  lemma RelinkOne(o: seq<Task>, cur: seq<Task>, next: seq<Task>, k: nat)
    requires ParentsBefore(o) && |cur| == |o| && k < |o|
    requires forall j :: 0 <= j < k ==> cur[j] == Relinked(o, j)
    requires forall j :: k <= j < |o| ==> cur[j] == o[j]
    requires o[k].parent.Some?
    requires
      var p := o[k].parent.value;
      next == cur[k := cur[k].(siblings := Without(cur[p].children, k), parents := cur[p].parents + [p])]
    ensures |next| == |o|
    ensures forall j :: 0 <= j <= k ==> next[j] == Relinked(o, j)
    ensures forall j :: k < j < |o| ==> next[j] == o[j]
  {
    var p := o[k].parent.value;
    assert cur[p] == Relinked(o, p) && cur[k] == o[k];
    assert cur[p].children == o[p].children && cur[p].parents == Lineage(o, p);
    assert next[k] == Relinked(o, k);
    assert forall j :: 0 <= j < |o| && j != k ==> next[j] == cur[j];
  }

  lemma RelinkTop(o: seq<Task>, cur: seq<Task>, next: seq<Task>, k: nat)
    requires ParentsBefore(o) && |cur| == |o| && k < |o|
    requires forall j :: 0 <= j < k ==> cur[j] == Relinked(o, j)
    requires forall j :: k <= j < |o| ==> cur[j] == o[j]
    requires o[k].parent.None? && next == cur
    ensures |next| == |o|
    ensures forall j :: 0 <= j <= k ==> next[j] == Relinked(o, j)
    ensures forall j :: k < j < |o| ==> next[j] == o[j]
  {
    assert next[k] == o[k] == Relinked(o, k);
  }

  /** The second pass: after the first, giving the top-level tasks each
      other as siblings completes the relationships. */
  lemma TopLevelRelated(o: seq<Task>, mid: seq<Task>, top: seq<nat>, t: seq<Task>)
    requires ParentsBefore(o) && |mid| == |o| && |t| == |o|
    requires forall j :: 0 <= j < |o| ==> mid[j] == Relinked(o, j)
    requires top == Members(o, None, 0)
    requires forall i :: 0 <= i < |o| ==> t[i] == if i in top then mid[i].(siblings := Without(top, i)) else mid[i]
    ensures forall i :: 0 <= i < |o| ==> t[i] == Related(o, i)
  {
    MembersSpec(o, None, 0);
  }

  /** Filtering the relinked store for top-level tasks finds the top-level
      tasks of the original store. */
  lemma TopLevelMembers(o: seq<Task>, mid: seq<Task>)
    requires ParentsBefore(o) && |mid| == |o|
    requires forall j :: 0 <= j < |o| ==> mid[j] == Relinked(o, j)
    ensures WithParent(mid, Range(|mid|), None) == Members(o, None, 0)
  {
    assert mid[..|mid|] == mid;
    forall j | 0 <= j < |o| ensures mid[j].parent == o[j].parent {
      RelinkedParent(o, j);
    }
    MembersFrame(mid, o, None, 0);
    WithParentRange(mid, |mid|, None);
  }

  lemma RelinkedParent(s: seq<Task>, i: nat)
    requires ParentsBefore(s) && i < |s|
    ensures Relinked(s, i).parent == s[i].parent && Related(s, i).parent == s[i].parent
  {
  }

  /** Ancestor chains depend on nothing but the parent links. */
  lemma {:induction false} AncestorsFrame(s: seq<Task>, t: seq<Task>, i: nat)
    requires ParentsBefore(s) && ParentsBefore(t) && |s| == |t| && i < |s|
    requires forall k :: 0 <= k < |s| ==> s[k].parent == t[k].parent
    ensures Ancestors(s, i) == Ancestors(t, i)
    decreases i
  {
    if s[i].parent.Some? {
      AncestorsFrame(s, t, s[i].parent.value);
    }
  }

  /** On a tree whose top-level tasks have no `parents` yet, the
      relationships pass settles every task's siblings and `parents`, and
      keeps the store linked and tree shaped. */
  lemma RelatedSettles(s: seq<Task>, t: seq<Task>)
    requires Linked(s) && TreeShaped(s) && RootsBare(s)
    requires |t| == |s| && forall i :: 0 <= i < |s| ==> t[i] == Related(s, i)
    ensures ParentsBefore(t) && Linked(t) && TreeShaped(t)
    ensures SiblingsSettled(t) && ParentsSettled(t)
  {
    assert forall k :: 0 <= k < |s| ==> t[k].parent == s[k].parent;
    assert ParentsBefore(t);
    forall i | 0 <= i < |t|
      ensures LinksBelow(t[i], |t|) && t[i].parents == Ancestors(t, i)
      ensures t[i].siblings == Without(Members(t, t[i].parent, 0), i)
      ensures t[i].children == Members(t, Some(i), 0) && ParentIsMultitask(t, i)
      ensures t[i].kind == Single <==> t[i].formula.Some?
    {
      RelatedAt(s, t, i);
    }
  }

  lemma RelatedAt(s: seq<Task>, t: seq<Task>, i: nat)
    requires Linked(s) && TreeShaped(s) && RootsBare(s)
    requires |t| == |s| && forall i :: 0 <= i < |s| ==> t[i] == Related(s, i)
    requires ParentsBefore(t) && i < |s|
    ensures LinksBelow(t[i], |t|) && t[i].parents == Ancestors(t, i)
    ensures t[i].siblings == Without(Members(t, t[i].parent, 0), i)
    ensures t[i].children == Members(t, Some(i), 0) && ParentIsMultitask(t, i)
    ensures t[i].kind == Single <==> t[i].formula.Some?
  {
    assert forall k :: 0 <= k < |s| ==> t[k].parent == s[k].parent;
    assert LinksBelow(s[i], |s|);
    assert ParentIsMultitask(s, i);
    MembersFrame(t, s, s[i].parent, 0);
    MembersFrame(t, s, Some(i), 0);
    MembersSpec(s, None, 0);
    LineageIsAncestors(s, i);
    AncestorsFrame(s, t, i);
    if s[i].parent.Some? {
      var p := s[i].parent.value;
      assert LinksBelow(s[p], |s|);
      assert t[p].kind == s[p].kind;
    }
  }

  /** A task is never among its own `parents`. */
  lemma ParentsExcludeSelf(s: seq<Task>, i: nat)
    requires ParentsBefore(s) && ParentsSettled(s) && i < |s|
    ensures i !in s[i].parents
  {
    assert forall k :: 0 <= k < |s[i].parents| ==> s[i].parents[k] < i;
  }
}
