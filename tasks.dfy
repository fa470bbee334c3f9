/**
 * Task nodes and the task store. A Python `Task` object is modelled as a
 * record in a store; its identity is its position in the store, which is
 * the order in which the tree builder created it. Every link between tasks
 * (`parent`, `children`, `siblings`, `parents`, `dependencies`,
 * `object_dependencies`) holds such positions.
 */
module Tasks {
  import opened Wrappers
  import opened Text
  import opened Config

  /** `task_type`: "single" or "multitask". */
  datatype Kind = Single | Multitask

  datatype Task = Task(
    name: string,
    kind: Kind,
    formula: Option<string>,
    parent: Option<nat>,
    children: seq<nat>,
    siblings: seq<nat>,
    parents: seq<nat>,
    dependencies: seq<nat>,
    objectDependencies: seq<nat>)

  /** `Task(name, task_type, formula, parent)` (task_module.py:4-13): every list starts empty. */
  function NewTask(name: string, kind: Kind, formula: Option<string>, parent: Option<nat>): Task {
    Task(name, kind, formula, parent, [], [], [], [], [])
  }

  ghost predicate Increasing(ids: seq<nat>) {
    forall i, j :: 0 <= i < j < |ids| ==> ids[i] < ids[j]
  }

  /** The positions of the tasks built for the entries of one mapping, when
      its tasks are numbered from `base` in creation order. */
  function TopIndices(es: seq<Entry>, base: nat): (r: seq<nat>)
    ensures |r| == |es|
    ensures forall x :: x in r ==> base <= x < base + Count(es)
  {
    if es == [] then []
    else
      var init := es[..|es| - 1];
      TopIndices(init, base) + [base + Count(init)]
  }

  lemma TopIndicesUnfold(es: seq<Entry>, base: nat)
    requires es != []
    ensures TopIndices(es, base) == TopIndices(es[..|es| - 1], base) + [base + Count(es[..|es| - 1])]
  {
  }

  /** The tasks the tree builder creates for the mapping `es` under `parent`
      and `scope`, in creation order, numbered from `base`: one task per
      entry, followed at once by the tasks of its nested mapping. Their
      siblings, parents and dependency lists are still empty. */
  function Flatten(es: seq<Entry>, parent: Option<nat>, scope: string, base: nat): (r: seq<Task>)
    ensures |r| == Count(es)
  {
    if es == [] then []
    else
      var init := es[..|es| - 1];
      Flatten(init, parent, scope, base) + EntryTasks(es[|es| - 1], parent, scope, base + Count(init))
  }

  lemma FlattenSnoc(pre: seq<Entry>, e: Entry, parent: Option<nat>, scope: string, base: nat)
    ensures Flatten(pre + [e], parent, scope, base) ==
      Flatten(pre, parent, scope, base) + EntryTasks(e, parent, scope, base + Count(pre))
  {
    var e1 := pre + [e];
    assert e1[..|e1| - 1] == pre;
    assert e1[|e1| - 1] == e;
    FlattenUnfold(e1, parent, scope, base);
  }

  lemma FlattenUnfold(es: seq<Entry>, parent: Option<nat>, scope: string, base: nat)
    requires es != []
    ensures Flatten(es, parent, scope, base) ==
      Flatten(es[..|es| - 1], parent, scope, base) + EntryTasks(es[|es| - 1], parent, scope, base + Count(es[..|es| - 1]))
  {
  }

  /** The tasks created for one entry whose own task gets position `at`
      (task_module.py:47-64): a multitask with no formula whose children are
      the tasks of its entries, or a single task whose formula is the value. */
  function EntryTasks(e: Entry, parent: Option<nat>, scope: string, at: nat): (r: seq<Task>)
    ensures |r| == CountEntry(e)
  {
    var name := Qualify(scope, e.key);
    match e.value
    case Leaf(f) => [NewTask(name, Single, Some(f), parent)]
    case Nested(sub) =>
      [NewTask(name, Multitask, None, parent).(children := TopIndices(sub, at + 1))]
      + Flatten(sub, Some(at), name, at + 1)
  }

  /** The positions, shifted by `offset`, of the tasks of `s` whose parent is
      `parent`, in creation order. */
  ghost function Members(s: seq<Task>, parent: Option<nat>, offset: nat): seq<nat> {
    if s == [] then []
    else Members(s[..|s| - 1], parent, offset) + (if s[|s| - 1].parent == parent then [offset + |s| - 1] else [])
  }

  lemma MembersUnfold(s: seq<Task>, parent: Option<nat>, offset: nat)
    requires s != []
    ensures Members(s, parent, offset) ==
      Members(s[..|s| - 1], parent, offset) + (if s[|s| - 1].parent == parent then [offset + |s| - 1] else [])
  {
  }

  /** `Members` lists exactly the tasks with that parent, in increasing order. */
  lemma {:induction false} MembersSpec(s: seq<Task>, parent: Option<nat>, offset: nat)
    ensures forall x :: x in Members(s, parent, offset) <==>
      offset <= x < offset + |s| && s[x - offset].parent == parent
    ensures Increasing(Members(s, parent, offset))
    decreases |s|
  {
    if s != [] {
      var init := s[..|s| - 1];
      MembersSpec(init, parent, offset);
      var r0 := Members(init, parent, offset);
      assert forall i :: 0 <= i < |r0| ==> r0[i] in r0;
    }
  }

  /** A parent none of whose tasks appear has no members. */
  lemma {:induction false} NoMembers(s: seq<Task>, parent: Option<nat>, offset: nat)
    requires forall k :: 0 <= k < |s| ==> s[k].parent != parent
    ensures Members(s, parent, offset) == []
    decreases |s|
  {
    if s != [] {
      NoMembers(s[..|s| - 1], parent, offset);
    }
  }

  /** Members depend on nothing but the parent links. */
  lemma {:induction false} MembersFrame(s: seq<Task>, t: seq<Task>, parent: Option<nat>, offset: nat)
    requires |s| == |t| && forall k :: 0 <= k < |s| ==> s[k].parent == t[k].parent
    ensures Members(s, parent, offset) == Members(t, parent, offset)
    decreases |s|
  {
    if s != [] {
      MembersFrame(s[..|s| - 1], t[..|t| - 1], parent, offset);
    }
  }

  /** Every link a task holds points into a store of `n` tasks. */
  predicate LinksBelow(t: Task, n: nat) {
    && (t.parent.Some? ==> t.parent.value < n)
    && (forall x :: x in t.children ==> x < n)
    && (forall x :: x in t.siblings ==> x < n)
    && (forall x :: x in t.parents ==> x < n)
    && (forall x :: x in t.dependencies ==> x < n)
    && (forall x :: x in t.objectDependencies ==> x < n)
  }

  ghost predicate Linked(s: seq<Task>) {
    forall i :: 0 <= i < |s| ==> LinksBelow(s[i], |s|)
  }

  /** A task is created after its parent, so a parent has a smaller position. */
  ghost predicate ParentsBefore(s: seq<Task>) {
    forall i :: 0 <= i < |s| && s[i].parent.Some? ==> s[i].parent.value < i
  }

  ghost predicate ParentIsMultitask(s: seq<Task>, i: nat)
    requires i < |s| && ParentsBefore(s)
  {
    s[i].parent.Some? ==> s[s[i].parent.value].kind == Multitask
  }

  /** A store that the parent links organise into a tree: parents come first
      and are multitasks, a task's `children` are exactly the tasks whose
      parent it is, in creation order, and a task has a formula exactly when
      it is a single task. */
  ghost predicate TreeShaped(s: seq<Task>) {
    && ParentsBefore(s)
    && (forall i :: 0 <= i < |s| ==> ParentIsMultitask(s, i))
    && (forall i :: 0 <= i < |s| ==> s[i].children == Members(s, Some(i), 0))
    && (forall i :: 0 <= i < |s| ==> (s[i].kind == Single <==> s[i].formula.Some?))
  }

  /** No two tasks share a scoped name. */
  ghost predicate UniqueNames(s: seq<Task>) {
    forall i, j :: 0 <= i < |s| && 0 <= j < |s| && i != j ==> s[i].name != s[j].name
  }
}
