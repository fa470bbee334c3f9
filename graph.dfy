/**
 * `TaskGraph` (task_module.py:39-152): the dictionary of tasks by scoped
 * name, the entry point, and the passes that build the tree, settle the
 * relationships and add the dependency edges.
 */
module Graph {
  import opened Wrappers
  import opened Text
  import opened Config
  import opened Tasks
  import opened TreeShape
  import opened Relations
  import opened Resolution
  import opened Formula
  import opened Edges
  import opened Growth
  import opened Dependencies
  import opened Store

  /** A task with every field that the relationship and dependency passes
      fill cleared: what the tree builder alone decides. */
  function Skeleton(t: Task): Task {
    t.(siblings := [], parents := [], dependencies := [], objectDependencies := [])
  }

  /** Task `t` is task `i` of `o` after the dependency pass: only its two
      edge lists have grown, each by the targets of its formula's names. */
  ghost predicate Wired(o: seq<Task>, i: nat, t: Task)
    requires Linked(o) && ParentsBefore(o) && i < |o|
  {
    && t == o[i].(dependencies := t.dependencies, objectDependencies := t.objectDependencies)
    && Grew(o[i].dependencies, t.dependencies, Targets(o, i, Plain(o[i].formula)))
    && Grew(o[i].objectDependencies, t.objectDependencies, Targets(o, i, Objects(o[i].formula)))
  }

  /** The edge lists of task `i` hold exactly the targets of its formula's
      names, each once. */
  ghost predicate EdgesResolved(s: seq<Task>, i: nat)
    requires Linked(s) && ParentsBefore(s) && i < |s|
  {
    && Elems(s[i].dependencies) == Targets(s, i, Plain(s[i].formula))
    && NoDuplicates(s[i].dependencies)
    && Elems(s[i].objectDependencies) == Targets(s, i, Objects(s[i].formula))
    && NoDuplicates(s[i].objectDependencies)
  }

  /** One of a task's two edge lists: `object_dependencies` when
      `toObjects`, `dependencies` otherwise. */
  function EdgeList(t: Task, toObjects: bool): seq<nat> {
    if toObjects then t.objectDependencies else t.dependencies
  }

  /** The task with the selected edge list replaced by `l`. */
  function WithEdges(t: Task, toObjects: bool, l: seq<nat>): Task {
    if toObjects then t.(objectDependencies := l) else t.(dependencies := l)
  }

  /** `s` is `o` after edges were added to the selected list of task `i`
      only: that list grew by `added`, and nothing else changed. */
  ghost predicate EdgesGrown(o: seq<Task>, s: seq<Task>, i: nat, toObjects: bool, added: set<nat>) {
    && i < |o| && |s| == |o|
    && (forall j :: 0 <= j < |s| && j != i ==> s[j] == o[j])
    && s[i] == WithEdges(o[i], toObjects, EdgeList(s[i], toObjects))
    && Grew(EdgeList(o[i], toObjects), EdgeList(s[i], toObjects), added)
  }

  lemma EdgesGrownStart(o: seq<Task>, i: nat, toObjects: bool)
    requires i < |o|
    ensures EdgesGrown(o, o, i, toObjects, {})
  {
    GrewNothing(EdgeList(o[i], toObjects));
  }

  /** Inserting one more edge grows the selected list by that edge. */
  lemma EdgesGrownStep(o: seq<Task>, cur: seq<Task>, i: nat, toObjects: bool, added: set<nat>, d: nat)
    requires EdgesGrown(o, cur, i, toObjects, added)
    ensures EdgesGrown(o, cur[i := WithEdges(cur[i], toObjects, Inserted(EdgeList(cur[i], toObjects), d))],
                       i, toObjects, added + {d})
  {
    var l := EdgeList(cur[i], toObjects);
    InsertedGrew(l, d);
    GrewTwice(EdgeList(o[i], toObjects), l, Inserted(l, d), added, {d});
  }

  /** Adding edges leaves everything resolution reads alone. */
  lemma EdgesGrownLinks(o: seq<Task>, s: seq<Task>, i: nat, toObjects: bool, added: set<nat>)
    requires EdgesGrown(o, s, i, toObjects, added)
    ensures SameLinks(o, s)
  {
  }

  /** Resolving name `n` while edges are being added gives the same task
      as resolving it in the store before, and extends the targets found
      so far by that task. */
  lemma ResolvedStep(o: seq<Task>, cur: seq<Task>, i: nat, toObjects: bool, done: set<string>, n: string)
    requires Linked(o) && ParentsBefore(o) && Linked(cur) && ParentsBefore(cur)
    requires i < |o| && EdgesGrown(o, cur, i, toObjects, Targets(o, i, done))
    ensures Resolve(cur, i, n).Some? ==> Resolve(cur, i, n).value < |cur|
    ensures Targets(o, i, done + {n}) ==
      Targets(o, i, done) + (if Resolve(cur, i, n).Some? then {Resolve(cur, i, n).value} else {})
  {
    EdgesGrownLinks(o, cur, i, toObjects, Targets(o, i, done));
    ResolveFrame(o, cur, i, n);
    ResolveSpec(cur, i, n);
    TargetsAdd(o, i, done, n);
  }

  /** The two edge passes over task `i` together wire it as `Wired` says,
      measured against the store before the dependency pass. */
  lemma WiredStep(o: seq<Task>, cur: seq<Task>, mid: seq<Task>, next: seq<Task>, i: nat)
    requires Linked(o) && ParentsBefore(o) && Linked(cur) && ParentsBefore(cur)
    requires Linked(mid) && ParentsBefore(mid) && i < |o|
    requires SameLinks(o, cur) && cur[i] == o[i]
    requires EdgesGrown(cur, mid, i, false, Targets(cur, i, Plain(o[i].formula)))
    requires EdgesGrown(mid, next, i, true, Targets(mid, i, Objects(o[i].formula)))
    ensures |next| == |o| && SameLinks(o, next) && Wired(o, i, next[i])
    ensures forall j :: 0 <= j < |next| && j != i ==> next[j] == cur[j]
  {
    EdgesGrownLinks(cur, mid, i, false, Targets(cur, i, Plain(o[i].formula)));
    EdgesGrownLinks(mid, next, i, true, Targets(mid, i, Objects(o[i].formula)));
    TargetsFrame(o, cur, i, Plain(o[i].formula));
    TargetsFrame(o, mid, i, Objects(o[i].formula));
  }

  /** The first `k` tasks of `s` are wired and the rest are as in `o`. */
  ghost predicate WiredBelow(o: seq<Task>, s: seq<Task>, k: nat) {
    && Linked(o) && ParentsBefore(o) && |s| == |o| && k <= |o|
    && (forall j :: 0 <= j < k ==> Wired(o, j, s[j]))
    && (forall j :: k <= j < |o| ==> s[j] == o[j])
  }

  lemma WiredBelowStep(o: seq<Task>, s: seq<Task>, t: seq<Task>, k: nat)
    requires WiredBelow(o, s, k) && k < |o| && |t| == |s|
    requires Wired(o, k, t[k]) && forall j :: 0 <= j < |t| && j != k ==> t[j] == s[j]
    ensures WiredBelow(o, t, k + 1)
  {
  }

  /** One more member of `group` takes the others as siblings. */
  lemma SiblingsStep(o: seq<Task>, cur: seq<Task>, group: seq<nat>, k: nat)
    requires k < |group| && group[k] < |o| == |cur|
    requires forall i :: 0 <= i < |cur| ==>
      cur[i] == if i in group[..k] then o[i].(siblings := Without(group, i)) else o[i]
    ensures var g := group[k];
      forall i :: 0 <= i < |o| ==>
        cur[g := cur[g].(siblings := Without(group, g))][i]
          == if i in group[..k + 1] then o[i].(siblings := Without(group, i)) else o[i]
  {
    var g := group[k];
    var next := cur[g := cur[g].(siblings := Without(group, g))];
    forall i | 0 <= i < |o|
      ensures next[i] == if i in group[..k + 1] then o[i].(siblings := Without(group, i)) else o[i]
    {
      InTakeOneMore(group, k, i);
    }
  }

  lemma InTakeOneMore(group: seq<nat>, k: nat, x: nat)
    requires k < |group|
    ensures x in group[..k + 1] <==> x in group[..k] || x == group[k]
  {
    assert group[..k + 1] == group[..k] + [group[k]];
  }

  /** One turn of the loop of `parse`: the tasks of entry `k` followed by
      its adoption extend what the earlier entries built to what the first
      `k + 1` entries build, and the entry point found so far carries on. */
  lemma ParseStep(o: seq<Task>, es: seq<Entry>, k: nat, parent: Option<nat>, scope: string, m0: Option<nat>,
                  cur: seq<Task>, next: seq<Task>, after: seq<Task>, main: Option<nat>)
    requires k < |es| && (parent.Some? ==> parent.value < |o|) && |o| <= |cur|
    requires SameShape(cur, Grown(o, es[..k], parent, scope))
    requires SameShape(next, cur + EntryTasks(es[k], parent, scope, |cur|))
    requires main == LatestEntry(Labels(next), |cur|, LatestEntry(Labels(cur), |o|, m0))
    requires after == Adopt(next, parent, [|cur|])
    ensures SameShape(after, Grown(o, es[..k + 1], parent, scope))
    ensures main == LatestEntry(Labels(after), |o|, m0)
  {
    TakeOneMore(es, k);
    ShapeStep(o, es[..k], es[k], parent, scope, cur, next);
    EntryStep(cur, next, EntryTasks(es[k], parent, scope, |cur|), after, parent, |o|, m0, main);
  }

  /** The entry point found in the tasks of one entry carries over once the
      parent has adopted the entry's task. */
  lemma EntryStep(cur: seq<Task>, next: seq<Task>, block: seq<Task>, after: seq<Task>, parent: Option<nat>,
                  from: nat, m0: Option<nat>, main: Option<nat>)
    requires from <= |cur| && SameShape(next, cur + block)
    requires main == LatestEntry(Labels(next), |cur|, LatestEntry(Labels(cur), from, m0))
    requires after == Adopt(next, parent, [|cur|])
    ensures main == LatestEntry(Labels(after), from, m0)
  {
    EntryAfter(cur, next, block, from, m0);
    AdoptLabels(next, parent, [|cur|]);
  }

  /** Adoption changes no name and no kind. */
  lemma AdoptLabels(s: seq<Task>, parent: Option<nat>, ids: seq<nat>)
    ensures Labels(Adopt(s, parent, ids)) == Labels(s)
  {
    var a := Adopt(s, parent, ids);
    forall i | 0 <= i < |s| ensures a[i].name == s[i].name && a[i].kind == s[i].kind {
    }
    LabelsAgree(a, s);
  }

  /** What the tree builder leaves, given a store `f` of freshly created
      tasks forming a tree with distinct names: the same tree, up to the
      siblings set on the way, whose top-level tasks have no `parents` and
      whose tasks have no edges. */
  lemma ShapeKeepsTree(s: seq<Task>, f: seq<Task>)
    requires TreeShaped(f) && Fresh(f) && UniqueNames(f) && SameShape(s, f)
    ensures TreeShaped(s) && RootsBare(s) && UniqueNames(s)
    ensures forall i :: 0 <= i < |s| ==> s[i].dependencies == [] && s[i].objectDependencies == []
    ensures forall i :: 0 <= i < |s| ==> Skeleton(s[i]) == Skeleton(f[i])
  {
    forall i | 0 <= i < |s|
      ensures s[i] == f[i].(siblings := s[i].siblings) && FreshTask(f[i])
    {
      assert Shape(s[i]) == Shape(f[i]) && f[i] in f;
    }
    assert ParentsBefore(s);
    forall i | 0 <= i < |s| ensures s[i].children == Members(s, Some(i), 0) {
      MembersFrame(s, f, Some(i), 0);
    }
    forall i | 0 <= i < |s| ensures ParentIsMultitask(s, i) {
      assert ParentIsMultitask(f, i);
    }
  }

  /** The relationship pass changes only siblings and `parents`. */
  lemma RelatedSkeleton(s: seq<Task>, t: seq<Task>)
    requires ParentsBefore(s) && |t| == |s| && forall i :: 0 <= i < |s| ==> t[i] == Related(s, i)
    ensures forall i :: 0 <= i < |t| ==> Skeleton(t[i]) == Skeleton(s[i])
  {
  }

  /** The relationship pass renames nothing. */
  lemma RelatedKeepsNames(s: seq<Task>, t: seq<Task>)
    requires ParentsBefore(s) && |t| == |s| && forall i :: 0 <= i < |s| ==> t[i] == Related(s, i)
    requires UniqueNames(s)
    ensures UniqueNames(t)
  {
    RelatedSkeleton(s, t);
    forall i, j | 0 <= i < |t| && 0 <= j < |t| && i != j ensures t[i].name != t[j].name {
      assert Skeleton(t[i]) == Skeleton(s[i]) && Skeleton(t[j]) == Skeleton(s[j]);
    }
  }

  /** `t` is `s` with only edge lists changed. */
  ghost predicate EdgesOnly(s: seq<Task>, t: seq<Task>) {
    |s| == |t| &&
    forall i :: 0 <= i < |s| ==>
      t[i] == s[i].(dependencies := t[i].dependencies, objectDependencies := t[i].objectDependencies)
  }

  lemma WiredEdgesOnly(s: seq<Task>, t: seq<Task>)
    requires Linked(s) && ParentsBefore(s) && |t| == |s|
    requires forall i :: 0 <= i < |s| ==> Wired(s, i, t[i])
    ensures EdgesOnly(s, t) && SameLinks(s, t)
  {
  }

  /** Filling edge lists keeps the tree. */
  lemma EdgesKeepShape(s: seq<Task>, t: seq<Task>)
    requires EdgesOnly(s, t) && TreeShaped(s)
    ensures TreeShaped(t) && forall i :: 0 <= i < |t| ==> Skeleton(t[i]) == Skeleton(s[i])
  {
    assert ParentsBefore(t);
    forall i | 0 <= i < |t|
      ensures t[i].children == Members(t, Some(i), 0) && ParentIsMultitask(t, i)
    {
      MembersFrame(s, t, Some(i), 0);
      assert ParentIsMultitask(s, i);
    }
  }

  /** Filling edge lists keeps the relationships settled. */
  lemma EdgesKeepSettled(s: seq<Task>, t: seq<Task>)
    requires EdgesOnly(s, t) && ParentsBefore(s) && SiblingsSettled(s) && ParentsSettled(s)
    ensures ParentsBefore(t) && SiblingsSettled(t) && ParentsSettled(t)
  {
    assert ParentsBefore(t);
    forall i | 0 <= i < |t|
      ensures t[i].siblings == Without(Members(t, t[i].parent, 0), i)
      ensures t[i].parents == Ancestors(t, i)
    {
      MembersFrame(s, t, s[i].parent, 0);
      AncestorsFrame(s, t, i);
    }
  }

  /** A task that had no edges before the dependency pass ends with edge
      lists that hold exactly the targets of its names, each once. */
  lemma WiredResolved(s: seq<Task>, t: seq<Task>, i: nat)
    requires Linked(s) && ParentsBefore(s) && Linked(t) && ParentsBefore(t) && SameLinks(s, t) && i < |s|
    requires s[i].dependencies == [] && s[i].objectDependencies == [] && Wired(s, i, t[i])
    ensures EdgesResolved(t, i)
  {
    TargetsFrame(s, t, i, Plain(s[i].formula));
    TargetsFrame(s, t, i, Objects(s[i].formula));
    assert Elems([]) == {};
  }

  /** The two passes over the tree built from `f`: the end result keeps
      the tree, has its relationships settled, and each task's edges are
      exactly what its names resolve to. */
  lemma PassesOutcome(f: seq<Task>, built: seq<Task>, related: seq<Task>, wired: seq<Task>)
    requires TreeShaped(f) && Fresh(f) && UniqueNames(f) && SameShape(built, f) && Linked(built)
    requires ParentsBefore(built) && |related| == |built|
    requires forall i :: 0 <= i < |built| ==> related[i] == Related(built, i)
    requires Linked(related) && ParentsBefore(related) && |wired| == |related| && Linked(wired) && ParentsBefore(wired)
    requires forall i :: 0 <= i < |related| ==> Wired(related, i, wired[i])
    ensures TreeShaped(wired) && SiblingsSettled(wired) && ParentsSettled(wired)
    ensures forall i :: 0 <= i < |wired| ==> Skeleton(wired[i]) == Skeleton(f[i])
    ensures forall i :: 0 <= i < |wired| ==> EdgesResolved(wired, i)
  {
    RelatedOutcome(f, built, related);
    WiredOutcome(related, wired);
  }

  /** After the relationship pass over the tree built from `f`. */
  lemma RelatedOutcome(f: seq<Task>, built: seq<Task>, related: seq<Task>)
    requires TreeShaped(f) && Fresh(f) && UniqueNames(f) && SameShape(built, f) && Linked(built)
    requires ParentsBefore(built) && |related| == |built|
    requires forall i :: 0 <= i < |built| ==> related[i] == Related(built, i)
    ensures TreeShaped(related) && SiblingsSettled(related) && ParentsSettled(related)
    ensures forall i :: 0 <= i < |related| ==>
      Skeleton(related[i]) == Skeleton(f[i]) && related[i].dependencies == [] && related[i].objectDependencies == []
  {
    ShapeKeepsTree(built, f);
    RelatedSettles(built, related);
    RelatedSkeleton(built, related);
  }

  /** After the dependency pass over a settled tree without edges. */
  lemma WiredOutcome(related: seq<Task>, wired: seq<Task>)
    requires TreeShaped(related) && SiblingsSettled(related) && ParentsSettled(related) && Linked(related)
    requires forall i :: 0 <= i < |related| ==> related[i].dependencies == [] && related[i].objectDependencies == []
    requires |wired| == |related| && Linked(wired) && ParentsBefore(wired)
    requires forall i :: 0 <= i < |related| ==> Wired(related, i, wired[i])
    ensures TreeShaped(wired) && SiblingsSettled(wired) && ParentsSettled(wired)
    ensures forall i :: 0 <= i < |wired| ==> Skeleton(wired[i]) == Skeleton(related[i])
    ensures forall i :: 0 <= i < |wired| ==> EdgesResolved(wired, i)
  {
    WiredEdgesOnly(related, wired);
    EdgesKeepShape(related, wired);
    EdgesKeepSettled(related, wired);
    forall i | 0 <= i < |wired| ensures EdgesResolved(wired, i) {
      WiredResolved(related, wired, i);
    }
  }

  /** The tree built from a well-formed mapping has distinct names. */
  lemma BuiltNames(es: seq<Entry>, built: seq<Task>)
    requires WellFormed(es) && SameShape(built, Grown([], es, None, ""))
    ensures UniqueNames(built)
  {
    var f := Flatten(es, None, "", 0);
    assert Grown([], es, None, "") == f;
    FlattenNames(es, None, "", 0);
    forall i, j | 0 <= i < |built| && 0 <= j < |built| && i != j ensures built[i].name != built[j].name {
      assert Shape(built[i]) == Shape(f[i]) && Shape(built[j]) == Shape(f[j]);
    }
  }

  /** What a top-level `parse` of a well-formed mapping ends with, from
      the store `built` by the tree builder, `related` after the
      relationship pass and `wired` after the dependency pass. */
  lemma ParseOutcome(es: seq<Entry>, built: seq<Task>, related: seq<Task>, wired: seq<Task>, main: Option<nat>)
    requires WellFormed(es) && SameShape(built, Grown([], es, None, "")) && Linked(built) && ParentsBefore(built)
    requires |related| == |built| && forall i :: 0 <= i < |built| ==> related[i] == Related(built, i)
    requires Linked(related) && ParentsBefore(related) && |wired| == |related| && Linked(wired) && ParentsBefore(wired)
    requires forall i :: 0 <= i < |related| ==> Wired(related, i, wired[i])
    requires main == LatestEntry(Labels(built), 0, None)
    ensures |wired| == Count(es)
    ensures forall i :: 0 <= i < |wired| ==> Skeleton(wired[i]) == Skeleton(Flatten(es, None, "", 0)[i])
    ensures TreeShaped(wired) && SiblingsSettled(wired) && ParentsSettled(wired)
    ensures forall i :: 0 <= i < |wired| ==> EdgesResolved(wired, i)
    ensures main.None? <==> forall i :: 0 <= i < |wired| ==> !IsEntry(Labels(wired)[i])
    ensures main.Some? ==>
      main.value < |wired| && IsEntry(Labels(wired)[main.value]) &&
      forall i :: main.value < i < |wired| ==> !IsEntry(Labels(wired)[i])
  {
    var f := Flatten(es, None, "", 0);
    assert Grown([], es, None, "") == f;
    FlattenTreeShaped(es);
    FlattenNames(es, None, "", 0);
    PassesOutcome(f, built, related, wired);
    forall i | 0 <= i < |wired| ensures wired[i].name == built[i].name && wired[i].kind == built[i].kind {
      assert Shape(built[i]) == Shape(f[i]);
    }
    LabelsAgree(wired, built);
  }

  class TaskGraph {
    /** Every task created, in creation order; a task is its position here. */
    var nodes: seq<Task>
    /** `self.tasks`: scoped name to task. */
    var tasks: map<string, nat>
    /** The keys of `self.tasks` in insertion order. */
    var order: seq<string>
    /** `self.main_entry_point`. */
    var mainEntryPoint: Option<nat>

    /** The store is linked, parents come first, the dictionary is the one
        the creation order produces, and the entry point is an entry. */
    ghost predicate Valid()
      reads this
    {
      Consistent(nodes, tasks, order, mainEntryPoint)
    }

    /** `TaskGraph()` (task_module.py:40-42). */
    constructor ()
      ensures Valid()
      ensures nodes == [] && tasks == map[] && order == [] && mainEntryPoint == None
    {
      nodes, tasks, order, mainEntryPoint := [], map[], [], None;
    }

    /** `self.tasks.values()`, in dictionary order. */
    ghost function Values(): (r: seq<nat>)
      reads this
      requires Valid()
      ensures |r| == |order| && forall k :: 0 <= k < |r| ==> r[k] < |nodes|
    {
      Lookup(tasks, order)
    }

    /** `list(self.tasks.values())` (task_module.py:75). */
    method ListValues() returns (vals: seq<nat>)
      requires Valid()
      ensures vals == Values()
    {
      vals := [];
      for k := 0 to |order|
        invariant vals == Lookup(tasks, order[..k])
      {
        assert order[..k + 1][..k] == order[..k];
        vals := vals + [tasks[order[k]]];
      }
      assert order[..|order|] == order;
    }

    /** With distinct names the dictionary lists every task once, in
        creation order. */
    lemma ValuesUnique()
      requires Valid() && UniqueNames(nodes)
      ensures Values() == Range(|nodes|)
      ensures forall i :: 0 <= i < |nodes| ==> nodes[i].name in tasks && tasks[nodes[i].name] == i
    {
      var ls := Labels(nodes);
      assert UniqueLabels(ls);
      UniqueIndex(ls);
    }

    /** `self.tasks[scoped_name] = task` for a task just created
        (task_module.py:52-53, 61-62): the task joins the store, the name now
        maps to it, and a new name is appended to the dictionary order. */
    method Store(t: Task)
      modifies this
      requires Valid() && LinksBelow(t, |nodes|)
      ensures Valid()
      ensures nodes == old(nodes) + [t]
      ensures tasks == old(tasks)[t.name := |old(nodes)|]
      ensures order == if t.name in old(tasks) then old(order) else old(order) + [t.name]
      ensures mainEntryPoint == old(mainEntryPoint)
    {
      StoreKeeps(nodes, tasks, order, mainEntryPoint, t);
      nodes, tasks, order := nodes + [t], tasks[t.name := |nodes|], if t.name in tasks then order else order + [t.name];
    }

    /** Replaces task `i` by `u`, which keeps its name, kind and parent. */
    method Put(i: nat, u: Task)
      modifies this
      requires Valid() && i < |nodes| && LinksBelow(u, |nodes|)
      requires u.name == nodes[i].name && u.kind == nodes[i].kind && u.parent == nodes[i].parent
      ensures Valid() && nodes == old(nodes)[i := u]
      ensures tasks == old(tasks) && order == old(order) && mainEntryPoint == old(mainEntryPoint)
    {
      UpdateKeeps(nodes, tasks, order, mainEntryPoint, i, u);
      nodes := nodes[i := u];
    }

    /** `parent.add_child(task)` (task_module.py:20-21). */
    method AddChild(p: nat, c: nat)
      modifies this
      requires Valid() && p < |nodes| && c < |nodes|
      ensures Valid()
      ensures nodes == Adopt(old(nodes), Some(p), [c])
      ensures tasks == old(tasks) && order == old(order) && mainEntryPoint == old(mainEntryPoint)
    {
      var t := nodes[p];
      var u := t.(children := t.children + [c]);
      assert LinksBelow(t, |nodes|);
      Put(p, u);
    }

    /** `if parent: parent.add_child(task)` (task_module.py:66-67). */
    method AdoptChild(parent: Option<nat>, c: nat)
      modifies this
      requires Valid() && (parent.Some? ==> parent.value < |nodes|) && c < |nodes|
      ensures Valid()
      ensures nodes == Adopt(old(nodes), parent, [c])
      ensures tasks == old(tasks) && order == old(order) && mainEntryPoint == old(mainEntryPoint)
    {
      if parent.Some? {
        AddChild(parent.value, c);
      }
    }

    /** `task.add_dependency(d)` (task_module.py:23-25). */
    method AddDependency(i: nat, d: nat)
      modifies this
      requires Valid() && i < |nodes| && d < |nodes|
      ensures Valid()
      ensures nodes == old(nodes)[i := old(nodes)[i].(dependencies := Inserted(old(nodes)[i].dependencies, d))]
      ensures tasks == old(tasks) && order == old(order) && mainEntryPoint == old(mainEntryPoint)
    {
      var t := nodes[i];
      if d !in t.dependencies {
        var u := t.(dependencies := t.dependencies + [d]);
        assert LinksBelow(t, |nodes|);
        Put(i, u);
      } else {
        assert nodes[i := t] == nodes;
      }
    }

    /** `task.add_object_dependency(d)` (task_module.py:27-29). */
    method AddObjectDependency(i: nat, d: nat)
      modifies this
      requires Valid() && i < |nodes| && d < |nodes|
      ensures Valid()
      ensures nodes == old(nodes)[i := old(nodes)[i].(objectDependencies := Inserted(old(nodes)[i].objectDependencies, d))]
      ensures tasks == old(tasks) && order == old(order) && mainEntryPoint == old(mainEntryPoint)
    {
      var t := nodes[i];
      if d !in t.objectDependencies {
        var u := t.(objectDependencies := t.objectDependencies + [d]);
        assert LinksBelow(t, |nodes|);
        Put(i, u);
      } else {
        assert nodes[i := t] == nodes;
      }
    }

    /** `task.set_relationships()` (task_module.py:15-18): a task with a
        parent takes the parent's other children as siblings and the
        parent's `parents` followed by the parent; a top-level task is left
        alone. */
    method SetRelationships(i: nat)
      modifies this
      requires Valid() && i < |nodes|
      ensures Valid()
      ensures old(nodes)[i].parent.None? ==> nodes == old(nodes)
      ensures old(nodes)[i].parent.Some? ==>
        var p := old(nodes)[i].parent.value;
        nodes == old(nodes)[i := old(nodes)[i].(siblings := Without(old(nodes)[p].children, i),
                                                parents := old(nodes)[p].parents + [p])]
      ensures tasks == old(tasks) && order == old(order) && mainEntryPoint == old(mainEntryPoint)
    {
      var t := nodes[i];
      if t.parent.Some? {
        var p := t.parent.value;
        assert LinksBelow(nodes[p], |nodes|) && LinksBelow(t, |nodes|);
        var u := t.(siblings := Without(nodes[p].children, i), parents := nodes[p].parents + [p]);
        Put(i, u);
      }
    }

    /** `for t in group: t.siblings = [s for s in group if s != t]`
        (task_module.py:57-58, 83-84). */
    method SetSiblingsAmong(group: seq<nat>)
      modifies this
      requires Valid() && forall x :: x in group ==> x < |nodes|
      ensures Valid()
      ensures |nodes| == |old(nodes)|
      ensures forall i :: 0 <= i < |nodes| ==>
        nodes[i] == if i in group then old(nodes)[i].(siblings := Without(group, i)) else old(nodes)[i]
      ensures SameShape(nodes, old(nodes))
      ensures tasks == old(tasks) && order == old(order) && mainEntryPoint == old(mainEntryPoint)
    {
      ghost var o := nodes;
      for k := 0 to |group|
        invariant Valid() && |nodes| == |o|
        invariant forall i :: 0 <= i < |nodes| ==>
          nodes[i] == if i in group[..k] then o[i].(siblings := Without(group, i)) else o[i]
        invariant tasks == old(tasks) && order == old(order) && mainEntryPoint == old(mainEntryPoint)
      {
        var i := group[k];
        assert i in group;
        var t := nodes[i];
        var u := t.(siblings := Without(group, i));
        assert LinksBelow(t, |nodes|);
        SiblingsStep(o, nodes, group, k);
        Put(i, u);
      }
      assert group[..|group|] == group;
    }

    /** `set_all_relationships()` (task_module.py:77-84): every task is
        relinked to its parent in dictionary order, then every top-level
        task takes the other top-level tasks as siblings. */
    method SetAllRelationships()
      modifies this
      requires Valid() && UniqueNames(nodes)
      ensures Valid()
      ensures |nodes| == |old(nodes)| && forall i :: 0 <= i < |nodes| ==> nodes[i] == Related(old(nodes), i)
      ensures tasks == old(tasks) && order == old(order) && mainEntryPoint == old(mainEntryPoint)
    {
      var vals := ListValues();
      ValuesUnique();
      ghost var o := nodes;
      for k := 0 to |vals|
        invariant Valid() && |nodes| == |o|
        invariant forall j :: 0 <= j < k ==> nodes[j] == Relinked(o, j)
        invariant forall j :: k <= j < |o| ==> nodes[j] == o[j]
        invariant tasks == old(tasks) && order == old(order) && mainEntryPoint == old(mainEntryPoint)
      {
        assert vals[k] == k;
        ghost var cur := nodes;
        SetRelationships(vals[k]);
        RelinkStep(o, cur, nodes, k);
      }
      ghost var mid := nodes;
      var top := WithParent(nodes, vals, None);
      TopLevelMembers(o, mid);
      SetSiblingsAmong(top);
      TopLevelRelated(o, mid, top, nodes);
    }

    /** The first of `cands` whose name ends with `name` (the loops over
        siblings at task_module.py:105-107, 116-118). */
    method FirstAmong(cands: seq<nat>, name: string) returns (r: Option<nat>)
      requires Valid() && forall k :: 0 <= k < |cands| ==> cands[k] < |nodes|
      ensures r == FirstMatch(nodes, cands, name)
    {
      for k := 0 to |cands|
        invariant FirstMatch(nodes, cands, name) == FirstMatch(nodes, cands[k..], name)
      {
        if EndsWith(nodes[cands[k]].name, name) {
          return Some(cands[k]);
        }
        assert cands[k..][1..] == cands[k + 1..];
      }
      return None;
    }

    /** `_resolve_dependency(task, dep_name)` (task_module.py:103-123). */
    method ResolveDependency(t: nat, name: string) returns (r: Option<nat>)
      requires Valid() && t < |nodes|
      ensures r == Resolve(nodes, t, name)
    {
      ResolveSplit(nodes, t, name);
      r := FirstAmong(nodes[t].siblings, name);
      if r.Some? {
        return;
      }
      var parent: Option<nat> := nodes[t].parent;
      while parent.Some?
        invariant parent.Some? ==> parent.value < |nodes|
        invariant Resolve(nodes, t, name) == FirstMatch(nodes, Climb(nodes, parent), name)
        decreases if parent.Some? then parent.value + 1 else 0
      {
        var p := parent.value;
        ClimbStep(nodes, p, name);
        if EndsWith(nodes[p].name, name) {
          return Some(p);
        }
        r := FirstAmong(nodes[p].siblings, name);
        if r.Some? {
          return;
        }
        parent := nodes[p].parent;
      }
      return None;
    }

    /** `task.add_dependency(d)` or `task.add_object_dependency(d)`, as
        `toObjects` selects. */
    method AddEdge(i: nat, d: nat, toObjects: bool)
      modifies this
      requires Valid() && i < |nodes| && d < |nodes|
      ensures Valid()
      ensures nodes == old(nodes)[i := WithEdges(old(nodes)[i], toObjects, Inserted(EdgeList(old(nodes)[i], toObjects), d))]
      ensures tasks == old(tasks) && order == old(order) && mainEntryPoint == old(mainEntryPoint)
    {
      if toObjects {
        AddObjectDependency(i, d);
      } else {
        AddDependency(i, d);
      }
    }

    /** Resolves one name from task `i` and adds the task found, if any,
        to the selected edge list (task_module.py:92-95, 98-101). */
    method AddTarget(i: nat, n: string, toObjects: bool, ghost o: seq<Task>, ghost done: set<string>)
      modifies this
      requires Valid() && Linked(o) && ParentsBefore(o)
      requires i < |o| && EdgesGrown(o, nodes, i, toObjects, Targets(o, i, done))
      ensures Valid() && EdgesGrown(o, nodes, i, toObjects, Targets(o, i, done + {n}))
      ensures var d := Resolve(old(nodes), i, n);
        nodes == if d.Some? then old(nodes)[i := WithEdges(old(nodes)[i], toObjects, Inserted(EdgeList(old(nodes)[i], toObjects), d.value))]
                 else old(nodes)
      ensures tasks == old(tasks) && order == old(order) && mainEntryPoint == old(mainEntryPoint)
    {
      var r := ResolveDependency(i, n);
      ResolvedStep(o, nodes, i, toObjects, done, n);
      if r.Some? {
        ghost var before := nodes;
        AddEdge(i, r.value, toObjects);
        EdgesGrownStep(o, before, i, toObjects, Targets(o, i, done), r.value);
      }
    }

    /** Resolves every name and adds each task found to the dependency list
        of task `i` (task_module.py:90-95), or to its object dependency
        list (task_module.py:96-101). The names are taken in no particular
        order, as a set is iterated; a name that resolves to nothing is
        skipped. */
    method AddResolved(i: nat, names: set<string>, toObjects: bool)
      modifies this
      requires Valid() && i < |nodes|
      ensures Valid()
      ensures EdgesGrown(old(nodes), nodes, i, toObjects, Targets(old(nodes), i, names))
      ensures tasks == old(tasks) && order == old(order) && mainEntryPoint == old(mainEntryPoint)
    {
      ghost var o := nodes;
      EdgesGrownStart(o, i, toObjects);
      var rest := names;
      ghost var done: set<string> := {};
      while rest != {}
        invariant done + rest == names && done !! rest
        invariant Valid() && EdgesGrown(o, nodes, i, toObjects, Targets(o, i, done))
        invariant tasks == old(tasks) && order == old(order) && mainEntryPoint == old(mainEntryPoint)
        decreases rest
      {
        var n :| n in rest;
        AddTarget(i, n, toObjects, o, done);
        done, rest := done + {n}, rest - {n};
      }
    }

    /** The body of the loop of `set_all_dependencies()`
        (task_module.py:88-101) for task `i`: a task with a non-empty
        formula has the names in it found and resolved, and the targets
        added to its two edge lists; any other task is left alone. */
    method WireTask(i: nat, ghost o: seq<Task>)
      modifies this
      requires Valid() && Linked(o) && ParentsBefore(o)
      requires i < |o| && SameLinks(o, nodes) && nodes[i] == o[i]
      ensures Valid() && SameLinks(o, nodes) && Wired(o, i, nodes[i])
      ensures forall j :: 0 <= j < |nodes| && j != i ==> nodes[j] == old(nodes)[j]
      ensures tasks == old(tasks) && order == old(order) && mainEntryPoint == old(mainEntryPoint)
    {
      ghost var cur := nodes;
      var f := nodes[i].formula;
      if f.Some? && f.value != "" {
        var dependencies, objectDependencies := FindDependencies(f.value);
        AddResolved(i, dependencies, false);
        ghost var mid := nodes;
        AddResolved(i, objectDependencies, true);
        WiredStep(o, cur, mid, nodes, i);
      } else {
        EdgesGrownStart(cur, i, false);
        EdgesGrownStart(cur, i, true);
        WiredStep(o, cur, cur, cur, i);
      }
    }

    /** `set_all_dependencies()` (task_module.py:86-101): every task with a
        non-empty formula gets an edge to each task its plain names and its
        object names resolve to; every other field is left alone. */
    method SetAllDependencies()
      modifies this
      requires Valid() && UniqueNames(nodes)
      ensures Valid() && |nodes| == |old(nodes)|
      ensures forall i :: 0 <= i < |nodes| ==> Wired(old(nodes), i, nodes[i])
      ensures tasks == old(tasks) && order == old(order) && mainEntryPoint == old(mainEntryPoint)
    {
      var vals := ListValues();
      ValuesUnique();
      ghost var o := nodes;
      assert vals == Range(|o|);
      for k := 0 to |vals|
        invariant Valid() && SameLinks(o, nodes) && WiredBelow(o, nodes, k)
        invariant tasks == old(tasks) && order == old(order) && mainEntryPoint == old(mainEntryPoint)
      {
        var i := vals[k];
        ghost var cur := nodes;
        WireTask(i, o);
        WiredBelowStep(o, cur, nodes, k);
      }
    }

    /** `parse(data)` on a new graph (task_module.py:44-75, as
        `create_task_graph_from_json` calls it): the tree is built, then
        every task is related to its parent and its fellows, then the
        dependency edges are added. Every task is stored under its own
        scoped name and listed once, in creation order; the tree is the one
        `Flatten` describes; siblings and `parents` are settled; each task's
        edge lists hold exactly what its formula's names resolve to; and
        the entry point is the last single task keyed "main", or none. */
    method Parse(es: seq<Entry>) returns (all: seq<nat>)
      modifies this
      requires Valid() && nodes == [] && WellFormed(es)
      ensures Valid() && |nodes| == Count(es)
      ensures UniqueNames(nodes) && all == Range(|nodes|)
      ensures forall i :: 0 <= i < |nodes| ==> nodes[i].name in tasks && tasks[nodes[i].name] == i
      ensures forall i :: 0 <= i < |nodes| ==> Skeleton(nodes[i]) == Skeleton(Flatten(es, None, "", 0)[i])
      ensures TreeShaped(nodes) && SiblingsSettled(nodes) && ParentsSettled(nodes)
      ensures forall i :: 0 <= i < |nodes| ==> EdgesResolved(nodes, i)
      ensures mainEntryPoint.None? <==> forall i :: 0 <= i < |nodes| ==> !IsEntry(Labels(nodes)[i])
      ensures mainEntryPoint.Some? ==>
        IsEntry(Labels(nodes)[mainEntryPoint.value]) &&
        forall i :: mainEntryPoint.value < i < |nodes| ==> !IsEntry(Labels(nodes)[i])
    {
      var _ := ParseEntries(es, None, "");
      ghost var built := nodes;
      BuiltNames(es, built);
      SetAllRelationships();
      ghost var related := nodes;
      RelatedKeepsNames(built, related);
      SetAllDependencies();
      ParseOutcome(es, built, related, nodes, mainEntryPoint);
      all := ListValues();
      ValuesUnique();
    }

    /** `get_entry_point()` (task_module.py:148-149). */
    method GetEntryPoint() returns (r: Option<nat>)
      requires Valid()
      ensures r == mainEntryPoint
      ensures r.Some? ==> r.value < |nodes| && nodes[r.value].kind == Single && LastSegment(nodes[r.value].name) == "main"
    {
      r := mainEntryPoint;
    }

    /** The loop of `parse(data, parent, scope)` (task_module.py:45-67, 75):
        each entry becomes its tasks, and its own task is adopted by
        `parent`. Up to the siblings, the store grows exactly as `Grown`
        describes, and the entry point is the last single task keyed
        "main" created, if any. */
    method ParseEntries(es: seq<Entry>, parent: Option<nat>, scope: string) returns (all: seq<nat>)
      modifies this
      requires Valid() && WellFormed(es) && (parent.Some? ==> parent.value < |nodes|)
      ensures Valid()
      ensures SameShape(nodes, Grown(old(nodes), es, parent, scope))
      ensures mainEntryPoint == LatestEntry(Labels(nodes), |old(nodes)|, old(mainEntryPoint))
      ensures all == Values()
      decreases Count(es), 2
    {
      ghost var o, m0 := nodes, mainEntryPoint;
      assert es[..0] == [];
      for k := 0 to |es|
        invariant Valid() && |o| <= |nodes|
        invariant SameShape(nodes, Grown(o, es[..k], parent, scope))
        invariant mainEntryPoint == LatestEntry(Labels(nodes), |o|, m0)
      {
        WellFormedPrefix(es, k);
        CountMember(es, k);
        ghost var cur := nodes;
        var at := |nodes|;
        ParseEntry(es[k], parent, scope);
        ghost var next := nodes;
        AdoptChild(parent, at);
        ParseStep(o, es, k, parent, scope, m0, cur, next, nodes, mainEntryPoint);
      }
      assert es[..|es|] == es;
      all := ListValues();
    }

    /** One entry of `parse` (task_module.py:47-64) without the adoption by
        its parent. */
    method ParseEntry(e: Entry, parent: Option<nat>, scope: string)
      modifies this
      requires Valid() && WellFormedEntry(e) && (parent.Some? ==> parent.value < |nodes|)
      ensures Valid()
      ensures SameShape(nodes, old(nodes) + EntryTasks(e, parent, scope, |old(nodes)|))
      ensures mainEntryPoint == LatestEntry(Labels(nodes), |old(nodes)|, old(mainEntryPoint))
      ensures e.value.Leaf? ==> nodes == old(nodes) + EntryTasks(e, parent, scope, |old(nodes)|)
      ensures e.value.Nested? ==> forall j :: j in Values() ==> nodes[j].siblings == Without(Values(), j)
      decreases CountEntry(e), 1
    {
      if e.value.Nested? {
        ParseNested(e, parent, scope);
      } else {
        ghost var cur, m0 := nodes, mainEntryPoint;
        assert LatestEntry(Labels(cur), |cur|, m0) == m0;
        ParseLeaf(e, parent, scope);
        LastSegmentOfQualify(scope, e.key);
        EntryAfterLeaf(cur, nodes, |cur|, m0);
        ShapeRefl(nodes);
      }
    }

    /** A mapping value (task_module.py:49-58): a multitask with no
        formula, stored under its scoped name, whose entries are parsed
        beneath it. The list the nested parse returns is every value of the
        dictionary (task_module.py:75), not only the nested tasks, so every
        task the dictionary lists then gets all the others as siblings.
        The multitask itself never becomes the entry point; only single
        tasks among its entries can. */
    method ParseNested(e: Entry, parent: Option<nat>, scope: string)
      modifies this
      requires Valid() && WellFormedEntry(e) && e.value.Nested? && (parent.Some? ==> parent.value < |nodes|)
      ensures Valid()
      ensures SameShape(nodes, old(nodes) + EntryTasks(e, parent, scope, |old(nodes)|))
      ensures mainEntryPoint == LatestEntry(Labels(nodes), |old(nodes)|, old(mainEntryPoint))
      ensures forall j :: j in Values() ==> nodes[j].siblings == Without(Values(), j)
      decreases CountEntry(e), 0
    {
      ghost var cur, m0 := nodes, mainEntryPoint;
      assert LatestEntry(Labels(cur), |cur|, m0) == m0;
      var name := Qualify(scope, e.key);
      var at := |nodes|;
      var task := NewTask(name, Multitask, None, parent);
      Store(task);
      var childTasks := ParseEntries(e.value.entries, Some(at), name);
      ghost var built := nodes;
      SetSiblingsAmong(childTasks);
      GrownNested(cur, e, parent, scope);
      ShapeTrans(nodes, built, cur + EntryTasks(e, parent, scope, at));
      ShapeLabels(nodes, built);
      NestedPrefix(cur, nodes, e, parent, scope);
      EntryAfterNested(cur, nodes, at, m0);
    }

    /** Any other value (task_module.py:59-64): a single task whose formula
        is the value, stored under its scoped name, and the entry point
        when its key is "main". */
    method ParseLeaf(e: Entry, parent: Option<nat>, scope: string)
      modifies this
      requires Valid() && WellFormedEntry(e) && e.value.Leaf? && (parent.Some? ==> parent.value < |nodes|)
      ensures Valid()
      ensures nodes == old(nodes) + EntryTasks(e, parent, scope, |old(nodes)|)
      ensures mainEntryPoint == if e.key == "main" then Some(|old(nodes)|) else old(mainEntryPoint)
    {
      var name := Qualify(scope, e.key);
      var task := NewTask(name, Single, Some(e.value.formula), parent);
      LastSegmentOfQualify(scope, e.key);
      Store(task);
      if e.key == "main" {
        EntryKeeps(nodes, tasks, order, mainEntryPoint, |nodes| - 1);
        mainEntryPoint := Some(|nodes| - 1);
      }
    }
  }

  /** `create_task_graph_from_json(json_data)` (task_module.py:155-158): a
      new graph that has parsed the mapping. */
  method CreateTaskGraphFromJson(es: seq<Entry>) returns (g: TaskGraph)
    requires WellFormed(es)
    ensures fresh(g) && g.Valid() && |g.nodes| == Count(es) && UniqueNames(g.nodes)
    ensures forall i :: 0 <= i < |g.nodes| ==> g.nodes[i].name in g.tasks && g.tasks[g.nodes[i].name] == i
    ensures forall i :: 0 <= i < |g.nodes| ==> Skeleton(g.nodes[i]) == Skeleton(Flatten(es, None, "", 0)[i])
    ensures TreeShaped(g.nodes) && SiblingsSettled(g.nodes) && ParentsSettled(g.nodes)
    ensures forall i :: 0 <= i < |g.nodes| ==> EdgesResolved(g.nodes, i)
    ensures g.mainEntryPoint.None? <==> forall i :: 0 <= i < |g.nodes| ==> !IsEntry(Labels(g.nodes)[i])
    ensures g.mainEntryPoint.Some? ==>
      IsEntry(Labels(g.nodes)[g.mainEntryPoint.value]) &&
      forall i :: g.mainEntryPoint.value < i < |g.nodes| ==> !IsEntry(Labels(g.nodes)[i])
  {
    g := new TaskGraph();
    var _ := g.Parse(es);
  }
}
