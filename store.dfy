/**
 * The invariant that ties the dictionary `tasks`, its key order and the
 * entry point of a `TaskGraph` (task_module.py:39-42) to its store of
 * tasks, and the ways of changing the store that keep it.
 */
module Store {
  import opened Wrappers
  import opened Tasks
  import opened Growth

  /** The store is linked and parents come first; the dictionary and its
      key order are those that storing the tasks under their names in
      creation order produces; the entry point is a single task keyed
      "main". */
  ghost predicate Consistent(s: seq<Task>, tasks: map<string, nat>, order: seq<string>, main: Option<nat>) {
    && Linked(s) && ParentsBefore(s)
    && tasks == NameIndex(Labels(s))
    && order == FirstNames(Labels(s))
    && (forall k :: 0 <= k < |order| ==> order[k] in tasks && tasks[order[k]] < |s|)
    && (main.Some? ==> main.value < |s| && IsEntry(Labels(s)[main.value]))
  }

  /** The values of a dictionary listed in the order of `keys`. */
  function Lookup(tasks: map<string, nat>, keys: seq<string>): (r: seq<nat>)
    requires forall k :: 0 <= k < |keys| ==> keys[k] in tasks
    ensures |r| == |keys| && forall k :: 0 <= k < |keys| ==> r[k] == tasks[keys[k]]
  {
    if keys == [] then [] else Lookup(tasks, keys[..|keys| - 1]) + [tasks[keys[|keys| - 1]]]
  }

  /** Storing a new task under its name keeps the graph consistent. */
  lemma StoreKeeps(s: seq<Task>, tasks: map<string, nat>, order: seq<string>, main: Option<nat>, t: Task)
    requires Consistent(s, tasks, order, main) && LinksBelow(t, |s|)
    ensures Consistent(s + [t], tasks[t.name := |s|], if t.name in tasks then order else order + [t.name], main)
  {
    AppendKeepsLinks(s, t);
    LabelsSnoc(s, t);
    DictionaryStep(Labels(s), (t.name, t.kind), Labels(s + [t]));
  }

  lemma AppendKeepsLinks(s: seq<Task>, t: Task)
    requires Linked(s) && ParentsBefore(s) && LinksBelow(t, |s|)
    ensures Linked(s + [t]) && ParentsBefore(s + [t])
  {
    var u := s + [t];
    forall j | 0 <= j < |u| ensures LinksBelow(u[j], |u|) {
      if j < |s| {
        assert u[j] == s[j] && LinksBelow(s[j], |s|);
      }
    }
  }

  lemma DictionaryStep(ls: seq<Label>, l: Label, ls': seq<Label>)
    requires ls' == ls + [l]
    ensures NameIndex(ls') == NameIndex(ls)[l.0 := |ls|]
    ensures FirstNames(ls') == if l.0 in NameIndex(ls) then FirstNames(ls) else FirstNames(ls) + [l.0]
  {
    assert ls'[..|ls|] == ls;
  }

  /** Replacing a task by one with the same parent and links into the
      store keeps the store linked and parents first. */
  lemma UpdateKeepsLinks(s: seq<Task>, i: nat, t: Task)
    requires Linked(s) && ParentsBefore(s) && i < |s|
    requires LinksBelow(t, |s|) && t.parent == s[i].parent
    ensures Linked(s[i := t]) && ParentsBefore(s[i := t])
  {
    var u := s[i := t];
    forall j | 0 <= j < |u| ensures LinksBelow(u[j], |u|) {
      if j != i {
        assert u[j] == s[j];
      }
    }
  }

  /** Replacing a task by one with the same name and kind keeps the labels. */
  lemma UpdateKeepsLabels(s: seq<Task>, i: nat, t: Task)
    requires i < |s| && t.name == s[i].name && t.kind == s[i].kind
    ensures Labels(s[i := t]) == Labels(s)
  {
    LabelsAgree(s[i := t], s);
  }

  /** Replacing a task by one with the same name, kind and parent, whose
      links stay inside the store, keeps the graph consistent. */
  lemma UpdateKeeps(s: seq<Task>, tasks: map<string, nat>, order: seq<string>, main: Option<nat>, i: nat, t: Task)
    requires Consistent(s, tasks, order, main) && i < |s| && LinksBelow(t, |s|)
    requires t.name == s[i].name && t.kind == s[i].kind && t.parent == s[i].parent
    ensures Consistent(s[i := t], tasks, order, main)
  {
    UpdateKeepsLinks(s, i, t);
    UpdateKeepsLabels(s, i, t);
  }

  /** Recording a stored single task keyed "main" as the entry point keeps
      the graph consistent. */
  lemma EntryKeeps(s: seq<Task>, tasks: map<string, nat>, order: seq<string>, main: Option<nat>, i: nat)
    requires Consistent(s, tasks, order, main) && i < |s| && IsEntry((s[i].name, s[i].kind))
    ensures Consistent(s, tasks, order, Some(i))
  {
  }
}
