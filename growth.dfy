/**
 * What the recursive tree builder does to the store, described without
 * mutation: the name dictionary it fills, the entry point it records and
 * the store it grows.
 */
module Growth {
  import opened Wrappers
  import opened Text
  import opened Config
  import opened Tasks

  /** The part of a task the dictionary and the entry point look at. */
  type Label = (string, Kind)

  ghost function Labels(s: seq<Task>): (r: seq<Label>)
    ensures |r| == |s| && forall i :: 0 <= i < |s| ==> r[i] == (s[i].name, s[i].kind)
  {
    seq(|s|, i requires 0 <= i < |s| => (s[i].name, s[i].kind))
  }

  /** The dictionary `tasks` after storing the tasks of `ls` in order under
      their names (task_module.py:53,62): a later task with the same name
      replaces the earlier one. */
  ghost function NameIndex(ls: seq<Label>): map<string, nat> {
    if ls == [] then map[]
    else NameIndex(ls[..|ls| - 1])[ls[|ls| - 1].0 := |ls| - 1]
  }

  /** Every stored name is a key, and a key maps to the last task stored
      under it. */
  lemma {:induction false} NameIndexSpec(ls: seq<Label>)
    ensures forall i :: 0 <= i < |ls| ==> ls[i].0 in NameIndex(ls)
    ensures forall n :: n in NameIndex(ls) ==>
      NameIndex(ls)[n] < |ls| && ls[NameIndex(ls)[n]].0 == n &&
      forall j :: NameIndex(ls)[n] < j < |ls| ==> ls[j].0 != n
    decreases |ls|
  {
    if ls != [] {
      var init := ls[..|ls| - 1];
      NameIndexSpec(init);
      assert forall j :: 0 <= j < |init| ==> init[j] == ls[j];
    }
  }

  /** The keys of that dictionary in insertion order: a replaced entry keeps
      its first position. */
  ghost function FirstNames(ls: seq<Label>): seq<string> {
    if ls == [] then []
    else
      var init := ls[..|ls| - 1];
      FirstNames(init) + (if ls[|ls| - 1].0 in NameIndex(init) then [] else [ls[|ls| - 1].0])
  }

  /** The dictionary order lists each key exactly once. */
  lemma {:induction false} FirstNamesSpec(ls: seq<Label>)
    ensures forall n :: n in FirstNames(ls) <==> n in NameIndex(ls)
    ensures forall i, j :: 0 <= i < j < |FirstNames(ls)| ==> FirstNames(ls)[i] != FirstNames(ls)[j]
    decreases |ls|
  {
    if ls != [] {
      FirstNamesSpec(ls[..|ls| - 1]);
    }
  }

  ghost predicate UniqueLabels(ls: seq<Label>) {
    forall i, j :: 0 <= i < |ls| && 0 <= j < |ls| && i != j ==> ls[i].0 != ls[j].0
  }

  /** With distinct names the dictionary holds every task, in creation order. */
  lemma {:induction false} UniqueIndex(ls: seq<Label>)
    requires UniqueLabels(ls)
    ensures |FirstNames(ls)| == |ls|
    ensures forall i :: 0 <= i < |ls| ==>
      FirstNames(ls)[i] == ls[i].0 && ls[i].0 in NameIndex(ls) && NameIndex(ls)[ls[i].0] == i
    decreases |ls|
  {
    if ls != [] {
      var init, last := ls[..|ls| - 1], ls[|ls| - 1];
      assert forall j :: 0 <= j < |init| ==> init[j] == ls[j];
      assert UniqueLabels(init);
      UniqueIndex(init);
      NameIndexSpec(init);
      var m := NameIndex(init);
      assert last.0 !in m;
      assert NameIndex(ls) == m[last.0 := |ls| - 1];
    }
  }

  /** A single task whose key is "main": the test of task_module.py:63,
      read off the scoped name (for dot-free keys the last segment is the key). */
  predicate IsEntry(l: Label) {
    l.1 == Single && LastSegment(l.0) == "main"
  }

  /** `main_entry_point` after creating the tasks from position `from` on,
      starting from `init`: the last entry among them, or `init`. */
  ghost function LatestEntry(ls: seq<Label>, from: nat, init: Option<nat>): (r: Option<nat>)
    ensures r == init || (r.Some? && from <= r.value < |ls| && IsEntry(ls[r.value]))
    ensures forall j :: from <= j < |ls| && IsEntry(ls[j]) ==> r.Some? && j <= r.value < |ls| && IsEntry(ls[r.value])
    decreases |ls|
  {
    if |ls| <= from then init
    else if IsEntry(ls[|ls| - 1]) then Some(|ls| - 1)
    else
      var init_ := ls[..|ls| - 1];
      assert forall j :: 0 <= j < |init_| ==> init_[j] == ls[j];
      LatestEntry(init_, from, init)
  }

  /** Recording entries in two stretches is recording them in one. */
  lemma {:induction false} LatestEntryCompose(ls: seq<Label>, a: nat, b: nat, m: Option<nat>)
    requires a <= b <= |ls|
    ensures LatestEntry(ls, b, LatestEntry(ls[..b], a, m)) == LatestEntry(ls, a, m)
    decreases |ls|
  {
    if b < |ls| {
      var init := ls[..|ls| - 1];
      assert init[..b] == ls[..b];
      LatestEntryCompose(init, a, b, m);
    } else {
      assert ls[..b] == ls;
    }
  }

  /** A task with its (soon overwritten) siblings cleared. */
  function Shape(t: Task): Task {
    t.(siblings := [])
  }

  ghost predicate SameShape(a: seq<Task>, b: seq<Task>) {
    |a| == |b| && forall i :: 0 <= i < |a| ==> Shape(a[i]) == Shape(b[i])
  }

  lemma ShapeRefl(a: seq<Task>)
    ensures SameShape(a, a)
  {
  }

  lemma ShapeLabels(a: seq<Task>, b: seq<Task>)
    requires SameShape(a, b)
    ensures Labels(a) == Labels(b)
  {
    forall i | 0 <= i < |a| ensures a[i].name == b[i].name && a[i].kind == b[i].kind {
      assert Shape(a[i]) == Shape(b[i]);
    }
  }

  lemma ShapeAppend(a: seq<Task>, b: seq<Task>, c: seq<Task>)
    requires SameShape(a, b)
    ensures SameShape(a + c, b + c)
  {
    forall i | 0 <= i < |a + c| ensures Shape((a + c)[i]) == Shape((b + c)[i]) {
      if i >= |a| {
        assert (a + c)[i] == c[i - |a|] == (b + c)[i];
      }
    }
  }

  /** Appending `ids` to the children of `parent` (`add_child`, task_module.py:20-21). */
  function Adopt(s: seq<Task>, parent: Option<nat>, ids: seq<nat>): (r: seq<Task>)
    ensures |r| == |s|
  {
    if parent.Some? && parent.value < |s| then
      s[parent.value := s[parent.value].(children := s[parent.value].children + ids)]
    else s
  }

  lemma AdoptShape(a: seq<Task>, b: seq<Task>, parent: Option<nat>, ids: seq<nat>)
    requires SameShape(a, b)
    ensures SameShape(Adopt(a, parent, ids), Adopt(b, parent, ids))
  {
    if parent.Some? && parent.value < |a| {
      var p := parent.value;
      assert Shape(a[p]) == Shape(b[p]);
    }
  }

  lemma AdoptAppend(a: seq<Task>, c: seq<Task>, parent: Option<nat>, ids: seq<nat>)
    requires parent.None? || parent.value < |a|
    ensures Adopt(a + c, parent, ids) == Adopt(a, parent, ids) + c
  {
  }

  lemma AdoptTwice(s: seq<Task>, parent: Option<nat>, ids1: seq<nat>, ids2: seq<nat>)
    ensures Adopt(Adopt(s, parent, ids1), parent, ids2) == Adopt(s, parent, ids1 + ids2)
  {
    if parent.Some? && parent.value < |s| {
      var p := parent.value;
      assert s[p].children + ids1 + ids2 == s[p].children + (ids1 + ids2);
    }
  }

  /** The store after the tree builder has processed the entries `es` under
      `parent` and `scope`, starting from store `old_`: the parent has
      adopted the top-level tasks of `es`, and all the new tasks follow. */
  function Grown(old_: seq<Task>, es: seq<Entry>, parent: Option<nat>, scope: string): seq<Task> {
    Adopt(old_, parent, TopIndices(es, |old_|)) + Flatten(es, parent, scope, |old_|)
  }

  /** Processing one more entry. */
  lemma GrownStep(o: seq<Task>, pre: seq<Entry>, e: Entry, parent: Option<nat>, scope: string)
    requires parent.None? || parent.value < |o|
    ensures Grown(o, pre + [e], parent, scope) ==
      Adopt(Grown(o, pre, parent, scope), parent, [|o| + Count(pre)])
      + EntryTasks(e, parent, scope, |o| + Count(pre))
  {
    var at := |o| + Count(pre);
    var ids, f, b := TopIndices(pre, |o|), Flatten(pre, parent, scope, |o|), EntryTasks(e, parent, scope, at);
    GrownSnoc(o, pre, e, parent, scope);
    AdoptConcat(o, ids, at, f, b, parent);
  }

  /** `Grown` with one more entry, spelled out before the adoption is split. */
  lemma GrownSnoc(o: seq<Task>, pre: seq<Entry>, e: Entry, parent: Option<nat>, scope: string)
    ensures Grown(o, pre + [e], parent, scope) ==
      Adopt(o, parent, TopIndices(pre, |o|) + [|o| + Count(pre)])
      + (Flatten(pre, parent, scope, |o|) + EntryTasks(e, parent, scope, |o| + Count(pre)))
  {
    var ids, at := TopIndices(pre, |o|), |o| + Count(pre);
    var a := Adopt(o, parent, TopIndices(pre + [e], |o|));
    TopIndicesSnoc(pre, e, |o|);
    assert a == Adopt(o, parent, ids + [at]);
    FlattenSnoc(pre, e, parent, scope, |o|);
  }

  lemma TopIndicesSnoc(pre: seq<Entry>, e: Entry, base: nat)
    ensures TopIndices(pre + [e], base) == TopIndices(pre, base) + [base + Count(pre)]
  {
    var e1 := pre + [e];
    assert e1[..|e1| - 1] == pre;
    TopIndicesUnfold(e1, base);
  }

  /** Adopting `ids` and then `at` before a tail `f` and block `b` is
      adopting them in two steps around `f`. */
  lemma AdoptConcat(o: seq<Task>, ids: seq<nat>, at: nat, f: seq<Task>, b: seq<Task>, parent: Option<nat>)
    requires parent.None? || parent.value < |o|
    ensures Adopt(o, parent, ids + [at]) + (f + b) == Adopt(Adopt(o, parent, ids) + f, parent, [at]) + b
  {
    AdoptTwice(o, parent, ids, [at]);
    AdoptAppend(Adopt(o, parent, ids), f, parent, [at]);
  }

  /** A multitask followed by its own subtree is what `EntryTasks` describes. */
  lemma GrownNested(o: seq<Task>, e: Entry, parent: Option<nat>, scope: string)
    requires e.value.Nested?
    ensures
      var name := Qualify(scope, e.key);
      Grown(o + [NewTask(name, Multitask, None, parent)], e.value.entries, Some(|o|), name)
        == o + EntryTasks(e, parent, scope, |o|)
  {
    var name := Qualify(scope, e.key);
    var node := NewTask(name, Multitask, None, parent);
    var sub := e.value.entries;
    var ids, tail := TopIndices(sub, |o| + 1), Flatten(sub, Some(|o|), name, |o| + 1);
    GrownAfterNode(o, node, sub, name);
    AdoptLast(o, node, ids);
    AppendAssoc(o, node.(children := ids), tail);
    EntryNested(e, parent, scope, |o|);
  }

  lemma EntryNested(e: Entry, parent: Option<nat>, scope: string, at: nat)
    requires e.value.Nested?
    ensures
      var name := Qualify(scope, e.key);
      EntryTasks(e, parent, scope, at) ==
        [NewTask(name, Multitask, None, parent).(children := TopIndices(e.value.entries, at + 1))]
        + Flatten(e.value.entries, Some(at), name, at + 1)
  {
  }

  lemma AppendAssoc(o: seq<Task>, t: Task, tail: seq<Task>)
    ensures (o + [t]) + tail == o + ([t] + tail)
  {
  }

  lemma GrownAfterNode(o: seq<Task>, node: Task, sub: seq<Entry>, name: string)
    ensures Grown(o + [node], sub, Some(|o|), name) ==
      Adopt(o + [node], Some(|o|), TopIndices(sub, |o| + 1)) + Flatten(sub, Some(|o|), name, |o| + 1)
  {
    assert |o + [node]| == |o| + 1;
  }

  lemma AdoptLast(o: seq<Task>, node: Task, ids: seq<nat>)
    requires node.children == []
    ensures Adopt(o + [node], Some(|o|), ids) == o + [node.(children := ids)]
  {
    assert node.children + ids == ids;
  }

  lemma LabelsSnoc(s: seq<Task>, t: Task)
    ensures Labels(s + [t]) == Labels(s) + [(t.name, t.kind)]
    ensures Labels(s + [t])[..|s|] == Labels(s)
  {
    assert Labels(s + [t]) == Labels(s) + [(t.name, t.kind)];
  }

  /** Stores that agree on names and kinds have the same labels. */
  lemma LabelsAgree(a: seq<Task>, b: seq<Task>)
    requires |a| == |b| && forall i :: 0 <= i < |a| ==> a[i].name == b[i].name && a[i].kind == b[i].kind
    ensures Labels(a) == Labels(b)
  {
  }

  lemma ShapeTrans(a: seq<Task>, b: seq<Task>, c: seq<Task>)
    requires SameShape(a, b) && SameShape(b, c)
    ensures SameShape(a, c)
  {
  }

  /** One pass of the builder's loop (task_module.py:45-67): the tasks of the
      entry are appended and the parent adopts the entry's own task. */
  lemma ShapeStep(o: seq<Task>, pre: seq<Entry>, e: Entry, parent: Option<nat>, scope: string,
                  cur: seq<Task>, next: seq<Task>)
    requires parent.None? || parent.value < |o|
    requires SameShape(cur, Grown(o, pre, parent, scope))
    requires SameShape(next, cur + EntryTasks(e, parent, scope, |cur|))
    ensures SameShape(Adopt(next, parent, [|cur|]), Grown(o, pre + [e], parent, scope))
  {
    var g, at := Grown(o, pre, parent, scope), |cur|;
    var block := EntryTasks(e, parent, scope, at);
    GrownStep(o, pre, e, parent, scope);
    assert |g| == |o| + Count(pre);
    assert Grown(o, pre + [e], parent, scope) == Adopt(g, parent, [at]) + block;
    AdoptBlockShape(cur, next, g, block, parent, at);
  }

  /** Adopting the new task keeps the shapes of two stores in step. */
  lemma AdoptBlockShape(cur: seq<Task>, next: seq<Task>, g: seq<Task>, block: seq<Task>, parent: Option<nat>, at: nat)
    requires parent.None? || parent.value < |cur|
    requires SameShape(cur, g) && SameShape(next, cur + block)
    ensures SameShape(Adopt(next, parent, [at]), Adopt(g, parent, [at]) + block)
  {
    AdoptAppend(cur, block, parent, [at]);
    AdoptShape(next, cur + block, parent, [at]);
    AdoptShape(cur, g, parent, [at]);
    ShapeAppend(Adopt(cur, parent, [at]), Adopt(g, parent, [at]), block);
    ShapeTrans(Adopt(next, parent, [at]), Adopt(cur, parent, [at]) + block, Adopt(g, parent, [at]) + block);
  }

  /** What the store holds after a nested entry's subtree has been built:
      the earlier tasks keep their names and kinds, and the entry's own
      task, a multitask, follows them. */
  lemma NestedPrefix(cur: seq<Task>, after: seq<Task>, e: Entry, parent: Option<nat>, scope: string)
    requires e.value.Nested?
    requires SameShape(after, cur + EntryTasks(e, parent, scope, |cur|))
    ensures |cur| < |after| && after[|cur|].kind == Multitask
    ensures forall j :: 0 <= j < |cur| ==> after[j].name == cur[j].name && after[j].kind == cur[j].kind
  {
    var block := EntryTasks(e, parent, scope, |cur|);
    EntryNested(e, parent, scope, |cur|);
    assert (cur + block)[|cur|] == block[0];
    assert Shape(after[|cur|]) == Shape(block[0]);
    forall j | 0 <= j < |cur| ensures after[j].name == cur[j].name && after[j].kind == cur[j].kind {
      assert Shape(after[j]) == Shape((cur + block)[j]);
    }
  }

  /** Creating one more task records it as the entry point exactly when it
      is an entry. */
  lemma EntryAfterLeaf(cur: seq<Task>, after: seq<Task>, from: nat, m: Option<nat>)
    requires from <= |cur| && |after| == |cur| + 1
    requires forall j :: 0 <= j < |cur| ==> after[j].name == cur[j].name && after[j].kind == cur[j].kind
    ensures LatestEntry(Labels(after), from, m) ==
      if IsEntry(Labels(after)[|cur|]) then Some(|cur|) else LatestEntry(Labels(cur), from, m)
  {
    var ls, lc := Labels(after), Labels(cur);
    assert ls[..|cur|] == lc by {
      forall j | 0 <= j < |cur| ensures ls[j] == lc[j] {
      }
    }
    if !IsEntry(ls[|cur|]) {
      assert LatestEntry(ls, from, m) == LatestEntry(ls[..|ls| - 1], from, m);
    }
  }

  /** The entry point after one more block of tasks, found from where the
      block starts, is the one found over both stretches. */
  lemma EntryAfter(cur: seq<Task>, after: seq<Task>, block: seq<Task>, from: nat, m: Option<nat>)
    requires from <= |cur| && SameShape(after, cur + block)
    ensures LatestEntry(Labels(after), |cur|, LatestEntry(Labels(cur), from, m)) == LatestEntry(Labels(after), from, m)
  {
    var ls := Labels(after);
    LatestEntryCompose(ls, from, |cur|, m);
    assert ls[..|cur|] == Labels(cur) by {
      forall j | 0 <= j < |cur| ensures ls[j] == Labels(cur)[j] {
        assert Shape(after[j]) == Shape((cur + block)[j]);
      }
    }
  }

  /** A multitask is never the entry point, so the entries recorded while
      building its subtree continue those recorded before it. */
  lemma EntryAfterNested(cur: seq<Task>, after: seq<Task>, from: nat, m: Option<nat>)
    requires from <= |cur| < |after| && after[|cur|].kind == Multitask
    requires forall j :: 0 <= j < |cur| ==> after[j].name == cur[j].name && after[j].kind == cur[j].kind
    ensures LatestEntry(Labels(after), |cur| + 1, LatestEntry(Labels(cur), from, m)) == LatestEntry(Labels(after), from, m)
  {
    var ls, at := Labels(after), |cur|;
    LatestEntryCompose(ls, from, at + 1, m);
    var pre := ls[..at + 1];
    assert pre[..at] == Labels(cur);
    assert !IsEntry(pre[at]);
  }
}
