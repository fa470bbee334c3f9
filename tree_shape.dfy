/**
 * What the tree builder's output looks like, proved on the pure description
 * `Flatten` of the tasks it creates: the parent links form a tree whose
 * `children` lists are exactly the tasks created under each multitask, in
 * mapping order, and (for a well-formed mapping) no two tasks share a
 * scoped name.
 */
module TreeShape {
  import opened Wrappers
  import opened Text
  import opened Config
  import opened Tasks

  /** The tasks of a block numbered from `base` have the block's `parent`
      or a multitask of the block created before them as their parent. */
  ghost predicate ParentsInBlock(b: seq<Task>, parent: Option<nat>, base: nat) {
    forall k :: 0 <= k < |b| ==> ParentInBlock(b, k, parent, base)
  }

  ghost predicate ParentInBlock(b: seq<Task>, k: nat, parent: Option<nat>, base: nat)
    requires k < |b|
  {
    b[k].parent == parent ||
    (b[k].parent.Some? && base <= b[k].parent.value < base + k && b[b[k].parent.value - base].kind == Multitask)
  }

  /** Within a block numbered from `base`, every task's `children` are the
      tasks of the block whose parent it is. */
  ghost predicate ChildrenExact(b: seq<Task>, base: nat) {
    forall k :: 0 <= k < |b| ==> ChildrenOf(b, k, base)
  }

  ghost predicate ChildrenOf(b: seq<Task>, k: nat, base: nat)
    requires k < |b|
  {
    b[k].children == Members(b, Some(base + k), base)
  }

  /** Freshly created tasks: a formula exactly on single tasks, and empty
      siblings, parents and dependency lists. */
  ghost predicate Fresh(b: seq<Task>) {
    forall t :: t in b ==> FreshTask(t)
  }

  ghost predicate FreshTask(t: Task) {
    && (t.kind == Single <==> t.formula.Some?)
    && t.siblings == [] && t.parents == []
    && t.dependencies == [] && t.objectDependencies == []
  }

  lemma {:induction false} MembersAppend(a: seq<Task>, b: seq<Task>, parent: Option<nat>, offset: nat, mid: nat)
    requires mid == offset + |a|
    ensures Members(a + b, parent, offset) == Members(a, parent, offset) + Members(b, parent, mid)
    decreases |b|
  {
    if b != [] {
      var b0, ab := b[..|b| - 1], a + b;
      assert ab[..|ab| - 1] == a + b0;
      assert ab[|ab| - 1] == b[|b| - 1];
      MembersUnfold(ab, parent, offset);
      MembersUnfold(b, parent, mid);
      MembersAppend(a, b0, parent, offset, mid);
    } else {
      assert a + b == a;
    }
  }

  /** The tasks of a block have parents below `base + |b|`, or `parent`. */
  lemma ParentsBelowEnd(b: seq<Task>, parent: Option<nat>, base: nat, x: nat)
    requires ParentsInBlock(b, parent, base)
    requires Some(x) != parent && (x < base || base + |b| <= x)
    ensures forall m :: 0 <= m < |b| ==> b[m].parent != Some(x)
  {
    forall m | 0 <= m < |b| ensures b[m].parent != Some(x) {
      assert ParentInBlock(b, m, parent, base);
    }
  }

  /** Two consecutive blocks under the same parent form one block. */
  lemma ConcatShape(b1: seq<Task>, b2: seq<Task>, parent: Option<nat>, base: nat, mid: nat)
    requires parent.None? || parent.value < base
    requires mid == base + |b1|
    requires ParentsInBlock(b1, parent, base) && ChildrenExact(b1, base)
    requires ParentsInBlock(b2, parent, mid) && ChildrenExact(b2, mid)
    ensures ParentsInBlock(b1 + b2, parent, base) && ChildrenExact(b1 + b2, base)
  {
    var b := b1 + b2;
    forall k | 0 <= k < |b|
      ensures ParentInBlock(b, k, parent, base)
    {
      if k < |b1| {
        assert ParentInBlock(b1, k, parent, base);
      } else {
        assert b[k] == b2[k - |b1|];
        assert ParentInBlock(b2, k - |b1|, parent, mid);
      }
    }
    forall k | 0 <= k < |b|
      ensures ChildrenOf(b, k, base)
    {
      ConcatChildren(b1, b2, parent, base, mid, k);
    }
  }

  lemma ConcatChildren(b1: seq<Task>, b2: seq<Task>, parent: Option<nat>, base: nat, mid: nat, k: nat)
    requires parent.None? || parent.value < base
    requires mid == base + |b1|
    requires ParentsInBlock(b1, parent, base) && ChildrenExact(b1, base)
    requires ParentsInBlock(b2, parent, mid) && ChildrenExact(b2, mid)
    requires k < |b1| + |b2|
    ensures ChildrenOf(b1 + b2, k, base)
  {
    MembersAppend(b1, b2, Some(base + k), base, mid);
    if k < |b1| {
      assert ChildrenOf(b1, k, base);
      ParentsBelowEnd(b2, parent, mid, base + k);
      NoMembers(b2, Some(base + k), mid);
    } else {
      assert (b1 + b2)[k] == b2[k - |b1|];
      assert ChildrenOf(b2, k - |b1|, mid);
      ParentsBelowEnd(b1, parent, base, base + k);
      NoMembers(b1, Some(base + k), base);
    }
  }

  /** The shape of the tasks created for one mapping. */
  lemma {:induction false} FlattenShape(es: seq<Entry>, parent: Option<nat>, scope: string, base: nat)
    requires parent.None? || parent.value < base
    ensures ParentsInBlock(Flatten(es, parent, scope, base), parent, base)
    ensures ChildrenExact(Flatten(es, parent, scope, base), base)
    ensures Members(Flatten(es, parent, scope, base), parent, base) == TopIndices(es, base)
    ensures Fresh(Flatten(es, parent, scope, base))
    decreases es
  {
    if es == [] {
      assert Flatten(es, parent, scope, base) == [];
    } else {
      var init, e := es[..|es| - 1], es[|es| - 1];
      var at := base + Count(init);
      var b1, b2 := Flatten(init, parent, scope, base), EntryTasks(e, parent, scope, at);
      FlattenUnfold(es, parent, scope, base);
      TopIndicesUnfold(es, base);
      assert Flatten(es, parent, scope, base) == b1 + b2;
      assert TopIndices(es, base) == TopIndices(init, base) + [at];
      FlattenShape(init, parent, scope, base);
      EntryShape(e, parent, scope, at);
      ConcatBlock(b1, b2, parent, base, at, TopIndices(init, base));
    }
  }

  /** Two consecutive blocks under the same parent, the second holding one
      task of that parent, form one block whose members gain that task. */
  lemma ConcatBlock(b1: seq<Task>, b2: seq<Task>, parent: Option<nat>, base: nat, mid: nat, top: seq<nat>)
    requires parent.None? || parent.value < base
    requires mid == base + |b1|
    requires ParentsInBlock(b1, parent, base) && ChildrenExact(b1, base)
    requires ParentsInBlock(b2, parent, mid) && ChildrenExact(b2, mid)
    requires Members(b1, parent, base) == top && Members(b2, parent, mid) == [mid]
    requires Fresh(b1) && Fresh(b2)
    ensures ParentsInBlock(b1 + b2, parent, base) && ChildrenExact(b1 + b2, base)
    ensures Members(b1 + b2, parent, base) == top + [mid]
    ensures Fresh(b1 + b2)
  {
    ConcatShape(b1, b2, parent, base, mid);
    MembersAppend(b1, b2, parent, base, mid);
  }

  /** The shape of the tasks created for one entry. */
  lemma {:induction false} EntryShape(e: Entry, parent: Option<nat>, scope: string, at: nat)
    requires parent.None? || parent.value < at
    ensures ParentsInBlock(EntryTasks(e, parent, scope, at), parent, at)
    ensures ChildrenExact(EntryTasks(e, parent, scope, at), at)
    ensures Members(EntryTasks(e, parent, scope, at), parent, at) == [at]
    ensures Fresh(EntryTasks(e, parent, scope, at))
    decreases e
  {
    var b := EntryTasks(e, parent, scope, at);
    match e.value
    case Leaf(_) =>
      assert ChildrenOf(b, 0, at);
    case Nested(sub) =>
      var name := Qualify(scope, e.key);
      var node := NewTask(name, Multitask, None, parent).(children := TopIndices(sub, at + 1));
      var bs := Flatten(sub, Some(at), name, at + 1);
      assert b == [node] + bs;
      FlattenShape(sub, Some(at), name, at + 1);
      HeadedBlock(node, bs, parent, at);
      FreshHeaded(node, bs);
  }

  lemma FreshHeaded(node: Task, bs: seq<Task>)
    requires FreshTask(node) && Fresh(bs)
    ensures Fresh([node] + bs)
  {
  }

  /** A multitask followed by the block of its own entries forms one block. */
  lemma HeadedBlock(node: Task, bs: seq<Task>, parent: Option<nat>, at: nat)
    requires parent.None? || parent.value < at
    requires node.parent == parent && node.kind == Multitask
    requires node.children == Members(bs, Some(at), at + 1)
    requires ParentsInBlock(bs, Some(at), at + 1) && ChildrenExact(bs, at + 1)
    ensures ParentsInBlock([node] + bs, parent, at)
    ensures ChildrenExact([node] + bs, at)
    ensures Members([node] + bs, parent, at) == [at]
  {
    HeadedMembers(node, bs, parent, at);
    HeadedParents(node, bs, parent, at);
    forall k | 0 <= k < |bs| + 1
      ensures ChildrenOf([node] + bs, k, at)
    {
      HeadedChildren(node, bs, parent, at, k);
    }
  }

  lemma HeadedMembers(node: Task, bs: seq<Task>, parent: Option<nat>, at: nat)
    requires parent.None? || parent.value < at
    requires node.parent == parent
    requires ParentsInBlock(bs, Some(at), at + 1)
    ensures Members([node] + bs, parent, at) == [at]
  {
    MembersAppend([node], bs, parent, at, at + 1);
    assert Members([node], parent, at) == [at];
    forall m | 0 <= m < |bs| ensures bs[m].parent != parent {
      assert ParentInBlock(bs, m, Some(at), at + 1);
    }
    NoMembers(bs, parent, at + 1);
  }

  lemma HeadedParents(node: Task, bs: seq<Task>, parent: Option<nat>, at: nat)
    requires node.parent == parent && node.kind == Multitask
    requires ParentsInBlock(bs, Some(at), at + 1)
    ensures ParentsInBlock([node] + bs, parent, at)
  {
    var b := [node] + bs;
    forall k | 0 <= k < |b|
      ensures ParentInBlock(b, k, parent, at)
    {
      if k > 0 {
        assert b[k] == bs[k - 1];
        assert ParentInBlock(bs, k - 1, Some(at), at + 1);
      }
    }
  }

  lemma HeadedChildren(node: Task, bs: seq<Task>, parent: Option<nat>, at: nat, k: nat)
    requires parent.None? || parent.value < at
    requires node.parent == parent
    requires node.children == Members(bs, Some(at), at + 1)
    requires ChildrenExact(bs, at + 1)
    requires k <= |bs|
    ensures ChildrenOf([node] + bs, k, at)
  {
    var b := [node] + bs;
    MembersAppend([node], bs, Some(at + k), at, at + 1);
    NoMembers([node], Some(at + k), at);
    assert Members(b, Some(at + k), at) == Members(bs, Some(at + k), at + 1);
    if k > 0 {
      assert b[k] == bs[k - 1];
      assert at + 1 + (k - 1) == at + k;
      assert ChildrenOf(bs, k - 1, at + 1);
    }
  }

  /** The tasks built from a whole mapping form a tree. */
  lemma FlattenTreeShaped(data: seq<Entry>)
    ensures TreeShaped(Flatten(data, None, "", 0))
    ensures Fresh(Flatten(data, None, "", 0))
    ensures Members(Flatten(data, None, "", 0), None, 0) == TopIndices(data, 0)
  {
    var b := Flatten(data, None, "", 0);
    FlattenShape(data, None, "", 0);
    BlockTreeShaped(b);
  }

  /** A block numbered from 0 with no outside parent is a tree. */
  lemma BlockTreeShaped(b: seq<Task>)
    requires ParentsInBlock(b, None, 0) && ChildrenExact(b, 0) && Fresh(b)
    ensures TreeShaped(b)
  {
    forall i | 0 <= i < |b| && b[i].parent.Some? ensures b[i].parent.value < i {
      assert ParentInBlock(b, i, None, 0);
    }
    forall i | 0 <= i < |b|
      ensures ParentIsMultitask(b, i) && b[i].children == Members(b, Some(i), 0)
      ensures b[i].kind == Single <==> b[i].formula.Some?
    {
      assert ParentInBlock(b, i, None, 0) && ChildrenOf(b, i, 0) && b[i] in b && FreshTask(b[i]);
    }
  }

  /** Joining two name-disjoint blocks keeps names unique. */
  lemma UniqueConcat(b1: seq<Task>, b2: seq<Task>)
    requires UniqueNames(b1) && UniqueNames(b2)
    requires forall t1, t2 :: t1 in b1 && t2 in b2 ==> t1.name != t2.name
    ensures UniqueNames(b1 + b2)
  {
    var b := b1 + b2;
    forall i, j | 0 <= i < |b| && 0 <= j < |b| && i != j
      ensures b[i].name != b[j].name
    {
      if i < |b1| && |b1| <= j {
        assert b[i] in b1 && b[j] == b2[j - |b1|];
      } else if j < |b1| && |b1| <= i {
        assert b[j] in b1 && b[i] == b2[i - |b1|];
      } else if |b1| <= i {
        assert b[i] == b2[i - |b1|] && b[j] == b2[j - |b1|];
      }
    }
  }

  /** Every task built for a mapping in `scope` is named under one of its keys. */
  ghost predicate NamedUnderKeys(b: seq<Task>, scope: string, keys: set<string>) {
    forall t :: t in b ==> exists k :: k in keys && Within(t.name, Qualify(scope, k))
  }

  /** Every task built for one entry is named under the entry's scoped key. */
  ghost predicate NamedUnder(b: seq<Task>, prefix: string) {
    forall t :: t in b ==> Within(t.name, prefix)
  }

  /** For a well-formed mapping, the tasks it yields have distinct scoped names. */
  lemma {:induction false} FlattenNames(es: seq<Entry>, parent: Option<nat>, scope: string, base: nat)
    requires WellFormed(es)
    ensures UniqueNames(Flatten(es, parent, scope, base))
    ensures NamedUnderKeys(Flatten(es, parent, scope, base), scope, Keys(es))
    decreases es
  {
    if es == [] {
      assert Flatten(es, parent, scope, base) == [];
    } else {
      var init, e := es[..|es| - 1], es[|es| - 1];
      var at := base + Count(init);
      var b1, b2 := Flatten(init, parent, scope, base), EntryTasks(e, parent, scope, at);
      FlattenUnfold(es, parent, scope, base);
      assert Flatten(es, parent, scope, base) == b1 + b2;
      assert Keys(es) == Keys(init) + {e.key} by {
        assert es == init + [e];
      }
      FlattenNames(init, parent, scope, base);
      EntryNames(e, parent, scope, at);
      SeparateNames(b1, b2, init, e, scope);
      UniqueConcat(b1, b2);
      NamedConcat(b1, b2, scope, Keys(init), e.key);
    }
  }

  /** The tasks of earlier entries and those of a later entry with a
      different key have different names. */
  lemma SeparateNames(b1: seq<Task>, b2: seq<Task>, init: seq<Entry>, e: Entry, scope: string)
    requires WellFormed(init + [e])
    requires NamedUnderKeys(b1, scope, Keys(init)) && NamedUnder(b2, Qualify(scope, e.key))
    ensures forall t1, t2 :: t1 in b1 && t2 in b2 ==> t1.name != t2.name
  {
    var es := init + [e];
    WellFormedPrefix(es, |init|);
    assert es[..|init|] == init && es[|init|] == e;
    forall t1, t2 | t1 in b1 && t2 in b2 ensures t1.name != t2.name {
      var k :| k in Keys(init) && Within(t1.name, Qualify(scope, k));
      var x :| x in init && x.key == k;
      WellFormedMember(init, x);
      WithinSameKey(scope, k, e.key, t1.name);
    }
  }

  lemma NamedConcat(b1: seq<Task>, b2: seq<Task>, scope: string, keys: set<string>, key: string)
    requires NamedUnderKeys(b1, scope, keys) && NamedUnder(b2, Qualify(scope, key))
    ensures NamedUnderKeys(b1 + b2, scope, keys + {key})
  {
    forall t | t in b1 + b2 ensures exists k :: k in keys + {key} && Within(t.name, Qualify(scope, k)) {
      if t !in b1 {
        assert Within(t.name, Qualify(scope, key));
      }
    }
  }

  /** Keys of a well-formed mapping are dot-free. */
  lemma WellFormedMember(es: seq<Entry>, x: Entry)
    requires WellFormed(es) && x in es
    ensures DotFree(x.key) && x.key != ""
  {
    var k :| 0 <= k < |es| && es[k] == x;
    WellFormedPrefix(es, k);
  }

  lemma {:induction false} EntryNames(e: Entry, parent: Option<nat>, scope: string, at: nat)
    requires WellFormedEntry(e)
    ensures UniqueNames(EntryTasks(e, parent, scope, at))
    ensures NamedUnder(EntryTasks(e, parent, scope, at), Qualify(scope, e.key))
    decreases e
  {
    var name := Qualify(scope, e.key);
    match e.value
    case Leaf(_) =>
    case Nested(sub) =>
      var b := EntryTasks(e, parent, scope, at);
      var bs := Flatten(sub, Some(at), name, at + 1);
      FlattenNames(sub, Some(at), name, at + 1);
      forall t | t in bs ensures Within(t.name, name) && t.name != name {
        var k :| k in Keys(sub) && Within(t.name, Qualify(name, k));
        QualifyIsWithin(scope, e.key, k);
        WithinTransitive(t.name, Qualify(name, k), name);
      }
      UniqueConcat([b[0]], bs);
      assert b == [b[0]] + bs;
  }
}
