/**
 * The dependency edges `set_all_dependencies` adds for one task
 * (task_module.py:86-101): the names its formula mentions, resolved in
 * scope; names that resolve to nothing add no edge.
 */
module Dependencies {
  import opened Wrappers
  import opened Text
  import opened Tasks
  import opened Relations
  import opened Resolution
  import opened Formula

  /** Whether a formula is scanned at all: `if task.formula` is false for a
      missing formula and for the empty one (task_module.py:88). */
  predicate Truthy(f: Option<string>) {
    f.Some? && f.value != ""
  }

  /** The plain dependency names reported for a task's formula. */
  function Plain(f: Option<string>): set<string> {
    if Truthy(f) then PlainNames(StripQuotes(f.value)) else {}
  }

  /** The object dependency names reported for a task's formula. */
  function Objects(f: Option<string>): set<string> {
    if Truthy(f) then ObjectNames(StripQuotes(f.value)) else {}
  }

  /** The tasks that the names resolve to from task `i`. */
  ghost function Targets(s: seq<Task>, i: nat, names: set<string>): set<nat>
    requires Linked(s) && ParentsBefore(s) && i < |s|
  {
    Image(names, n => Resolve(s, i, n))
  }

  /** The values an option-valued function takes on a set. */
  ghost function Image(names: set<string>, f: string -> Option<nat>): set<nat> {
    set n | n in names && f(n).Some? :: f(n).value
  }

  lemma ImageAdd(done: set<string>, n: string, f: string -> Option<nat>)
    ensures Image(done + {n}, f) == Image(done, f) + (if f(n).Some? then {f(n).value} else {})
  {
  }

  /** Two stores that agree on everything resolution looks at. */
  ghost predicate SameLinks(s: seq<Task>, t: seq<Task>) {
    |s| == |t| &&
    forall k :: 0 <= k < |s| ==>
      s[k].name == t[k].name && s[k].parent == t[k].parent && s[k].siblings == t[k].siblings
  }

  lemma {:induction false} FirstMatchFrame(s: seq<Task>, t: seq<Task>, cands: seq<nat>, name: string)
    requires SameLinks(s, t)
    requires forall k :: 0 <= k < |cands| ==> cands[k] < |s|
    ensures FirstMatch(s, cands, name) == FirstMatch(t, cands, name)
    decreases |cands|
  {
    if cands != [] {
      FirstMatchFrame(s, t, cands[1..], name);
    }
  }

  lemma {:induction false} ClimbFrame(s: seq<Task>, t: seq<Task>, p: Option<nat>)
    requires Linked(s) && ParentsBefore(s) && Linked(t) && ParentsBefore(t) && SameLinks(s, t)
    requires p.Some? ==> p.value < |s|
    ensures Climb(s, p) == Climb(t, p)
    decreases if p.Some? then p.value + 1 else 0
  {
    if p.Some? {
      ClimbFrame(s, t, s[p.value].parent);
    }
  }

  /** Resolution reads only names, parent links and siblings. */
  lemma ResolveFrame(s: seq<Task>, t: seq<Task>, i: nat, name: string)
    requires Linked(s) && ParentsBefore(s) && Linked(t) && ParentsBefore(t) && SameLinks(s, t)
    requires i < |s|
    ensures Resolve(s, i, name) == Resolve(t, i, name)
  {
    ClimbFrame(s, t, s[i].parent);
    assert SearchOrder(s, i) == SearchOrder(t, i);
    FirstMatchFrame(s, t, SearchOrder(s, i), name);
  }

  lemma TargetsFrame(s: seq<Task>, t: seq<Task>, i: nat, names: set<string>)
    requires Linked(s) && ParentsBefore(s) && Linked(t) && ParentsBefore(t) && SameLinks(s, t)
    requires i < |s|
    ensures Targets(s, i, names) == Targets(t, i, names)
  {
    forall n | n in names ensures Resolve(s, i, n) == Resolve(t, i, n) {
      ResolveFrame(s, t, i, n);
    }
  }

  /** Resolving one more name adds its target, if it has one. */
  lemma TargetsAdd(s: seq<Task>, i: nat, done: set<string>, n: string)
    requires Linked(s) && ParentsBefore(s) && i < |s|
    ensures Targets(s, i, done + {n}) ==
      Targets(s, i, done) + (if Resolve(s, i, n).Some? then {Resolve(s, i, n).value} else {})
  {
    ImageAdd(done, n, m => Resolve(s, i, m));
  }

  /** Every target is a task, other than task `i` itself once siblings
      are settled, whose name ends with one of the names. */
  lemma TargetsSpec(s: seq<Task>, i: nat, names: set<string>, x: nat)
    requires Linked(s) && ParentsBefore(s) && SiblingsSettled(s) && i < |s|
    requires x in Targets(s, i, names)
    ensures x < |s| && x != i && exists n :: n in names && EndsWith(s[x].name, n)
  {
    var n := TargetName(s, i, names, x);
    ResolveSpec(s, i, n);
    ResolveNeverSelf(s, i, n);
  }

  /** A target is what one of the names resolves to. */
  lemma TargetName(s: seq<Task>, i: nat, names: set<string>, x: nat) returns (n: string)
    requires Linked(s) && ParentsBefore(s) && i < |s|
    requires x in Targets(s, i, names)
    ensures n in names && Resolve(s, i, n) == Some(x)
  {
    n :| n in names && Resolve(s, i, n).Some? && Resolve(s, i, n).value == x;
  }

  /** Every name that resolves contributes its target. */
  lemma TargetsComplete(s: seq<Task>, i: nat, names: set<string>, n: string)
    requires Linked(s) && ParentsBefore(s) && i < |s|
    requires n in names && Resolve(s, i, n).Some?
    ensures Resolve(s, i, n).value in Targets(s, i, names)
  {
  }
}
