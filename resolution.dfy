/**
 * Scope resolution of a dependency name (task_module.py:103-123), as a
 * function over the task store: the candidates are searched in a fixed
 * order and the first whose scoped name ends with the dependency name wins.
 */
module Resolution {
  import opened Wrappers
  import opened Text
  import opened Tasks
  import opened Relations

  /** The first candidate whose name ends with `name`, if any. */
  function FirstMatch(s: seq<Task>, cands: seq<nat>, name: string): (r: Option<nat>)
    requires forall k :: 0 <= k < |cands| ==> cands[k] < |s|
    ensures r.None? <==> forall k :: 0 <= k < |cands| ==> !EndsWith(s[cands[k]].name, name)
    ensures r.Some? ==> r.value in cands && EndsWith(s[r.value].name, name)
  {
    if cands == [] then None
    else if EndsWith(s[cands[0]].name, name) then Some(cands[0])
    else FirstMatch(s, cands[1..], name)
  }

  /** The match found is the first: it sits at a position before which no
      candidate matches. */
  lemma {:induction false} FirstMatchIsFirst(s: seq<Task>, cands: seq<nat>, name: string)
    requires forall k :: 0 <= k < |cands| ==> cands[k] < |s|
    requires FirstMatch(s, cands, name).Some?
    ensures exists k :: 0 <= k < |cands| && cands[k] == FirstMatch(s, cands, name).value &&
                        (forall j :: 0 <= j < k ==> !EndsWith(s[cands[j]].name, name))
    decreases |cands|
  {
    if !EndsWith(s[cands[0]].name, name) {
      var rest := cands[1..];
      FirstMatchIsFirst(s, rest, name);
      var k :| 0 <= k < |rest| && rest[k] == FirstMatch(s, rest, name).value &&
               (forall j :: 0 <= j < k ==> !EndsWith(s[rest[j]].name, name));
      assert cands[k + 1] == rest[k];
      forall j | 0 <= j < k + 1 ensures !EndsWith(s[cands[j]].name, name) {
        if j > 0 {
          assert cands[j] == rest[j - 1];
        }
      }
    }
  }

  /** Searching two candidate lists one after the other. */
  lemma {:induction false} FirstMatchAppend(s: seq<Task>, a: seq<nat>, b: seq<nat>, name: string)
    requires forall k :: 0 <= k < |a| ==> a[k] < |s|
    requires forall k :: 0 <= k < |b| ==> b[k] < |s|
    ensures FirstMatch(s, a + b, name) ==
      if FirstMatch(s, a, name).Some? then FirstMatch(s, a, name) else FirstMatch(s, b, name)
    decreases |a|
  {
    if a != [] {
      assert (a + b)[0] == a[0] && (a + b)[1..] == a[1..] + b;
      FirstMatchAppend(s, a[1..], b, name);
    } else {
      assert a + b == b;
    }
  }

  /** The candidates met while walking up from `p`: the ancestor itself,
      then its siblings, then the same for its parent (task_module.py:110-120). */
  function Climb(s: seq<Task>, p: Option<nat>): (r: seq<nat>)
    requires Linked(s) && ParentsBefore(s)
    requires p.Some? ==> p.value < |s|
    ensures forall k :: 0 <= k < |r| ==> r[k] < |s|
    decreases if p.Some? then p.value + 1 else 0
  {
    match p
    case None => []
    case Some(q) =>
      var sib, up := s[q].siblings, Climb(s, s[q].parent);
      assert forall k :: 0 <= k < |sib| ==> sib[k] in sib;
      var r := [q] + sib + up;
      assert forall k :: 0 <= k < |r| ==> r[k] == if k == 0 then q else if k <= |sib| then sib[k - 1] else up[k - 1 - |sib|];
      r
  }

  /** The full search order for a dependency of task `t`: its siblings,
      then the climb from its parent (task_module.py:105-120). */
  function SearchOrder(s: seq<Task>, t: nat): (r: seq<nat>)
    requires Linked(s) && ParentsBefore(s) && t < |s|
    ensures forall k :: 0 <= k < |r| ==> r[k] < |s|
  {
    var sib, up := s[t].siblings, Climb(s, s[t].parent);
    assert forall k :: 0 <= k < |sib| ==> sib[k] in sib;
    var r := sib + up;
    assert forall k :: |sib| <= k < |r| ==> r[k] == up[k - |sib|];
    r
  }

  /** `_resolve_dependency(task, dep_name)`: the first task of the search
      order whose name ends with `dep_name`, or None. */
  function Resolve(s: seq<Task>, t: nat, name: string): Option<nat>
    requires Linked(s) && ParentsBefore(s) && t < |s|
  {
    FirstMatch(s, SearchOrder(s, t), name)
  }

  /** A resolved task is a task of the store whose name ends with the
      dependency name, and nothing is resolved exactly when no candidate of
      the search order matches. */
  lemma ResolveSpec(s: seq<Task>, t: nat, name: string)
    requires Linked(s) && ParentsBefore(s) && t < |s|
    ensures Resolve(s, t, name).Some? ==>
      var x := Resolve(s, t, name).value;
      x < |s| && x in SearchOrder(s, t) && EndsWith(s[x].name, name)
    ensures Resolve(s, t, name).None? <==> forall x :: x in SearchOrder(s, t) ==> !EndsWith(s[x].name, name)
  {
    var cands := SearchOrder(s, t);
    forall x | x in cands ensures exists k :: 0 <= k < |cands| && cands[k] == x {
    }
  }

  /** Resolution first searches the siblings, and climbs only when none
      of them matches (task_module.py:105-111). */
  lemma ResolveSplit(s: seq<Task>, t: nat, name: string)
    requires Linked(s) && ParentsBefore(s) && t < |s|
    ensures forall k :: 0 <= k < |s[t].siblings| ==> s[t].siblings[k] < |s|
    ensures Resolve(s, t, name) ==
      if FirstMatch(s, s[t].siblings, name).Some? then FirstMatch(s, s[t].siblings, name)
      else FirstMatch(s, Climb(s, s[t].parent), name)
  {
    var sib := s[t].siblings;
    assert LinksBelow(s[t], |s|);
    assert forall k :: 0 <= k < |sib| ==> sib[k] in sib;
    FirstMatchAppend(s, sib, Climb(s, s[t].parent), name);
  }

  /** One step of the climb (task_module.py:111-120): the ancestor itself,
      then its siblings, then on to its parent. */
  lemma ClimbStep(s: seq<Task>, p: nat, name: string)
    requires Linked(s) && ParentsBefore(s) && p < |s|
    ensures forall k :: 0 <= k < |s[p].siblings| ==> s[p].siblings[k] < |s|
    ensures FirstMatch(s, Climb(s, Some(p)), name) ==
      if EndsWith(s[p].name, name) then Some(p)
      else if FirstMatch(s, s[p].siblings, name).Some? then FirstMatch(s, s[p].siblings, name)
      else FirstMatch(s, Climb(s, s[p].parent), name)
  {
    var sib, up := s[p].siblings, Climb(s, s[p].parent);
    assert LinksBelow(s[p], |s|);
    assert forall k :: 0 <= k < |sib| ==> sib[k] in sib;
    var c := Climb(s, Some(p));
    assert c[0] == p && c[1..] == sib + up;
    FirstMatchAppend(s, sib, up, name);
  }

  /** The number of ancestors of task `i`. */
  ghost function Depth(s: seq<Task>, i: nat): nat
    requires ParentsBefore(s) && i < |s|
    decreases i
  {
    match s[i].parent
    case None => 0
    case Some(p) => Depth(s, p) + 1
  }

  /** Everything met on the climb from `p` is strictly shallower than a
      task whose parent is `p`, because siblings share depth. */
  lemma {:induction false} ClimbShallower(s: seq<Task>, p: Option<nat>, d: nat)
    requires Linked(s) && ParentsBefore(s) && SiblingsSettled(s)
    requires p.Some? ==> p.value < |s| && Depth(s, p.value) < d
    ensures forall x :: x in Climb(s, p) ==> Depth(s, x) < d
    decreases if p.Some? then p.value + 1 else 0
  {
    if p.Some? {
      var q := p.value;
      forall x | x in s[q].siblings ensures Depth(s, x) < d {
        SiblingsMembership(s, q, x);
      }
      ClimbShallower(s, s[q].parent, d);
    }
  }

  /** Resolution never returns the task that asks: the task is not its own
      sibling, and everything on the climb lies above it. */
  lemma ResolveNeverSelf(s: seq<Task>, t: nat, name: string)
    requires Linked(s) && ParentsBefore(s) && SiblingsSettled(s) && t < |s|
    ensures Resolve(s, t, name) != Some(t)
  {
    SiblingsMembership(s, t, t);
    ClimbShallower(s, s[t].parent, Depth(s, t));
  }

  /** The search is by raw suffix: whatever `x` is, with or without a dot
      before `n`, a top-level task named `x + n` is found for the dependency
      name `n` from its top-level sibling. */
  lemma RawSuffix(x: string, n: string, other: string)
    ensures EndsWith(x + n, n)
    ensures
      var s := [
        Task(x + n, Single, Some("1"), None, [], [1], [], [], []),
        Task(other, Single, Some(n), None, [], [0], [], [], [])];
      Linked(s) && ParentsBefore(s) && SiblingsSettled(s) && Resolve(s, 1, n) == Some(0)
  {
    assert (x + n)[|x + n| - |n|..] == n;
    var s := [
      Task(x + n, Single, Some("1"), None, [], [1], [], [], []),
      Task(other, Single, Some(n), None, [], [0], [], [], [])];
    assert s[..1][..0] == [] && s[..1] == [s[0]];
    assert Members(s[..1], None, 0) == [0];
    assert Members(s, None, 0) == [0, 1];
    assert FirstMatch(s, s[1].siblings, n) == Some(0);
  }

}
