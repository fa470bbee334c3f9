/**
 * Duplicate-free edge lists: `add_dependency` and `add_object_dependency`
 * append a task only when it is not yet in the list (task_module.py:23-29).
 */
module Edges {

  /** The list after `if x not in s: s.append(x)`. */
  function Inserted(s: seq<nat>, x: nat): seq<nat> {
    if x in s then s else s + [x]
  }

  ghost predicate NoDuplicates(s: seq<nat>) {
    forall i, j :: 0 <= i < j < |s| ==> s[i] != s[j]
  }

  function Elems(s: seq<nat>): set<nat> {
    set x | x in s
  }

  /** Insertion adds exactly `x`, keeps what was there as a prefix, keeps
      the list free of duplicates and changes nothing a second time. */
  lemma InsertedSpec(s: seq<nat>, x: nat)
    ensures Elems(Inserted(s, x)) == Elems(s) + {x}
    ensures Inserted(s, x)[..|s|] == s
    ensures NoDuplicates(s) ==> NoDuplicates(Inserted(s, x))
    ensures Inserted(Inserted(s, x), x) == Inserted(s, x)
  {
    if x !in s {
      assert (s + [x])[..|s|] == s;
      assert x in s + [x];
    }
  }

  /** A list extended at the end keeps its earlier part. */
  ghost predicate Extends(t: seq<nat>, s: seq<nat>) {
    |s| <= |t| && t[..|s|] == s
  }

  /** `after` is `before` with further elements appended, the elements
      added are exactly `added`, and no duplicate was introduced. */
  ghost predicate Grew(before: seq<nat>, after: seq<nat>, added: set<nat>) {
    && Extends(after, before)
    && Elems(after) == Elems(before) + added
    && (NoDuplicates(before) ==> NoDuplicates(after))
  }

  lemma GrewNothing(s: seq<nat>)
    ensures Grew(s, s, {})
  {
    assert s[..|s|] == s;
  }

  /** One insertion grows a list by its element. */
  lemma InsertedGrew(s: seq<nat>, x: nat)
    ensures Grew(s, Inserted(s, x), {x})
  {
    InsertedSpec(s, x);
  }

  /** Growing twice is growing by both sets. */
  lemma GrewTwice(a: seq<nat>, b: seq<nat>, c: seq<nat>, x: set<nat>, y: set<nat>)
    requires Grew(a, b, x) && Grew(b, c, y)
    ensures Grew(a, c, x + y)
  {
    assert c[..|a|] == c[..|b|][..|a|];
  }
}
