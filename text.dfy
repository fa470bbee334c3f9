/**
 * Character classes and the string operations shared by the tree builder, the
 * scope resolver and the formula scanner.
 */
module Text {

  /** `\w`, restricted to ASCII: letters, digits and the underscore. */
  predicate IsWordChar(c: char) {
    ('a' <= c <= 'z') || ('A' <= c <= 'Z') || ('0' <= c <= '9') || c == '_'
  }

  /** `\s`, restricted to ASCII: space, tab, newline, vertical tab, form feed,
      carriage return and the four separators 0x1c to 0x1f. */
  predicate IsSpace(c: char) {
    c == ' ' || (9 <= c as int <= 13) || (28 <= c as int <= 31)
  }

  /** A character of the class `["']`. */
  predicate IsQuote(c: char) {
    c == '"' || c == '\''
  }

  predicate DotFree(s: string) {
    forall i :: 0 <= i < |s| ==> s[i] != '.'
  }

  /** `str.endswith`: a raw suffix test on characters, blind to the dots that
      separate scopes, so "r.xA" ends with "A". */
  predicate EndsWith(s: string, suffix: string) {
    |suffix| <= |s| && s[|s| - |suffix|..] == suffix
  }

  /** The scoped name of `key` inside `scope` (task_module.py:48): the key
      itself at the top level, otherwise the scope, a dot and the key. */
  function Qualify(scope: string, key: string): string {
    if scope == "" then key else scope + "." + key
  }

  /** A scoped name ends with its key and, inside a scope, starts with the
      scope followed by a dot. */
  lemma QualifyParts(scope: string, key: string)
    ensures EndsWith(Qualify(scope, key), key)
    ensures scope != "" ==> |Qualify(scope, key)| == |scope| + 1 + |key|
    ensures scope != "" ==> Qualify(scope, key)[..|scope|] == scope && Qualify(scope, key)[|scope|] == '.'
  {
    var r := Qualify(scope, key);
    assert r[|r| - |key|..] == key;
  }

  /** The text after the last dot of a scoped name. */
  function LastSegment(s: string): (r: string)
    ensures DotFree(r) && EndsWith(s, r)
    ensures |r| < |s| ==> s[|s| - |r| - 1] == '.'
  {
    if s == [] || s[|s| - 1] == '.' then []
    else
      var init := LastSegment(s[..|s| - 1]);
      assert s[..|s| - 1][|s| - 1 - |init|..] == s[|s| - 1 - |init|..|s| - 1];
      init + [s[|s| - 1]]
  }

  /** The unqualified key can be read back from a scoped name when keys carry
      no dot: `LastSegment(n) == "main"` is the test `key == "main"`. */
  lemma {:induction false} LastSegmentOfQualify(scope: string, key: string)
    requires DotFree(key)
    ensures LastSegment(Qualify(scope, key)) == key
  {
    if key == [] {
      assert scope != "" ==> Qualify(scope, key) == scope + ".";
    } else {
      var init, c := key[..|key| - 1], key[|key| - 1];
      assert key == init + [c];
      assert DotFree(init) && c != '.';
      LastSegmentOfQualify(scope, init);
      var q, q0 := Qualify(scope, key), Qualify(scope, init);
      if scope != "" {
        assert q == scope + "." + key == (scope + "." + init) + [c];
      }
      assert q == q0 + [c];
      assert q[..|q| - 1] == q0;
    }
  }

  /** `name` is `prefix` itself, or `prefix` followed by a dot and more:
      the names of a task and of everything under it. */
  ghost predicate Within(name: string, prefix: string) {
    name == prefix || (|prefix| < |name| && name[..|prefix|] == prefix && name[|prefix|] == '.')
  }

  lemma WithinTransitive(n: string, m: string, p: string)
    requires Within(n, m) && Within(m, p)
    ensures Within(n, p)
    ensures m != p ==> n != p
  {
    if n != m && m != p {
      assert n[..|p|] == n[..|m|][..|p|];
      assert n[|p|] == n[..|m|][|p|];
    }
  }

  /** Everything named inside a task lies under the task's own name. */
  lemma QualifyIsWithin(scope: string, key: string, child: string)
    requires Qualify(scope, key) != ""
    ensures Within(Qualify(Qualify(scope, key), child), Qualify(scope, key))
    ensures Qualify(Qualify(scope, key), child) != Qualify(scope, key)
  {
  }

  /** Two different dot-free keys of one scope have disjoint name spaces: a
      name that lies under both keys forces them to be equal. This is what
      makes scoped names unique. */
  lemma WithinSameKey(scope: string, k1: string, k2: string, n: string)
    requires DotFree(k1) && DotFree(k2)
    ensures Within(n, Qualify(scope, k1)) && Within(n, Qualify(scope, k2)) ==> k1 == k2
  {
    if Within(n, Qualify(scope, k1)) && Within(n, Qualify(scope, k2)) {
      var p := if scope == "" then "" else scope + ".";
      assert Qualify(scope, k1) == p + k1 && Qualify(scope, k2) == p + k2;
      if |k1| <= |k2| {
        SharedPrefixKeys(n, p, k1, k2);
      } else {
        SharedPrefixKeys(n, p, k2, k1);
      }
    }
  }

  lemma SharedPrefixKeys(n: string, p: string, k1: string, k2: string)
    requires DotFree(k2) && |k1| <= |k2|
    requires Within(n, p + k1) && Within(n, p + k2)
    ensures k1 == k2
  {
    var a, b := p + k1, p + k2;
    assert n[..|a|] == a && n[..|b|] == b;
    forall i | 0 <= i < |k1| ensures k1[i] == k2[i] {
      assert k1[i] == a[|p| + i] == n[|p| + i] == b[|p| + i] == k2[i];
    }
    if |k1| < |k2| {
      assert false;
    }
  }
}
