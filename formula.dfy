/**
 * The lexical scan of a formula (task_module.py:125-146): quoted spans are
 * removed, the remaining text is split into maximal word runs, and each run
 * is classed as a call target (dropped), an object dependency or a plain
 * dependency by two regular-expression searches over the whole text.
 */
module Formula {
  import opened Wrappers
  import opened Text

  /** No quote and no line break in `s[i..j]`: the characters `.*?` may
      cross inside a quoted span. */
  ghost predicate Unbroken(s: string, i: nat, j: nat)
    requires i <= j <= |s|
  {
    forall m :: i <= m < j ==> !IsQuote(s[m]) && s[m] != '\n'
  }

  /** Where the quoted span opened just before `i` closes: the first quote at
      or after `i`, provided no line break comes first (`.` does not match a
      newline). */
  function ClosingQuote(s: string, i: nat): (r: Option<nat>)
    requires i <= |s|
    ensures r.Some? ==> i <= r.value < |s| && IsQuote(s[r.value]) && Unbroken(s, i, r.value)
    ensures r.None? ==> forall j :: i <= j < |s| && IsQuote(s[j]) ==> !Unbroken(s, i, j)
    decreases |s| - i
  {
    if i == |s| then None
    else if IsQuote(s[i]) then Some(i)
    else if s[i] == '\n' then None
    else ClosingQuote(s, i + 1)
  }

  /** `re.sub(r'["\'](.*?)["\']', '', s)`: scanning left to right, a quote
      that has a closing quote on the same line is removed together with
      that closing quote and everything between; any other character stays.
      Either quote character may open or close a span. */
  function StripQuotes(s: string): string
    decreases |s|
  {
    if s == [] then []
    else if IsQuote(s[0]) && ClosingQuote(s, 1).Some? then
      StripQuotes(s[ClosingQuote(s, 1).value + 1..])
    else [s[0]] + StripQuotes(s[1..])
  }

  /** The closing quote is found wherever an unbroken stretch ends in a quote. */
  lemma {:induction false} ClosingQuoteAt(s: string, i: nat, j: nat)
    requires i <= j < |s| && IsQuote(s[j]) && Unbroken(s, i, j)
    ensures ClosingQuote(s, i) == Some(j)
    decreases j - i
  {
    if i < j {
      ClosingQuoteAt(s, i + 1, j);
    }
  }

  /** Text without quotes passes through unchanged. */
  lemma {:induction false} StripQuotesPrefix(u: string, v: string)
    requires forall m :: 0 <= m < |u| ==> !IsQuote(u[m])
    ensures StripQuotes(u + v) == u + StripQuotes(v)
    decreases |u|
  {
    if u != [] {
      var s := u + v;
      assert s[0] == u[0] && s[1..] == u[1..] + v;
      StripQuotesPrefix(u[1..], v);
    } else {
      assert u + v == v;
    }
  }

  /** A quoted span on one line disappears with its quotes, so no word
      inside it can become a dependency. */
  lemma StripQuotesSpan(open: char, inner: string, close: char, v: string)
    requires IsQuote(open) && IsQuote(close)
    requires forall m :: 0 <= m < |inner| ==> !IsQuote(inner[m]) && inner[m] != '\n'
    ensures StripQuotes([open] + inner + [close] + v) == StripQuotes(v)
  {
    var s := [open] + inner + [close] + v;
    var j := |inner| + 1;
    assert s[j] == close;
    assert forall m :: 1 <= m < j ==> s[m] == inner[m - 1];
    ClosingQuoteAt(s, 1, j);
    assert s[j + 1..] == v;
  }

  /** A quote with no closing quote before the next line break or the end
      of the text is no span: it stays, and the scan resumes just after it. */
  lemma StripQuotesUnpaired(q: char, v: string)
    requires IsQuote(q) && ClosingQuote([q] + v, 1).None?
    ensures StripQuotes([q] + v) == [q] + StripQuotes(v)
  {
    var s := [q] + v;
    assert s[0] == q && s[1..] == v;
  }

  /** In `f("it's")` the double quote finds the apostrophe as its closing
      quote, so the span `"it'` goes and the `s` after it stays in the text;
      the last double quote is then unpaired and kept. */
  lemma StripQuotesApostrophe()
    ensures StripQuotes("f(\"it's\")") == "f(s\")"
  {
    var s := "f(\"it's\")";
    ClosingQuoteAt(s, 3, 5);
    assert s[6..] == "s\")";
    StripQuotesPrefix("s", "\")");
    var w := "\")";
    assert ClosingQuote(w, 1) == None by {
      assert w[1..] == ")";
    }
    StripQuotesUnpaired('"', ")");
    StripQuotesPrefix(")", "");
    StripQuotesPrefix("f(", s[2..]);
    assert s == "f(" + s[2..];
  }

  /** The end of the word run starting at `i`. */
  function RunEnd(s: string, i: nat): (j: nat)
    requires i <= |s|
    ensures i <= j <= |s| && (j == |s| || !IsWordChar(s[j]))
    ensures forall m :: i <= m < j ==> IsWordChar(s[m])
    decreases |s| - i
  {
    if i < |s| && IsWordChar(s[i]) then RunEnd(s, i + 1) else i
  }

  /** `s[i..j]` is a maximal run of word characters: the text `\b\w+\b`
      matches when scanning from the left. */
  ghost predicate RunAt(s: string, i: nat, j: nat) {
    && i < j <= |s|
    && (forall m :: i <= m < j ==> IsWordChar(s[m]))
    && (i == 0 || !IsWordChar(s[i - 1]))
    && (j == |s| || !IsWordChar(s[j]))
  }

  /** Position `i` is not strictly inside a word run. */
  ghost predicate NotMidRun(s: string, i: nat) {
    i == 0 || i >= |s| || !IsWordChar(s[i - 1]) || !IsWordChar(s[i])
  }

  /** `re.findall(r'\b\w+\b', s[i..])` continued from a position that is not
      inside a run: the maximal word runs, in order, repetitions kept. */
  function TokensFrom(s: string, i: nat): seq<string>
    requires i <= |s|
    decreases |s| - i
  {
    if i == |s| then []
    else if IsWordChar(s[i]) then
      var j := RunEnd(s, i);
      [s[i..j]] + TokensFrom(s, j)
    else TokensFrom(s, i + 1)
  }

  function Tokens(s: string): seq<string> {
    TokensFrom(s, 0)
  }

  /** The tokens are exactly the maximal word runs (numbers included). */
  lemma {:induction false} TokensFromRuns(s: string, i: nat, x: string)
    requires i <= |s| && NotMidRun(s, i)
    ensures x in TokensFrom(s, i) <==> exists a: nat, b: nat :: i <= a && RunAt(s, a, b) && s[a..b] == x
    decreases |s| - i
  {
    if i < |s| {
      if IsWordChar(s[i]) {
        var j := RunEnd(s, i);
        TokensFromRuns(s, j, x);
        assert RunAt(s, i, j);
      } else {
        TokensFromRuns(s, i + 1, x);
      }
    }
  }

  lemma TokensAreRuns(s: string, x: string)
    ensures x in Tokens(s) <==> exists a: nat, b: nat :: RunAt(s, a, b) && s[a..b] == x
  {
    TokensFromRuns(s, 0, x);
  }

  /** From `j` on: optional white space, then `(` (the tail `\s*\(`). */
  function SpacesThenParen(t: string, j: nat): (r: bool)
    requires j <= |t|
    ensures r <==> exists m :: j <= m < |t| && t[m] == '(' && forall i :: j <= i < m ==> IsSpace(t[i])
    decreases |t| - j
  {
    if j == |t| then false
    else if t[j] == '(' then true
    else IsSpace(t[j]) && SpacesThenParen(t, j + 1)
  }

  /** From `j` on: one or more word characters, then `(` (the tail `\w+\(`). */
  function WordsThenParen(t: string, j: nat): (r: bool)
    requires j <= |t|
    ensures r <==> exists m :: j < m < |t| && t[m] == '(' && forall i :: j <= i < m ==> IsWordChar(t[i])
    decreases |t| - j
  {
    if j + 1 >= |t| then false
    else IsWordChar(t[j]) && (t[j + 1] == '(' || WordsThenParen(t, j + 1))
  }

  /** A word boundary before position `k` when `t[k]` is a word character. */
  predicate StartsWord(t: string, k: nat)
    requires k <= |t|
  {
    k == 0 || !IsWordChar(t[k - 1])
  }

  /** `\b{name}\s*\(` matches at `k`: a call of `name`. */
  predicate CallAt(t: string, name: string, k: nat) {
    && k + |name| <= |t|
    && StartsWord(t, k)
    && t[k..k + |name|] == name
    && SpacesThenParen(t, k + |name|)
  }

  /** `\b{name}\.\w+\(` matches at `k`: a method called on `name`. */
  predicate MemberCallAt(t: string, name: string, k: nat) {
    && k + |name| < |t|
    && StartsWord(t, k)
    && t[k..k + |name|] == name
    && t[k + |name|] == '.'
    && WordsThenParen(t, k + |name| + 1)
  }

  /** `re.search(rf'\b{name}\s*\(', t[k..])`, judged on the whole text. */
  function SearchCall(t: string, name: string, k: nat): (r: bool)
    requires k <= |t|
    ensures r <==> exists i :: k <= i < |t| && CallAt(t, name, i)
    decreases |t| - k
  {
    if k == |t| then false else CallAt(t, name, k) || SearchCall(t, name, k + 1)
  }

  /** `re.search(rf'\b{name}\.\w+\(', t[k..])`, judged on the whole text. */
  function SearchMemberCall(t: string, name: string, k: nat): (r: bool)
    requires k <= |t|
    ensures r <==> exists i :: k <= i < |t| && MemberCallAt(t, name, i)
    decreases |t| - k
  {
    if k == |t| then false else MemberCallAt(t, name, k) || SearchMemberCall(t, name, k + 1)
  }

  /** Whether a token of the text is called somewhere in it. */
  predicate IsCalled(t: string, name: string) {
    SearchCall(t, name, 0)
  }

  /** Whether a method is called on a token somewhere in the text. */
  predicate HasMemberCall(t: string, name: string) {
    SearchMemberCall(t, name, 0)
  }

  /** The three tests of the token loop, read off the text itself: a token
      is a maximal word run, and a name is called, or has a method called on
      it, exactly when that happens at some position. */
  lemma Classification(t: string)
    ensures forall n :: n in Tokens(t) <==> exists a: nat, b: nat :: RunAt(t, a, b) && t[a..b] == n
    ensures forall n :: IsCalled(t, n) <==> exists k :: CallAt(t, n, k)
    ensures forall n :: HasMemberCall(t, n) <==> exists k :: MemberCallAt(t, n, k)
  {
    forall n ensures n in Tokens(t) <==> exists a: nat, b: nat :: RunAt(t, a, b) && t[a..b] == n {
      TokensAreRuns(t, n);
    }
  }

  /** The plain dependencies of the quote-free text `t`: the maximal word
      runs that are never called and never have a method called on them. */
  function PlainNames(t: string): (r: set<string>)
    ensures forall n :: n in r <==>
      && (exists a: nat, b: nat :: RunAt(t, a, b) && t[a..b] == n)
      && (forall k :: !CallAt(t, n, k))
      && (forall k :: !MemberCallAt(t, n, k))
  {
    Classification(t);
    set n | n in Tokens(t) && !IsCalled(t, n) && !HasMemberCall(t, n)
  }

  /** The object dependencies of the quote-free text `t`: the maximal word
      runs that are never called but have a method called on them. */
  function ObjectNames(t: string): (r: set<string>)
    ensures forall n :: n in r <==>
      && (exists a: nat, b: nat :: RunAt(t, a, b) && t[a..b] == n)
      && (forall k :: !CallAt(t, n, k))
      && (exists k :: MemberCallAt(t, n, k))
  {
    Classification(t);
    set n | n in Tokens(t) && !IsCalled(t, n) && HasMemberCall(t, n)
  }

  /** In a text without `(` nothing is called, so every token is a plain
      dependency: in "A.x + 2" the name A is plain, because the object rule
      asks for `A.x(`, and the number 2 is a token too. */
  lemma {:induction false} NoParenAllPlain(t: string)
    requires forall m :: 0 <= m < |t| ==> t[m] != '('
    ensures PlainNames(t) == set n | n in Tokens(t)
    ensures ObjectNames(t) == {}
  {
  }

  /** A token that is called anywhere in the text is in neither result. */
  lemma CalledIsDropped(t: string, n: string, k: nat)
    requires CallAt(t, n, k)
    ensures n !in PlainNames(t) && n !in ObjectNames(t)
  {
    assert IsCalled(t, n);
  }

  /** A token that is never called but has a method called on it is an
      object dependency. */
  lemma MemberCallIsObject(t: string, n: string, k: nat)
    requires n in Tokens(t) && !IsCalled(t, n) && MemberCallAt(t, n, k)
    ensures n in ObjectNames(t) && n !in PlainNames(t)
  {
    assert HasMemberCall(t, n);
  }

  /** `_find_dependencies` on a formula: the token loop of
      task_module.py:135-144 over the quote-free text. */
  method FindDependencies(formula: string) returns (dependencies: set<string>, objectDependencies: set<string>)
    ensures dependencies == PlainNames(StripQuotes(formula))
    ensures objectDependencies == ObjectNames(StripQuotes(formula))
    ensures dependencies !! objectDependencies
  {
    var text := StripQuotes(formula);
    var names := Tokens(text);
    dependencies, objectDependencies := {}, {};
    for k := 0 to |names|
      invariant dependencies == set n | n in names[..k] && !IsCalled(text, n) && !HasMemberCall(text, n)
      invariant objectDependencies == set n | n in names[..k] && !IsCalled(text, n) && HasMemberCall(text, n)
    {
      var name := names[k];
      assert names[..k + 1] == names[..k] + [name];
      if SearchCall(text, name, 0) {
        continue;
      }
      if SearchMemberCall(text, name, 0) {
        objectDependencies := objectDependencies + {name};
      } else {
        dependencies := dependencies + {name};
      }
    }
    assert names[..|names|] == names;
  }
}
