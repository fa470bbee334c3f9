/**
 * The nested mapping a task graph is built from: each key names a task, and
 * its value is either a formula (a single task) or another mapping (a
 * multitask whose entries are its children).
 */
module Config {
  import opened Text

  datatype Value = Leaf(formula: string) | Nested(entries: seq<Entry>)

  /** One `key: value` item of a mapping; a mapping is the sequence of its
      items in iteration order. */
  datatype Entry = Entry(key: string, value: Value)

  function Keys(es: seq<Entry>): set<string> {
    set e | e in es :: e.key
  }

  /** The mappings the tree builder is specified for: within one mapping the
      keys are distinct (it is a dict), and every key is non-empty and holds
      no dot, so that scoped names cannot collide. */
  ghost predicate WellFormed(es: seq<Entry>) {
    if es == [] then true
    else
      var init, last := es[..|es| - 1], es[|es| - 1];
      WellFormed(init) && last.key !in Keys(init) && WellFormedEntry(last)
  }

  ghost predicate WellFormedEntry(e: Entry) {
    e.key != "" && DotFree(e.key) && (e.value.Nested? ==> WellFormed(e.value.entries))
  }

  /** Every entry of a well-formed mapping is well formed, and so is every prefix. */
  lemma {:induction false} WellFormedPrefix(es: seq<Entry>, k: nat)
    requires WellFormed(es) && k < |es|
    ensures WellFormed(es[..k]) && WellFormedEntry(es[k]) && es[k].key !in Keys(es[..k])
    decreases |es|
  {
    var init := es[..|es| - 1];
    if k < |es| - 1 {
      WellFormedPrefix(init, k);
      assert init[..k] == es[..k];
    } else {
      assert init == es[..k];
    }
  }

  /** The entries before `k + 1` are those before `k` and entry `k`. */
  lemma TakeOneMore(es: seq<Entry>, k: nat)
    requires k < |es|
    ensures es[..k + 1] == es[..k] + [es[k]]
  {
  }

  /** The number of tasks built from one entry: its own task and those of
      its nested mapping. */
  function CountEntry(e: Entry): nat {
    match e.value
    case Leaf(_) => 1
    case Nested(sub) => 1 + Count(sub)
  }

  /** The number of tasks built from a mapping. */
  function Count(es: seq<Entry>): nat {
    if es == [] then 0 else Count(es[..|es| - 1]) + CountEntry(es[|es| - 1])
  }

  /** No entry builds more tasks than its whole mapping. */
  lemma {:induction false} CountMember(es: seq<Entry>, k: nat)
    requires k < |es|
    ensures CountEntry(es[k]) <= Count(es)
    decreases |es|
  {
    if k < |es| - 1 {
      CountMember(es[..|es| - 1], k);
    }
  }
}
