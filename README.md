# Task graph, modelled in Dafny

This project models the task-graph engine of `task_module.py`. The engine
takes a nested mapping of keys to formulas and builds a tree of tasks:

- a mapping value becomes a *multitask* whose children are its entries;
- any other value becomes a *single* task whose formula is that value.

Every task is stored under a dot-qualified scoped name. A relationship pass
then gives each task its siblings and its list of `parents`. A dependency
pass scans each formula for identifiers and sorts them into three groups:
call targets (dropped), object dependencies (written `name.member(`) and
plain dependencies. Each identifier is resolved to a task by a scoped
suffix search, and the result is recorded as a duplicate-free edge.

## Modules

- `Wrappers`: `Option`.
- `Text`: ASCII character classes, scoped names (`Qualify`), last name
  segments and raw suffix matching (`str.endswith`).
- `Config`: the input mapping. `Value` is `Leaf(formula)` or
  `Nested(entries)`, and an entry list keeps mapping order.
- `Tasks`: the `Task` record. `Flatten` and `EntryTasks` describe exactly
  which tasks the tree builder creates, in which positions, with which
  links. The module also defines the tree-shape predicates.
- `TreeShape`: what `Flatten` produces. It is a tree whose `children` lists
  are exactly the tasks created under each multitask, in mapping order. For
  a well-formed mapping, no two of its tasks share a scoped name.
- `Relations`: siblings and ancestor chains. It defines what the
  relationship pass computes and proves that the result is settled.
- `Formula`: quote stripping and tokenising as recursive scanners, and call
  detection as declarative predicates (`RunAt`, `CallAt`, `MemberCallAt`).
  `FindDependencies` is the token loop, proved against them.
- `Resolution`: the suffix search of `_resolve_dependency`, as the first
  match along a search order.
- `Edges`: duplicate-free edge lists.
- `Dependencies`: which names of a formula resolve to which tasks.
- `Growth`: how the store, the dictionary and the entry point grow while
  the tree is built.
- `Store`: the invariant that ties the dictionary to the store.
- `Graph`: the `TaskGraph` class and its passes. The class holds:
  - `nodes`: the tasks, in creation order;
  - `tasks`: the name-to-task dictionary;
  - `order`: the dictionary's key order;
  - `mainEntryPoint`: the entry point.

A task is identified by its position in `nodes`. That position stands for
the identity of the Python objects, which `task_module.py` compares with
`!=` and `in`.

## Model

| member | source | states |
|---|---|---|
| `Text.Qualify` | task_module.py:48 | The scoped name: the key at top level, otherwise scope, dot and key. Its contract lives in `QualifyParts` and `LastSegmentOfQualify`. |
| `Text.EndsWith` | task_module.py:106 | `str.endswith`: the last characters of the name are the suffix, with no regard for dots (used at lines 106, 113 and 117). |
| `Text.QualifyParts` | task_module.py:48 | The scoped name ends with the key; under a non-empty scope it is the scope, a dot, then the key. |
| `Text.LastSegmentOfQualify` | task_module.py:48 | For a dot-free key, the key can be read back as the last segment of its scoped name. |
| `Text.LastSegment` | task_module.py:63 | The last segment is dot-free and a suffix of the name, preceded by a dot when shorter than the name. |
| `Text.QualifyIsWithin` | task_module.py:48-54 | A name scoped under a task's name lies within that name and differs from it. |
| `Text.WithinSameKey` | task_module.py:45-48 | A name cannot lie within the scoped names of two different dot-free keys of one mapping. |
| `Text.WithinTransitive` | task_module.py:48-54 | Lying within a scope is transitive, and strictly so. |
| `Config.CountMember` | task_module.py:45-67 | No entry creates more tasks than its whole mapping. |
| `Config.WellFormedPrefix` | task_module.py:45 | Every prefix and every entry of a well-formed mapping is well formed, and an entry's key is not among the earlier keys. |
| `Tasks.NewTask` | task_module.py:4-13 | A new task has the given name, kind, formula and parent, and every list empty. |
| `Tasks.TopIndices` | task_module.py:45-67 | Every entry's own task gets a position inside the block the mapping occupies. |
| `Tasks.Flatten` | task_module.py:44-67 | The mapping creates exactly as many tasks as it has entries and nested entries. |
| `Tasks.EntryTasks` | task_module.py:47-64 | One entry creates one task for itself and one for each entry nested in it. |
| `Tasks.FlattenSnoc` | task_module.py:45-67 | The tasks of one more entry are created after those of the earlier entries. |
| `Tasks.MembersSpec` | task_module.py:66-67 | A position is listed among a parent's members exactly when that task has that parent; the list increases. |
| `Tasks.MembersFrame` | task_module.py:20-21 | Two stores with the same parent links have the same members. |
| `TreeShape.FlattenShape` | task_module.py:44-67 | Each task's parent is the mapping's parent or an earlier multitask of the block. Each task's `children` are exactly its members in creation order. The block's top-level members are its entries' tasks. Every task is fresh. |
| `TreeShape.EntryShape` | task_module.py:47-67 | An entry's block has its own task as its only member under the parent, and is tree shaped and fresh. |
| `TreeShape.FlattenTreeShaped` | task_module.py:44-67 | A top-level mapping yields a tree in which children are exactly the members and parents are multitasks. Top-level members are the entries' tasks. |
| `TreeShape.FlattenNames` | task_module.py:45-62 | For a well-formed mapping the created tasks have distinct scoped names, each within the scope of one of its keys. |
| `TreeShape.EntryNames` | task_module.py:47-58 | An entry's tasks have distinct names, all within the entry's scoped name. |
| `TreeShape.SeparateNames` | task_module.py:45-62 | Tasks of different keys never share a name. |
| `Growth.NameIndex` | task_module.py:53-62 | The dictionary that storing the tasks in creation order builds, later names overwriting earlier ones. |
| `Growth.FirstNames` | task_module.py:53-75 | The dictionary's key order: each name where it was first stored. |
| `Growth.NameIndexSpec` | task_module.py:53-62 | The dictionary holds every stored name, each mapped to the last task stored under it. |
| `Growth.FirstNamesSpec` | task_module.py:53-75 | The key order lists each dictionary key exactly once. |
| `Growth.UniqueIndex` | task_module.py:53-75 | With distinct names, the key order is the creation order and every name maps to its own task. |
| `Growth.IsEntry` | task_module.py:63 | The test of line 63 read off a task: a single task whose last name segment is "main". |
| `Growth.LatestEntry` | task_module.py:63-64 | The entry point after creating some tasks is the previous one or an entry among them, and no entry comes after it. |
| `Growth.LatestEntryCompose` | task_module.py:63-64 | Recording entry points over two stretches gives the same as recording them over one. |
| `Growth.Adopt` | task_module.py:20-21 | `add_child` for each listed task: the parent's `children` grows by the list, and the number of tasks is kept. |
| `Growth.AdoptTwice` | task_module.py:20-21 | Two adoptions by the same parent append both lists of children, in order. |
| `Growth.AdoptAppend` | task_module.py:20-21 | Adoption by an earlier parent leaves later tasks alone. |
| `Growth.GrownStep` | task_module.py:45-67 | Parsing one more entry creates its tasks after the earlier ones and adopts its own task last. |
| `Growth.GrownNested` | task_module.py:49-58 | A multitask stored and then given its nested entries as children is the block `EntryTasks` describes. |
| `Growth.ShapeStep` | task_module.py:45-67 | One iteration of the parse loop keeps the store equal to the described growth, up to siblings. |
| `Growth.EntryAfter` | task_module.py:63-64 | The entry point after a nested block is the last entry created so far. |
| `Growth.EntryAfterLeaf` | task_module.py:59-64 | A single task keyed "main" becomes the entry point, and any other single task keeps the previous one. |
| `Growth.EntryAfterNested` | task_module.py:49-64 | A multitask itself is never the entry point, even when keyed "main". |
| `Store.Lookup` | task_module.py:75 | The listed values are the dictionary's values in key order. |
| `Store.StoreKeeps` | task_module.py:53-62 | Storing a created task under its name keeps the dictionary, its order and the links consistent. |
| `Store.DictionaryStep` | task_module.py:53-62 | Assigning a name overwrites its value, and appends the key only when it is new. |
| `Store.UpdateKeeps` | task_module.py:15-29 | Changing a task in place without changing its name, kind or parent keeps the graph consistent. |
| `Store.EntryKeeps` | task_module.py:63-64 | A single task keyed "main" may be the entry point. |
| `Edges.Inserted` | task_module.py:23-29 | `if x not in l: l.append(x)`. `InsertedSpec` states what it does. |
| `Edges.InsertedSpec` | task_module.py:23-29 | Insertion adds exactly the task and keeps the earlier list as a prefix. It keeps the list duplicate-free and is idempotent. |
| `Edges.GrewTwice` | task_module.py:90-101 | Growing an edge list twice is growing it by both sets of targets. |
| `Relations.Range` | task_module.py:75 | The positions of all tasks, in order. |
| `Relations.Without` | task_module.py:17 | The list minus the task holds exactly the other members, and an increasing list stays increasing, so order is kept. |
| `Relations.WithParent` | task_module.py:82 | The filtered tasks are exactly the listed tasks with the given parent. |
| `Relations.WithParentRange` | task_module.py:82 | Filtering all tasks for top-level ones gives the top-level members in creation order. |
| `Relations.Ancestors` | task_module.py:18 | The ancestor chain runs from the root to the immediate parent. Each entry's parent is the one before it, the last is the parent, and it is empty exactly for top-level tasks. |
| `Relations.SiblingsMembership` | task_module.py:77-84 | Once settled, a task's siblings are exactly the other tasks with the same parent; no task is its own sibling. |
| `Relations.Lineage` | task_module.py:16-18 | The `parents` list the first pass computes: the parent's list followed by the parent. |
| `Relations.Relinked` | task_module.py:77-79 | Task `i` after `set_relationships`: the parent's other children as siblings and its lineage as `parents`. |
| `Relations.Related` | task_module.py:77-84 | Task `i` after the whole relationship pass: top-level tasks take the other top-level tasks as siblings. |
| `Relations.LineageIsAncestors` | task_module.py:77-79 | Relinking in creation order builds `parents` as the ancestor chain. |
| `Relations.RelinkStep` | task_module.py:78-79 | One `set_relationships` call, made after the parent's, relinks one more task and changes no other. |
| `Relations.TopLevelMembers` | task_module.py:82 | The relinked store's top-level tasks are those of the original store. |
| `Relations.TopLevelRelated` | task_module.py:82-84 | Giving the top-level tasks each other as siblings completes the relationship pass. |
| `Relations.RelatedSettles` | task_module.py:77-84 | After the relationship pass, every task's siblings are the other tasks with its parent and `parents` is its ancestor chain. The tree is kept. |
| `Relations.ParentsExcludeSelf` | task_module.py:18 | A task is never among its own `parents`. |
| `Formula.StripQuotes` | task_module.py:130 | `re.sub` of the quoted-span pattern: each quote opens a span closed by the next quote on the same line, and the span is dropped. A quote with no closing quote before the next newline or the end is kept and the scan resumes after it. Its contract lives in `StripQuotesPrefix`, `StripQuotesSpan` and `StripQuotesUnpaired`. |
| `Formula.StripQuotesApostrophe` | task_module.py:130 | In `f("it's")` the span runs from the double quote to the apostrophe, so `s` stays in the text and the final double quote is kept as unpaired. |
| `Formula.StripQuotesUnpaired` | task_module.py:130 | A quote not closed on its own line stays in the text, and stripping continues with the character after it. |
| `Formula.ClosingQuote` | task_module.py:130 | The closing quote found is the first quote after the opening one on the same line; none is found when no quote follows on that line. |
| `Formula.StripQuotesPrefix` | task_module.py:130 | Text before the first quote passes through unchanged. |
| `Formula.StripQuotesSpan` | task_module.py:130 | A quoted span without inner quotes or newlines is removed whole, whichever quote characters open and close it. |
| `Formula.RunEnd` | task_module.py:133 | A word run extends to the first non-word character. |
| `Formula.TokensFrom` | task_module.py:133 | `re.findall(r'\b\w+\b')` from a position outside a run: the word runs in order, repetitions kept. |
| `Formula.Tokens` | task_module.py:133 | The tokens of the whole text. `TokensAreRuns` states what they are. |
| `Formula.TokensAreRuns` | task_module.py:133 | The tokens are exactly the maximal runs of ASCII word characters, numbers included. |
| `Formula.SpacesThenParen` | task_module.py:137 | Whitespace, then `(`, follows the position. |
| `Formula.WordsThenParen` | task_module.py:141 | One or more word characters, then `(`, follow the position. |
| `Formula.CallAt` | task_module.py:137 | `\bname\s*\(` matches at the position: a word boundary, the name, optional white space, then `(`. |
| `Formula.MemberCallAt` | task_module.py:141 | `\bname\.\w+\(` matches at the position: a word boundary, the name, a dot, one or more word characters, then `(`. |
| `Formula.SearchCall` | task_module.py:137 | The name occurs as a call somewhere in the text. |
| `Formula.SearchMemberCall` | task_module.py:141 | The name occurs with a method called on it somewhere in the text. |
| `Formula.Classification` | task_module.py:133-141 | The token test is a maximal-run test, and the two searches succeed exactly when their pattern matches at some position. |
| `Formula.PlainNames` | task_module.py:135-144 | A name is a plain dependency exactly when it is a maximal word run of the text, is called at no position and has a method called on it at no position. |
| `Formula.ObjectNames` | task_module.py:135-142 | A name is an object dependency exactly when it is a maximal word run of the text, is called at no position and has a method called on it at some position. |
| `Formula.NoParenAllPlain` | task_module.py:133-144 | Without `(` in the text every token is a plain dependency, so in `A.x + 2` both `A` and `2` are plain. |
| `Formula.CalledIsDropped` | task_module.py:137-138 | A token called anywhere is in neither result. |
| `Formula.MemberCallIsObject` | task_module.py:141-142 | A token never called but with a method called on it is an object dependency only. |
| `Formula.FindDependencies` | task_module.py:125-146 | The two returned sets are the plain and the object names of the quote-free formula, and they are disjoint. |
| `Resolution.FirstMatch` | task_module.py:105-107 | No match exactly when no candidate's name ends with the dependency name; a match is a candidate whose name does. |
| `Resolution.FirstMatchIsFirst` | task_module.py:105-107 | No earlier candidate matches. |
| `Resolution.FirstMatchAppend` | task_module.py:104-120 | Searching two lists in turn finds the first list's match when it has one. |
| `Resolution.Climb` | task_module.py:110-120 | The climb visits only tasks of the store. |
| `Resolution.SearchOrder` | task_module.py:103-120 | The search order visits only tasks of the store. |
| `Resolution.Resolve` | task_module.py:103-123 | `_resolve_dependency`: the first task along the search order whose name ends with the dependency name. `ResolveSpec`, `ResolveSplit`, `ClimbStep` and `ResolveNeverSelf` state what it finds. |
| `Resolution.ResolveSpec` | task_module.py:103-123 | A resolved task is in the search order and its name ends with the dependency name; nothing is resolved exactly when no task in the order matches. |
| `Resolution.ResolveSplit` | task_module.py:104-111 | Siblings are searched first, and the climb is made only if none matches. |
| `Resolution.ClimbStep` | task_module.py:111-120 | At each ancestor, the ancestor itself is tested, then its siblings, then the climb goes on to its parent. |
| `Resolution.ClimbShallower` | task_module.py:110-120 | Everything met on the climb sits above the asking task. |
| `Resolution.ResolveNeverSelf` | task_module.py:103-123 | Resolution never returns the asking task. |
| `Resolution.RawSuffix` | task_module.py:106 | For every prefix `x`, dotted or not, `x + n` ends with `n`, and a sibling named `x + n` is what `n` resolves to. |
| `Dependencies.Truthy` | task_module.py:88 | `if task.formula`: a present, non-empty formula. |
| `Dependencies.TargetsSpec` | task_module.py:90-101 | Every target is another task whose name ends with one of the names. |
| `Dependencies.TargetsComplete` | task_module.py:90-101 | Every name that resolves contributes its target. |
| `Dependencies.TargetsAdd` | task_module.py:90-101 | Resolving one more name adds its target, if any. |
| `Dependencies.ResolveFrame` | task_module.py:103-123 | Resolution reads only names, parent links and siblings, so filling edge lists does not change it. |
| `Graph.ShapeKeepsTree` | task_module.py:44-67 | The built store is the described tree with distinct names, top-level tasks without `parents` and no edges. |
| `Graph.RelatedKeepsNames` | task_module.py:77-84 | The relationship pass renames nothing. |
| `Graph.EdgesKeepShape` | task_module.py:86-101 | Adding edges keeps the tree. |
| `Graph.EdgesKeepSettled` | task_module.py:86-101 | Adding edges keeps siblings and `parents` settled. |
| `Graph.WiredResolved` | task_module.py:86-101 | A task without edges ends with edge lists that hold exactly the targets of its formula's names, each once. |
| `Graph.ParseOutcome` | task_module.py:44-75 | A top-level parse ends with the described tree, settled relationships and resolved edges, and the entry point is the last entry or none. |
| `Graph.TaskGraph.constructor` | task_module.py:40-42 | A new graph is empty and has no entry point. |
| `Graph.TaskGraph.Values` | task_module.py:75 | The dictionary's values name tasks of the store. |
| `Graph.TaskGraph.ListValues` | task_module.py:75 | The list is the dictionary's values in key order. |
| `Graph.TaskGraph.ValuesUnique` | task_module.py:53-75 | With distinct names, the dictionary lists every task once, in creation order, each under its own name. |
| `Graph.TaskGraph.Store` | task_module.py:52-62 | The new task joins the store and its name maps to it; a new name is appended to the key order. |
| `Graph.TaskGraph.AddChild` | task_module.py:20-21 | The child is appended to the parent's `children`; nothing else changes. |
| `Graph.TaskGraph.AdoptChild` | task_module.py:66-67 | A task with a parent is appended to its `children`; a top-level task changes nothing. |
| `Graph.TaskGraph.AddDependency` | task_module.py:23-25 | The dependency is appended unless already present; nothing else changes. |
| `Graph.TaskGraph.AddObjectDependency` | task_module.py:27-29 | The object dependency is appended unless already present; nothing else changes. |
| `Graph.TaskGraph.SetRelationships` | task_module.py:15-18 | A task with a parent takes the parent's other children as siblings and the parent's `parents` plus the parent as `parents`. A top-level task is unchanged. |
| `Graph.TaskGraph.SetSiblingsAmong` | task_module.py:57-58 | Each task of the group gets the rest of the group as siblings; no other task and no other field changes. |
| `Graph.TaskGraph.SetAllRelationships` | task_module.py:77-84 | Every task ends as `Related` describes, and the graph stays consistent. |
| `Graph.TaskGraph.FirstAmong` | task_module.py:105-107 | Returns the first candidate whose name ends with the dependency name. |
| `Graph.TaskGraph.ResolveDependency` | task_module.py:103-123 | Returns exactly what `Resolve` finds. |
| `Graph.TaskGraph.AddTarget` | task_module.py:91-101 | One name is resolved; when it resolves, the target is added to the selected edge list, so the list grows by that name's targets. The new store is the old one with the resolved task inserted into that list of task `i` (appended when absent), and nothing else changes. |
| `Graph.TaskGraph.AddResolved` | task_module.py:90-101 | Task `i`'s selected edge list grows by exactly the targets of the names, with no duplicate introduced; nothing else changes. |
| `Graph.TaskGraph.WireTask` | task_module.py:88-101 | A task with a non-empty formula gains the targets of its plain and object names; any other task keeps its edges. |
| `Graph.TaskGraph.SetAllDependencies` | task_module.py:86-101 | Every task's edge lists grow by exactly its formula's targets, and nothing else changes. |
| `Graph.TaskGraph.ParseEntries` | task_module.py:45-75 | The store grows as `Grown` describes, up to siblings, and the entry point is the last entry created. Returns the dictionary's values. |
| `Graph.TaskGraph.ParseEntry` | task_module.py:47-64 | One entry adds the tasks `EntryTasks` describes, up to siblings. A leaf entry adds exactly them. After a mapping entry, every task the dictionary lists has all the others as siblings. |
| `Graph.TaskGraph.ParseNested` | task_module.py:49-58 | A mapping value adds a multitask with its nested entries' tasks beneath it, as children. The nested parse returns every dictionary value (line 75), so afterwards every task the dictionary lists has all the others as siblings. |
| `Graph.TaskGraph.ParseLeaf` | task_module.py:59-64 | Any other value adds one single task with that formula; keyed "main", it becomes the entry point. |
| `Graph.TaskGraph.Parse` | task_module.py:44-75 | Each task is stored under its own name and listed once, and the tree is the one described. Siblings and `parents` are settled and edges are exactly the resolved names. The entry point is the last entry, or none. |
| `Graph.TaskGraph.GetEntryPoint` | task_module.py:148-149 | The entry point, if any, is a single task whose last name segment is "main". |
| `Graph.CreateTaskGraphFromJson` | task_module.py:155-158 | A new graph that has parsed the mapping. Each task is stored under its own name, and the tree is the one described. Siblings and `parents` are settled and edges are exactly the resolved names. The entry point is the last entry, or none. |

## Left out

- The warnings printed for unresolved names (task_module.py:95, 101) do nothing here: an unresolved name adds no edge.
- `Task.__repr__` and `TaskGraph.__repr__` (task_module.py:31-36, 151-152) are text dumps for diagnostics and are not modelled.
- The `__main__` block (task_module.py:161-168) is not modelled; it refers to an undefined `json_data`.
- `\w` and `\s` are taken as their ASCII classes. Python's Unicode classes are wider.
- Leaf values are strings. A non-string leaf that Python treats as true (a non-zero number, `true`, a non-empty list) would make `re.sub` raise. A leaf that Python treats as false (`null`, `0`, `false`, `[]`) is accepted: it becomes a single task whose formula test at task_module.py:88 fails, so it gets no edges. The model does not represent such leaves; a `null` leaf would also be a single task without a formula.
- Graph.TaskGraph.Parse: requires a well-formed mapping, with distinct, non-empty, dot-free keys at every level. Scoped names then never collide, so the dictionary overwrite at task_module.py:53, 62 never hides a task. `Store` models the overwrite itself, but the relationship and dependency passes assume distinct names.
- Graph.TaskGraph.Parse: requires a graph with no tasks yet, as `create_task_graph_from_json` has. A second top-level parse into the same graph is not modelled.
- Graph.TaskGraph.SetAllRelationships: requires distinct names, so that the dictionary lists every task.
- Graph.TaskGraph.SetAllDependencies: requires distinct names, so that the dictionary lists every task.
- Graph.TaskGraph.AddResolved: the order of the added edges follows Python's set iteration order, which is left unspecified. The contract states which edges are added, that earlier edges keep their place, and that no duplicate is introduced, but not the order of the new edges.
- Mapping iteration order is the order of the entry list.
- Graph.TaskGraph.ParseEntries: the store is stated only up to siblings. The interim siblings that task_module.py:57-58 assign along the way are left unstated, because `set_all_relationships` (task_module.py:69-71, 77-84) overwrites every one of them before a top-level `parse` returns. `ParseNested` states what one mapping entry leaves behind.
- Graph.TaskGraph.ParseEntry: for a mapping entry, the siblings of tasks that the dictionary no longer lists (names overwritten at task_module.py:53, 62) are left unstated. `set_all_relationships` overwrites the siblings of every listed task before a top-level `parse` returns.

In these places the model follows the code as written, where a reader might expect other behaviour:

- `parents` runs from the root to the immediate parent (task_module.py:18), not from the parent up.
- A name counts as an object dependency only when written `name.member(`. So in `A.x + 2`, `A` is a plain dependency (task_module.py:141).
- A name is a call target when `(` follows it anywhere in the formula, not only at the occurrence in question (task_module.py:137).
- Only a *single* task keyed "main" becomes the entry point (task_module.py:63).
- A name matches a task when the task's name ends with it as raw text, not as a whole trailing segment. So `x` matches a task named `a.yx` (task_module.py:106, 113, 117; `Resolution.RawSuffix`).
- Either quote character closes a span opened by either one. So in `f("it's")` the apostrophe closes the double-quoted span, and `s` stays in the text (task_module.py:130; `Formula.StripQuotesApostrophe`).
