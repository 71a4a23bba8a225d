# riddler: the bracket-notation query-string parser

riddler turns a query string such as `a[b][0]=c&a[d][]=e` into a nested
JavaScript structure of objects, arrays and strings. After the standard
decoder has split the string into keys and values, `parse` takes each decoded
key in turn. `_genSteps` decomposes the key into navigation *steps*: the
first key, then one step per `[index]` or `[name]` group, and possibly a
trailing `[]` marker. A key the notation cannot read becomes one literal
step for the whole key. `_runStep` then walks the steps from the shared root:

- a step that is not the final one finds or creates a container;
- the final step stores the value, and it may push onto an array there,
  nest it under `''` inside an object, or pair it with a string already
  there.

This project models that core in Dafny:

- `options.dfy` (module `Options`): the optional value used for a pattern
  that may not match, an array slot that may be a hole, and an unset
  `nextType`.
- `jsstring.dfy` (module `JsString`): the JavaScript string operations the
  decomposer relies on:
  - `indexOf` and `slice` with negative positions;
  - `parseInt` on a run of digits;
  - `String(n)`.
- `steps.dfy` (module `Steps`): the decomposer, modelled twice:
  - `Decompose`, a function that specifies it through a small grammar of
    groups (`NextGroup`, `Lex`);
  - `GenSteps`, an imperative method with the source's loop (`ReadGroups`)
    and its closing pass (`LinkSteps`), proved equal to `Decompose`.

  Lemmas about the decomposer prove:
  - a round trip through bracket notation (`Render`);
  - which keys fall back to a literal step;
  - that every group read names a well-formed key.
- `tree.dfy` (module `Tree`): the result tree and what one step does to it.
  - The JavaScript object graph is a value. The tree is a `Node`: a string
    leaf, an array with holes and named properties of its own, or an object.
  - `context` is the path of keys from the root, and an in-place write
    rebuilds the nodes along that path.
  - `PlaceFinal` and `Descend` are the two halves of `_runStep`. Each has
    lemmas listing its outcomes case by case and proving that it touches
    only its own slot.
  - Further lemmas prove that rebuilding along the path changes each
    ancestor only in the slot the path goes through.
- `parse.dfy` (module `Riddler`): the fold of `parse`.
  - `ParseAll` is the specification and `Parse` the nested loops, proved
    equal.
  - `InsertPlaces` states where one key's value lands: the key's final step
    places it, by the final-step rules, into the node its other steps lead
    to. `FlatKey` proves that a key without brackets gives `{k: v}`.
  - Further lemmas prove that the top-level names of the result are exactly
    the first names of the keys, and that a key never disturbs another
    top-level name.
- `expected.dfy` (module `ExpectedTrees`): every example in
  `test/index.js`, derived from the model as a lemma. It also has lemmas for
  four behaviours that no test covers: a string turned into `{'': s}`, a
  value nested under `''` of an object, a string paired with a value, and a
  named property on an array.

The decoder's output is an input to the model. It is a sequence of pairs
(key, `Value`), where a `Value` is `One(s)`, or `Many(ss)` for a repeated
key. The pairs are in the order in which `for … in` enumerates the decoded
object. Where a value is stored, `Tree.ValueNode` gives the node it becomes:
`One(s)` is the string leaf `s`, and `Many(ss)` is an array without holes or
named properties that holds the strings of `ss` in order, as the decoder
returns a repeated key's values.

## Model

| member | source | states |
|---|---|---|
| JsString.IndexOf | lib/index.js:40 | `indexOf` returns -1 exactly when the character is absent, and otherwise a position inside the string |
| JsString.IndexOfFirst | lib/index.js:40 | a found position holds the character, and no earlier position does |
| JsString.DigitRunMaximal | lib/index.js:20 | the digit run that `[0-9]+` consumes is all digits and cannot be extended |
| JsString.SliceClamps | lib/index.js:40 | `slice` with positions inside the string cuts it there, an empty or reversed range is empty, and `slice(0, -1)` drops the last character |
| JsString.DigitsValueLeadingZero | lib/index.js:73 | `parseInt` ignores a leading zero, so `[007]` and `[7]` name the same index |
| JsString.Decimal | lib/index.js:73-143 | `String(n)`, the conversion JavaScript applies implicitly when an index step's numeric key is used as a property name (lines 111, 115 and 143), is a non-empty digit string with no leading zero, and `parseInt` (line 73) reads it back as `n` |
| Steps.ArrayGroup | lib/index.js:20 | a match of `/^\[([0-9]+)\]/` captures a non-empty run of digits, and the input starts with `[digits]` |
| Steps.ArrayGroupMisses | lib/index.js:20 | the array pattern misses only when no `]` closes an all-digit run right after the `[` |
| Steps.ArrayGroupOfDigits | lib/index.js:20 | `[digits]` always matches the array pattern, whatever follows |
| Steps.ArrayGroupOfName | lib/index.js:20 | `[name]` with a name that is not all digits never matches the array pattern |
| Steps.ObjectGroup | lib/index.js:22 | a match of `/^\[([^\]]+)\]/` captures a non-empty name without `]`, and the input starts with `[name]` |
| Steps.ObjectGroupMisses | lib/index.js:22 | the object pattern misses only when the first `]` is missing or comes right after the `[` |
| Steps.ObjectGroupOfName | lib/index.js:22 | `[name]` with a non-empty name without `]` always matches the object pattern, whatever follows |
| Steps.ObjectGroupEnclosed | lib/index.js:22 | a captured name sits between the `[` at position 0 and the `]` right after it |
| Steps.NextGroup | lib/index.js:59-97 | each turn of the loop consumes a group and leaves a strictly shorter remainder, so the loop ends |
| Steps.LexKeyStep | lib/index.js:71-90 | a group that names a key extends what was read so far, and the loop invariant is preserved |
| Steps.LexMarkerStep | lib/index.js:60-69 | the `[]` marker ends the key, or makes the whole key fall back when text follows it |
| Steps.LexMalformed | lib/index.js:91-97 | when neither pattern matches, the whole key falls back |
| Steps.Decompose | lib/index.js:36-106 | the steps are non-empty and start with a named step; only the final step is `last`; every earlier step has the successor's type as `nextType` and no `append` |
| Steps.GenSteps | lib/index.js:36-106 | `_genSteps(path)` returns exactly `Decompose(path)` |
| Steps.ReadGroups | lib/index.js:52-98 | the loop succeeds exactly when the grammar reads the rest; it pushes the first key and then the keys read, and sets `append` exactly when the marker ended the key |
| Steps.LinkSteps | lib/index.js:100-103 | the closing pass links each step to its successor's type and marks the final step `last` |
| Steps.NextGroupOf | lib/index.js:59-90 | the group of a well-formed key is read back as that key, whatever follows it |
| Steps.LexGroups | lib/index.js:59-90 | reading the groups of well-formed keys gives those keys back, in order |
| Steps.BracketFreeKeyIsLiteral | lib/index.js:40-50 | a key without `[` is one literal step, because `slice(0, -1)` leaves one unreadable character |
| Steps.LeadingBracketIsLiteral | lib/index.js:40-50 | a key that starts with `[` has an empty first key and is one literal step |
| Steps.DecomposeRender | lib/index.js:36-106 | round trip: a key written in bracket notation from a first key without `[` and well-formed keys decomposes into exactly those keys, with `append` when the marker ends it |
| Steps.MarkerNotLastIsLiteral | lib/index.js:60-69 | `[]` followed by any text makes the whole key one literal step, even after well-formed groups |
| Steps.NextGroupWellFormed | lib/index.js:71-90 | a name read by the object pattern is non-empty, has no `]` and is not all digits |
| Steps.LexWellFormed | lib/index.js:59-98 | every key a successful read yields is well-formed |
| Steps.DecomposeWellFormed | lib/index.js:36-106 | every step after the first carries a well-formed key, so no named step reads as an index |
| Steps.DecomposeNormalForm | lib/index.js:36-106 | rewriting a readable key in its normal bracket notation decomposes into the very same steps |
| Tree.Get | lib/index.js:111 | `context[key]` finds a node strictly inside the context, or `undefined` |
| Tree.Set | lib/index.js:115-168 | `context[key] = x` keeps the container's kind and makes `context[key]` read `x` |
| Tree.SetFrame | lib/index.js:115-168 | a write changes its own slot and no other |
| Tree.SetIndexGrows | lib/index.js:115-138 | writing index `i` keeps the earlier slots, grows the array to `max(length, i + 1)` and leaves holes in between |
| Tree.PushWritesEnd | lib/index.js:122 | `push` writes the slot just past the end |
| Tree.PlaceFinal | lib/index.js:111-134 | the final step keeps the context's kind and fills `context[key]`; the slot holds a container exactly when it was occupied, the marker was given, or the value was repeated |
| Tree.PlaceFinalCases | lib/index.js:113-131 | the four outcomes: an absent slot gets `value` or `[value]`; an array gains `value` at its end; an object gets `value` placed under `''` by the same rules; a string `s` becomes `[s, value]` |
| Tree.PlaceFinalFrame | lib/index.js:111-134 | the final step touches only `context[key]` |
| Tree.Descend | lib/index.js:136-169 | a non-final step keeps the context's kind and leaves a container at `context[key]` |
| Tree.DescendCases | lib/index.js:136-169 | the three outcomes: an absent slot gets `[]` or `{}` by `nextType`; an existing container is kept unchanged; a string `s` becomes `{'': s}` |
| Tree.DescendFrame | lib/index.js:136-169 | a non-final step touches only `context[key]` |
| Tree.LookupSnoc | lib/index.js:143-169 | the next context, `context[step.key]`, is the node one key further down the path |
| Tree.Replace | lib/index.js:115-168 | after an in-place change to the node at `context`, the changed node is found at the same path, and the root keeps its kind |
| Tree.ReplaceAncestorFrame | lib/index.js:115-168 | the change is in place: every node above `context` stays a container and differs only in the slot the path goes through |
| Tree.Apply | lib/index.js:111-169 | one step keeps the context's kind and leaves `context[key]` set; when the step is not the final one, that slot holds a container |
| Tree.RunStep | lib/index.js:109-170 | a step leaves a valid context; the final step keeps the context, and any other step moves it to `context[step.key]` |
| Tree.RunStepFrame | lib/index.js:109-170 | a step changes only its own slot of the context node |
| Tree.RunStepAncestorFrame | lib/index.js:109-170 | a step leaves every other slot of every node above the context as it was |
| Riddler.RunSteps | lib/index.js:180-182 | running a key's steps keeps a valid context and an object root; where the context goes and where the value lands are stated by `Riddler.RunStepsContext` and `Riddler.RunStepsPlaces` |
| Riddler.RunStepsContext | lib/index.js:180-182 | each non-final step moves `context` one level down, so after them the context is the path of their keys |
| Riddler.RunStepsPlaces | lib/index.js:180-182 | when only the last step is final, the result is the tree after the other steps with the node their keys lead to replaced by `PlaceFinal` of the last step; nothing else changes |
| Riddler.Insert | lib/index.js:178-184 | placing one key keeps the result a plain object; where the value lands is stated by `Riddler.InsertPlaces` |
| Riddler.InsertPlaces | lib/index.js:178-184 | `key=v` walks all but the last of the key's steps from the root; the node they lead to then receives the value by the final-step rules, and the rest of the tree is as those steps left it |
| Riddler.FlatKey | lib/index.js:178-184 | for every key without `[`, parsing `k=v` alone gives `{k: v}` |
| Riddler.ParseAll | lib/index.js:173-187 | `parse` returns a plain object |
| Riddler.Parse | lib/index.js:173-187 | the nested loops, with `context` reset to the root after each key, compute `ParseAll` |
| Riddler.ReplaceBelow | lib/index.js:115-168 | a change below one top-level field leaves every other top-level field as it was |
| Riddler.RunStepsFrame | lib/index.js:178-184 | after one key, the first step's field exists and every other top-level field is unchanged; the context stays inside that field |
| Riddler.InsertFrame | lib/index.js:178-184 | placing a key creates its first name at the top level and changes no other top-level name |
| Riddler.Names | lib/index.js:178 | one first name per decoded key |
| Riddler.ParseAllNames | lib/index.js:173-187 | the result's top-level names are exactly the first names of the decoded keys |
| Riddler.ParseAllKeepsOtherNames | lib/index.js:173-187 | later keys under other first names never disturb what an earlier key built |
| ExpectedTrees.IgnoresInvalidPaths | test/index.js:18-30 | `a[b=c&a[d]=e` gives `{'a[b': 'c', a: {d: 'e'}}` |
| ExpectedTrees.SimpleString | test/index.js:32-41 | `a=b` gives `{a: 'b'}` |
| ExpectedTrees.ImplicitArray | test/index.js:43-52 | `a=b&a=c` gives `{a: ['b', 'c']}` |
| ExpectedTrees.ArrayWithoutIndex | test/index.js:54-63 | `a[]=b` gives `{a: ['b']}` |
| ExpectedTrees.NonIndexedArrayInSubkey | test/index.js:65-76 | `a[b][]=c` gives `{a: {b: ['c']}}` |
| ExpectedTrees.MarkerBeforeSubkey | test/index.js:78-87 | `a[][b]=c` gives `{'a[][b]': 'c'}` |
| ExpectedTrees.ArrayWithIndex | test/index.js:89-98 | `a[0]=b` gives `{a: ['b']}` |
| ExpectedTrees.ArrayWithMultipleItems | test/index.js:100-109 | `a[0]=b&a[1]=c` gives `{a: ['b', 'c']}` |
| ExpectedTrees.SparseArray | test/index.js:111-120 | `a[1]=b` gives `{a: [hole, 'b']}` |
| ExpectedTrees.SparseArrayTwoEntries | test/index.js:122-131 | `a[1]=b&a[3]=c` gives `{a: [hole, 'b', hole, 'c']}` |
| ExpectedTrees.NestedImplicitArray | test/index.js:133-144 | `a[b][0]=c&a[b][1]=d` gives `{a: {b: ['c', 'd']}}` |
| ExpectedTrees.NestedRepeatedArray | test/index.js:146-157 | `a[b]=c&a[b]=d&a[b]=e` gives `{a: {b: ['c', 'd', 'e']}}` |
| ExpectedTrees.DeeperNestedRepeatedArray | test/index.js:159-172 | `a[b][c]=d&a[b][c]=e&a[b][c]=f` gives `{a: {b: {c: ['d', 'e', 'f']}}}` |
| ExpectedTrees.ObjectWithSingleKey | test/index.js:174-185 | `a[b]=c` gives `{a: {b: 'c'}}` |
| ExpectedTrees.ObjectWithMultipleKeys | test/index.js:187-199 | `a[b]=c&a[d]=e` gives `{a: {b: 'c', d: 'e'}}` |
| ExpectedTrees.ObjectWithNestedKey | test/index.js:201-214 | `a[b][c]=d` gives `{a: {b: {c: 'd'}}}` |
| ExpectedTrees.ObjectsAndArraysTogether | test/index.js:216-230 | `a[b][c]=d&a[c][0]=e` gives `{a: {b: {c: 'd'}, c: ['e']}}` |
| ExpectedTrees.ImplicitArrayOfObjects | test/index.js:232-243 | `a[0][b]=c&a[0][b]=d` gives `{a: [{b: ['c', 'd']}]}` |
| ExpectedTrees.ArrayOfObjects | test/index.js:245-257 | `a[0][b]=c&a[0][d][0]=e` gives `{a: [{b: 'c', d: ['e']}]}` |
| ExpectedTrees.StringGainsSubkey | lib/index.js:166-169 | `a=b&a[c]=d` gives `{a: {'': 'b', c: 'd'}}`: a string met on the way down moves under `''` |
| ExpectedTrees.ObjectGainsString | lib/index.js:124-128 | `a[b]=c&a=d` gives `{a: {b: 'c', '': 'd'}}`: a value that lands on an object is placed under `''` |
| ExpectedTrees.StringPairedWithValue | lib/index.js:129-131 | `a=b&a[]=c` gives `{a: ['b', 'c']}`: a value that lands on a string is paired with it, and the marker is ignored |
| ExpectedTrees.ArrayGainsProperty | lib/index.js:146-150 | `a[0]=b&a[c]=d` gives an array `['b']` that also carries the property `c: 'd'` |

## Left out

- The query-string decoder (`Querystring.parse`, lib/index.js:175) is not part of this model. Its output is the input: decoded pairs in enumeration order, with a repeated key given as `Many`. Separators, the assignment character, unescaping and the order in which `for … in` lists integer-like keys are therefore not modelled.
- The constructor and its options (lib/index.js:13-17, 25-33) only configure the decoder, so they are left out with it.
- `stringify` (lib/index.js:190 onwards) is not part of the parsing core and is not modelled.
- Property names that JavaScript objects treat specially (`__proto__`, inherited names such as `constructor`, and an array's `length`) are modelled as ordinary names, so their effects are lost. In JavaScript, `a[0]=x&a[length]=y` throws a RangeError when `_runStep` assigns `[length, value]` (line 130) or, for a non-final step such as `a[length][b]=y`, `{'': length}` (line 168) to the array's `length`; in the model `length` is one more named property of the array. `__proto__[x]=y` writes into `Object.prototype`, shared by every object; in the model it is an ordinary top-level property. An inherited name such as `constructor` is found as already present in JavaScript; in the model it is absent until a key sets it.
- `parseInt` is exact here. Indices beyond 2^53 lose precision in JavaScript, and an index of 2^32 - 1 or more becomes an ordinary property name on an array. The model treats every digit group as an exact array index.
- Tree.Descend: the array-to-object conversion at lib/index.js:152-164 is not written, because it is unreachable: an array passes the object test at line 146 first, so a non-final step leaves an array in place.
- Tree.RunStep: after a final step that nests under `''` (lib/index.js:127), the source returns the inner object as the new context, while the model keeps the step's own context. `parse` never uses the context after a final step, so the result is the same.
- JavaScript objects are shared by reference. The model treats them as values, and an update rebuilds the path from the root. No two places in a tree built by `parse` share a node, so aliasing is not observable.
