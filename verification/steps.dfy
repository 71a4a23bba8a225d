/** The path decomposer (`_genSteps`, lib/index.js:36-106): one decoded
    query-string key with bracket notation becomes a list of navigation steps,
    or a single literal step for the whole key when the notation is malformed. */
module Steps {
  import opened Options
  import opened JsString

  /** A step's `type`: it addresses a mapping field or an array slot. */
  datatype Kind = ObjectKind | ArrayKind

  /** A step's `key`: a property name, or an array index read by `parseInt`. */
  datatype StepKey = Prop(name: string) | Idx(index: nat) {
    function Type(): Kind {
      if Prop? then ObjectKind else ArrayKind
    }
  }

  /** One step object `{type, key, last, append, nextType}`; its `type` is
      `key.Type()`. An `append` the source never sets reads as false, an unset
      `nextType` as `None`. */
  datatype Step = Step(key: StepKey, last: bool, append: bool, nextType: Option<Kind>)

  /** `String(key)`: a name as it is, an index in decimal. This is the
      property name a key becomes on a plain object, and the text of its
      group in a key. */
  function KeyText(k: StepKey): string {
    match k
    case Prop(name) => name
    case Idx(i) => Decimal(i)
  }

  /** The step every fallback returns: the original string as one object key. */
  function Literal(original: string): Step {
    Step(Prop(original), true, false, None)
  }

  function KeysOf(steps: seq<Step>): (ks: seq<StepKey>)
    ensures |ks| == |steps|
    ensures forall i :: 0 <= i < |steps| ==> ks[i] == steps[i].key
  {
    seq(|steps|, i requires 0 <= i < |steps| => steps[i].key)
  }

  // ---------------------------------------------------------------------
  // The two group patterns (lib/index.js:20-22)
  // ---------------------------------------------------------------------

  /** `/^\[([0-9]+)\]/`: the digits of a `[digits]` group at the start of `s`. */
  function ArrayGroup(s: string): (r: Option<string>)
    ensures r.Some? ==> |r.value| >= 1 && AllDigits(r.value) && |r.value| + 2 <= |s|
                        && s[..|r.value| + 2] == "[" + r.value + "]"
  {
    if |s| > 0 && s[0] == '[' then
      var n := DigitRun(s[1..]);
      DigitRunMaximal(s[1..]);
      if 1 <= n && n + 1 < |s| && s[n + 1] == ']' then
        assert s[..n + 2] == "[" + s[1..n + 1] + "]";
        assert s[1..n + 1] == s[1..][..n];
        Some(s[1..n + 1])
      else None
    else None
  }

  /** The array pattern fails only when no `]` closes a non-empty run of
      digits right after the `[`. */
  lemma ArrayGroupMisses(s: string)
    requires ArrayGroup(s).None?
    ensures forall j :: 1 < j < |s| && s[0] == '[' && s[j] == ']' ==> !AllDigits(s[1..j])
  {
    if |s| > 0 && s[0] == '[' {
      var n := DigitRun(s[1..]);
      DigitRunMaximal(s[1..]);
      forall j | 1 < j < |s| && s[j] == ']'
        ensures !AllDigits(s[1..j])
      {
        assert s[1..j] == s[1..][..j - 1];
      }
    }
  }

  /** `/^\[([^\]]+)\]/`: the contents of a `[name]` group at the start of `s`,
      up to the first `]`. */
  function ObjectGroup(s: string): (r: Option<string>)
    ensures r.Some? ==> |r.value| >= 1 && ']' !in r.value && |r.value| + 2 <= |s|
                        && s[..|r.value| + 2] == "[" + r.value + "]"
  {
    if |s| > 0 && s[0] == '[' then
      var e := IndexOf(s[1..], ']');
      IndexOfFirst(s[1..], ']');
      if e >= 1 then
        assert s[..e + 2] == "[" + s[1..e + 1] + "]";
        assert s[1..e + 1] == s[1..][..e];
        Some(s[1..e + 1])
      else None
    else None
  }

  /** The object pattern fails only when the first `]` after the `[` is
      missing or comes right after it. */
  lemma ObjectGroupMisses(s: string)
    requires ObjectGroup(s).None?
    ensures forall j :: 1 < j < |s| && s[0] == '[' && s[j] == ']' ==> ']' in s[1..j]
  {
    if |s| > 0 && s[0] == '[' {
      var e := IndexOf(s[1..], ']');
      IndexOfFirst(s[1..], ']');
      assert forall j :: 1 < j < |s| && s[j] == ']' ==> s[1..][j - 1] == ']';
      assert e == 0 ==> forall j :: 1 < j < |s| ==> s[1..j][0] == ']';
    }
  }

  // ---------------------------------------------------------------------
  // The grammar of a key, as a function (the specification of GenSteps)
  // ---------------------------------------------------------------------

  /** The keys lexed so far in front of the outcome of lexing the rest. */
  function Prepend(ks: seq<StepKey>, r: Option<(seq<StepKey>, bool)>): Option<(seq<StepKey>, bool)> {
    match r
    case None => None
    case Some((more, append)) => Some((ks + more, append))
  }

  lemma PrependNothing(r: Option<(seq<StepKey>, bool)>)
    ensures Prepend([], r) == r
  {
    if r.Some? {
      assert [] + r.value.0 == r.value.0;
    }
  }

  /** What one turn of the `_genSteps` loop finds at the front of the unread
      remainder. */
  datatype Group =
    | End                              // nothing left to read
    | Marker(tail: string)             // `[]`, with what follows it
    | Key(key: StepKey, tail: string)  // `[digits]` or `[name]`, with what follows it
    | Malformed                        // neither pattern matches

  /** The branch order of the loop: the marker first, then the array
      pattern, then the object pattern. */
  function NextGroup(rest: string): (g: Group)
    ensures g.Marker? || g.Key? ==> |g.tail| < |rest|
  {
    if rest == "" then End
    else if Slice(rest, 0, 2) == "[]" then Marker(rest[2..])
    else if ArrayGroup(rest).Some? then
      var digits := ArrayGroup(rest).value;
      Key(Idx(DigitsValue(digits)), rest[|digits| + 2..])
    else if ObjectGroup(rest).Some? then
      var name := ObjectGroup(rest).value;
      Key(Prop(name), rest[|name| + 2..])
    else Malformed
  }

  /** The groups after the first key: the keys they name and whether the key
      ends in the `[]` marker; `None` when the decomposer falls back. */
  function Lex(rest: string): Option<(seq<StepKey>, bool)>
    decreases |rest|
  {
    match NextGroup(rest)
    case End => Some(([], false))
    case Marker(tail) => if tail == "" then Some(([], true)) else None
    case Key(k, tail) => Prepend([k], Lex(tail))
    case Malformed => None
  }

  lemma PrependTwice(a: seq<StepKey>, b: seq<StepKey>, r: Option<(seq<StepKey>, bool)>)
    ensures Prepend(a, Prepend(b, r)) == Prepend(a + b, r)
  {
    if r.Some? {
      assert a + (b + r.value.0) == (a + b) + r.value.0;
    }
  }

  /** What the loop of `_genSteps` keeps: the keys pushed after the first
      one, followed by what lexing the unread rest gives, are what lexing the
      whole remainder gives. */
  predicate LexedSoFar(rest0: string, keys: seq<StepKey>, appended: bool, rest: string)
    requires |keys| >= 1
  {
    Lex(rest0) == Prepend(keys[1..], if appended then Some(([], true)) else Lex(rest))
  }

  /** A group that names a key extends the keys read so far. */
  lemma LexKeyStep(rest0: string, keys: seq<StepKey>, rest: string)
    requires |keys| >= 1 && LexedSoFar(rest0, keys, false, rest) && NextGroup(rest).Key?
    ensures LexedSoFar(rest0, keys + [NextGroup(rest).key], false, NextGroup(rest).tail)
  {
    var k, tail := NextGroup(rest).key, NextGroup(rest).tail;
    assert Lex(rest) == Prepend([k], Lex(tail));
    PrependTwice(keys[1..], [k], Lex(tail));
    assert (keys + [k])[1..] == keys[1..] + [k];
  }

  /** The `[]` marker ends the key, or makes the whole key fall back. */
  lemma LexMarkerStep(rest0: string, keys: seq<StepKey>, rest: string)
    requires |keys| >= 1 && LexedSoFar(rest0, keys, false, rest) && NextGroup(rest).Marker?
    ensures NextGroup(rest).tail == "" ==> LexedSoFar(rest0, keys, true, "")
    ensures NextGroup(rest).tail != "" ==> Lex(rest0) == None
  {
  }

  /** Neither pattern matches: the whole key falls back. */
  lemma LexMalformed(rest0: string, keys: seq<StepKey>, rest: string)
    requires |keys| >= 1 && LexedSoFar(rest0, keys, false, rest) && NextGroup(rest).Malformed?
    ensures Lex(rest0) == None
  {
  }

  /** Steps for a list of keys: only the final one is `last`, each earlier one
      carries the `type` of its successor as `nextType`, and `append` can only
      be on the final one. */
  function Link(keys: seq<StepKey>, append: bool): (steps: seq<Step>)
    ensures |steps| == |keys|
  {
    seq(|keys|, i requires 0 <= i < |keys| =>
      Step(keys[i], i == |keys| - 1, append && i == |keys| - 1,
           if i < |keys| - 1 then Some(keys[i + 1].Type()) else None))
  }

  /** What `_genSteps(path)` returns. */
  function Decompose(path: string): (steps: seq<Step>)
    ensures |steps| >= 1 && steps[0].key.Prop?
    ensures forall i :: 0 <= i < |steps| ==> (steps[i].last <==> i == |steps| - 1)
    ensures forall i :: 0 <= i < |steps| - 1 ==>
              !steps[i].append && steps[i].nextType == Some(steps[i + 1].key.Type())
    ensures steps[|steps| - 1].nextType == None
  {
    var firstKey := Slice(path, 0, IndexOf(path, '['));
    if firstKey == "" then [Literal(path)]
    else
      match Lex(path[|firstKey|..])
      case None => [Literal(path)]
      case Some((more, append)) => Link([Prop(firstKey)] + more, append)
  }

  /** Decompose when lexing the remainder after a non-empty first key succeeds. */
  lemma DecomposeLexed(path: string, keys: seq<StepKey>, append: bool)
    requires |keys| >= 1 && keys[0].Prop?
    requires keys[0].name == Slice(path, 0, IndexOf(path, '[')) && keys[0].name != ""
    requires Lex(path[|keys[0].name|..]) == Some((keys[1..], append))
    ensures Decompose(path) == Link(keys, append)
  {
    assert keys == [keys[0]] + keys[1..];
  }

  /** Once the loop has read everything, the invariant gives the whole outcome. */
  lemma LexedAll(rest0: string, keys: seq<StepKey>, appended: bool)
    requires |keys| >= 1 && LexedSoFar(rest0, keys, appended, "")
    ensures Lex(rest0) == Some((keys[1..], appended))
  {
    assert keys[1..] + [] == keys[1..];
  }

  // ---------------------------------------------------------------------
  // _genSteps itself (lib/index.js:36-106)
  // ---------------------------------------------------------------------

  /** The step list while `_genSteps` works: no step is `last` yet, the first
      `linked` steps already carry their `nextType`, and `append` is on the
      final one when the `[]` marker was seen. */
  function Partial(keys: seq<StepKey>, append: bool, linked: nat): (steps: seq<Step>)
    ensures |steps| == |keys|
  {
    seq(|keys|, i requires 0 <= i < |keys| =>
      Step(keys[i], false, append && i == |keys| - 1,
           if i < linked && i < |keys| - 1 then Some(keys[i + 1].Type()) else None))
  }

  lemma PartialPush(keys: seq<StepKey>, k: StepKey)
    ensures Partial(keys, false, 0) + [Step(k, false, false, None)] == Partial(keys + [k], false, 0)
  {
  }

  lemma PartialMark(keys: seq<StepKey>)
    requires |keys| >= 1
    ensures var steps := Partial(keys, false, 0);
            steps[|steps| - 1 := steps[|steps| - 1].(append := true)] == Partial(keys, true, 0)
  {
  }

  lemma PartialLink(keys: seq<StepKey>, append: bool, i: nat)
    requires i < |keys| - 1
    ensures var steps := Partial(keys, append, i);
            steps[i := steps[i].(nextType := Some(steps[i + 1].key.Type()))] == Partial(keys, append, i + 1)
  {
  }

  lemma PartialLast(keys: seq<StepKey>, append: bool)
    requires |keys| >= 1
    ensures var steps := Partial(keys, append, |keys| - 1);
            steps[|steps| - 1 := steps[|steps| - 1].(last := true)] == Link(keys, append)
  {
  }

  method GenSteps(path: string) returns (steps: seq<Step>)
    ensures steps == Decompose(path)
  {
    var original := path;
    var firstKey := Slice(path, 0, IndexOf(path, '['));
    if firstKey == "" {
      return [Literal(original)];
    }
    var ok;
    steps, ok := ReadGroups(firstKey, path[|firstKey|..]);
    if !ok {
      return [Literal(original)];
    }
    DecomposeLexed(path, KeysOf(steps), steps[|steps| - 1].append);
    steps := LinkSteps(steps);
  }

  /** The loop of `_genSteps` (lib/index.js:53-98): pushes one step for the
      first key and one per group of `rest`; `ok` is false where the source
      returns the literal step instead. */
  method ReadGroups(firstKey: string, rest0: string) returns (steps: seq<Step>, ok: bool)
    ensures ok <==> Lex(rest0).Some?
    ensures ok ==> |steps| >= 1 && KeysOf(steps) == [Prop(firstKey)] + Lex(rest0).value.0
                   && steps[|steps| - 1].append == Lex(rest0).value.1
                   && steps == Partial(KeysOf(steps), steps[|steps| - 1].append, 0)
  {
    var rest := rest0;
    ghost var keys := [Prop(firstKey)];
    ghost var appended := false;
    steps := [Step(Prop(firstKey), false, false, None)];
    assert keys[1..] == [];
    PrependNothing(Lex(rest));

    while rest != ""
      invariant |keys| >= 1 && keys[0] == Prop(firstKey)
      invariant steps == Partial(keys, appended, 0)
      invariant appended ==> rest == ""
      invariant LexedSoFar(rest0, keys, appended, rest)
      decreases |rest|
    {
      if Slice(rest, 0, 2) == "[]" {
        assert NextGroup(rest) == Marker(rest[2..]);
        LexMarkerStep(rest0, keys, rest);
        PartialMark(keys);
        steps := steps[|steps| - 1 := steps[|steps| - 1].(append := true)];
        rest := rest[2..];
        if rest != "" {
          return steps, false;
        }
        appended := true;
      } else if ArrayGroup(rest).Some? {
        var digits := ArrayGroup(rest).value;
        var index := DigitsValue(digits);
        assert NextGroup(rest) == Key(Idx(index), rest[|digits| + 2..]);
        LexKeyStep(rest0, keys, rest);
        PartialPush(keys, Idx(index));
        rest := rest[|digits| + 2..];
        steps := steps + [Step(Idx(index), false, false, None)];
        keys := keys + [Idx(index)];
      } else if ObjectGroup(rest).Some? {
        var name := ObjectGroup(rest).value;
        assert NextGroup(rest) == Key(Prop(name), rest[|name| + 2..]);
        LexKeyStep(rest0, keys, rest);
        PartialPush(keys, Prop(name));
        rest := rest[|name| + 2..];
        steps := steps + [Step(Prop(name), false, false, None)];
        keys := keys + [Prop(name)];
      } else {
        assert NextGroup(rest) == Malformed;
        LexMalformed(rest0, keys, rest);
        return steps, false;
      }
    }

    LexedAll(rest0, keys, appended);
    assert KeysOf(steps) == keys;
    assert keys == [keys[0]] + keys[1..];
    ok := true;
  }

  /** The closing pass of `_genSteps` (lib/index.js:100-103): every step but
      the final one gets its successor's type as `nextType`, and the final one
      becomes `last`. */
  method LinkSteps(steps: seq<Step>) returns (linked: seq<Step>)
    requires |steps| >= 1
    requires steps == Partial(KeysOf(steps), steps[|steps| - 1].append, 0)
    ensures linked == Link(KeysOf(steps), steps[|steps| - 1].append)
  {
    ghost var keys, append := KeysOf(steps), steps[|steps| - 1].append;
    linked := steps;
    for i := 0 to |linked| - 1
      invariant linked == Partial(keys, append, i)
    {
      PartialLink(keys, append, i);
      linked := linked[i := linked[i].(nextType := Some(linked[i + 1].key.Type()))];
    }
    PartialLast(keys, append);
    linked := linked[|linked| - 1 := linked[|linked| - 1].(last := true)];
  }

  // ---------------------------------------------------------------------
  // Keys written in bracket notation
  // ---------------------------------------------------------------------

  /** A key a group can name: any index, or a non-empty name without `]`
      that is not all digits (all digits would read as an index). */
  predicate WellFormedKey(k: StepKey) {
    k.Prop? ==> |k.name| >= 1 && ']' !in k.name && !AllDigits(k.name)
  }

  /** The group that names `k`. */
  function GroupOf(k: StepKey): string {
    "[" + KeyText(k) + "]"
  }

  function Groups(keys: seq<StepKey>): string {
    if keys == [] then "" else GroupOf(keys[0]) + Groups(keys[1..])
  }

  /** A key in bracket notation: the first key, the groups of the others,
      and the `[]` marker if the value is to be wrapped in an array. */
  function Render(first: string, keys: seq<StepKey>, append: bool): string {
    first + Groups(keys) + (if append then "[]" else "")
  }

  /** `[digits]` passes the array pattern, whatever follows it. */
  lemma ArrayGroupOfDigits(d: string, tail: string)
    requires |d| >= 1 && AllDigits(d)
    ensures ArrayGroup("[" + d + "]" + tail) == Some(d)
  {
    var s := "[" + d + "]" + tail;
    assert s[1..] == d + ("]" + tail);
    DigitRunOfDigits(d, "]" + tail);
    assert s[1..|d| + 1] == d;
  }

  /** `[name]` with a name that is not all digits fails the array pattern. */
  lemma ArrayGroupOfName(name: string, tail: string)
    requires !AllDigits(name) && ']' !in name
    ensures ArrayGroup("[" + name + "]" + tail) == None
  {
    var s := "[" + name + "]" + tail;
    assert s[1..] == name + ("]" + tail);
    DigitRunInside(name, "]" + tail);
    var n := DigitRun(s[1..]);
    assert s[n + 1] == name[n];
  }

  /** `[name]` with a non-empty name without `]` passes the object
      pattern, whatever follows it. */
  lemma ObjectGroupOfName(name: string, tail: string)
    requires |name| >= 1 && ']' !in name
    ensures ObjectGroup("[" + name + "]" + tail) == Some(name)
  {
    var s := "[" + name + "]" + tail;
    assert s[1..] == name + ("]" + tail);
    IndexOfAfter(name, "]" + tail, ']');
    assert s[1..|name| + 1] == name;
  }

  /** The group of a well-formed key is read back as that key, whatever
      follows it. */
  lemma NextGroupOf(k: StepKey, tail: string)
    requires WellFormedKey(k)
    ensures NextGroup(GroupOf(k) + tail) == Key(k, tail)
  {
    var text := KeyText(k);
    var s := GroupOf(k) + tail;
    assert s == "[" + text + "]" + tail;
    assert Slice(s, 0, 2) == ['[', text[0]];
    assert s[|text| + 2..] == tail;
    match k
    case Idx(i) =>
      ArrayGroupOfDigits(text, tail);
    case Prop(name) =>
      ArrayGroupOfName(name, tail);
      ObjectGroupOfName(name, tail);
  }

  /** One unfolding of `Lex` at a group that names a key. */
  lemma LexAtKey(s: string)
    requires NextGroup(s).Key?
    ensures Lex(s) == Prepend([NextGroup(s).key], Lex(NextGroup(s).tail))
  {
  }

  /** Reading the groups of well-formed keys gives those keys back, in front
      of whatever reading the rest gives. */
  lemma {:induction false} LexGroups(keys: seq<StepKey>, tail: string)
    requires forall i :: 0 <= i < |keys| ==> WellFormedKey(keys[i])
    ensures Lex(Groups(keys) + tail) == Prepend(keys, Lex(tail))
  {
    if keys == [] {
      assert Groups(keys) + tail == tail;
      PrependNothing(Lex(tail));
    } else {
      var k, rest := keys[0], Groups(keys[1..]) + tail;
      var s := GroupOf(k) + rest;
      assert Groups(keys) + tail == s;
      NextGroupOf(k, rest);
      LexAtKey(s);
      LexGroups(keys[1..], tail);
      PrependCons(Lex(s), Lex(rest), Lex(tail), k, keys[1..]);
      assert [k] + keys[1..] == keys;
    }
  }

  lemma PrependCons(r0: Option<(seq<StepKey>, bool)>, r1: Option<(seq<StepKey>, bool)>,
                    r2: Option<(seq<StepKey>, bool)>, k: StepKey, ks: seq<StepKey>)
    requires r0 == Prepend([k], r1) && r1 == Prepend(ks, r2)
    ensures r0 == Prepend([k] + ks, r2)
  {
    PrependTwice([k], ks, r2);
  }

  /** A key without `[` (the empty key included) is one literal step: the
      first key `path.slice(0, -1)` leaves one character that matches no
      group, or is empty. */
  lemma BracketFreeKeyIsLiteral(path: string)
    requires '[' !in path
    ensures Decompose(path) == [Literal(path)]
  {
    if |path| >= 2 {
      var firstKey := path[..|path| - 1];
      SliceClamps(path, 0, -1);
      var rest := path[|firstKey|..];
      assert rest == [path[|path| - 1]];
      assert NextGroup(rest) == Malformed;
    }
  }

  /** A key that starts with `[` is one literal step. */
  lemma LeadingBracketIsLiteral(path: string)
    requires |path| > 0 && path[0] == '['
    ensures Decompose(path) == [Literal(path)]
  {
  }

  /** What reading gives once only the marker, or nothing, is left. */
  lemma LexEnd(append: bool)
    ensures Lex(if append then "[]" else "") == Some(([], append))
  {
    if append {
      assert NextGroup("[]") == Marker("");
    }
  }

  /** Where a rendered key with at least one group splits, and what reading
      its groups gives. */
  lemma RenderParts(first: string, keys: seq<StepKey>, append: bool)
    requires '[' !in first && (keys != [] || append)
    requires forall i :: 0 <= i < |keys| ==> WellFormedKey(keys[i])
    ensures var path := Render(first, keys, append);
            IndexOf(path, '[') == |first| && Slice(path, 0, |first|) == first
            && Lex(path[|first|..]) == Some((keys, append))
  {
    var marker := if append then "[]" else "";
    var suffix := Groups(keys) + marker;
    assert Render(first, keys, append) == first + suffix;
    if keys == [] {
      assert suffix == "[]";
    } else {
      assert suffix[0] == GroupOf(keys[0])[0];
    }
    SplitAtBracket(first, suffix);
    LexGroups(keys, marker);
    LexEnd(append);
    assert keys + [] == keys;
  }

  /** Round trip: a key written in bracket notation from a first key
      without `[` and well-formed keys decomposes into exactly those keys,
      linked, with `append` on the final step when the marker ends it. */
  lemma DecomposeRender(first: string, keys: seq<StepKey>, append: bool)
    requires first != "" && '[' !in first
    requires forall i :: 0 <= i < |keys| ==> WellFormedKey(keys[i])
    ensures Decompose(Render(first, keys, append)) == Link([Prop(first)] + keys, append)
  {
    var path := Render(first, keys, append);
    var all := [Prop(first)] + keys;
    if keys == [] && !append {
      assert path == first;
      BracketFreeKeyIsLiteral(first);
      assert all == [Prop(first)];
    } else {
      RenderParts(first, keys, append);
      assert all[0].name == first && all[1..] == keys;
      DecomposeLexed(path, all, append);
    }
  }

  /** Decompose when reading the groups fails. */
  lemma DecomposeFallsBack(path: string, firstKey: string)
    requires firstKey == Slice(path, 0, IndexOf(path, '[')) && firstKey != ""
    requires Lex(path[|firstKey|..]) == None
    ensures Decompose(path) == [Literal(path)]
  {
  }

  /** A key made of a first key without `[` and a rest that starts with
      `[` splits between the two. */
  lemma SplitAtBracket(first: string, suffix: string)
    requires '[' !in first && |suffix| > 0 && suffix[0] == '['
    ensures var path := first + suffix;
            IndexOf(path, '[') == |first| && Slice(path, 0, |first|) == first
            && path[|first|..] == suffix
  {
    IndexOfAfter(first, suffix, '[');
    assert (first + suffix)[..|first|] == first;
  }

  /** Where a key with the marker followed by more text splits, and what
      reading its groups gives. */
  lemma MarkerNotLastParts(first: string, keys: seq<StepKey>, more: string)
    requires first != "" && '[' !in first && more != ""
    requires forall i :: 0 <= i < |keys| ==> WellFormedKey(keys[i])
    ensures var path := first + Groups(keys) + "[]" + more;
            IndexOf(path, '[') == |first| && Slice(path, 0, |first|) == first
            && Lex(path[|first|..]) == None
  {
    var g := Groups(keys);
    var suffix := g + ("[]" + more);
    Reassociate(first, g, "[]", more);
    BracketFirst(keys, "[]" + more);
    SplitAtBracket(first, suffix);
    MarkerAfterGroups(keys, more);
  }

  lemma Reassociate(a: string, b: string, c: string, d: string)
    ensures a + b + c + d == a + (b + (c + d))
  {
  }

  /** Groups start with `[`. */
  lemma BracketFirst(keys: seq<StepKey>, tail: string)
    requires |tail| > 0 && tail[0] == '['
    ensures |Groups(keys) + tail| > 0 && (Groups(keys) + tail)[0] == '['
  {
    if keys != [] {
      assert (Groups(keys) + tail)[0] == GroupOf(keys[0])[0];
    }
  }

  lemma MarkerAfterGroups(keys: seq<StepKey>, more: string)
    requires more != ""
    requires forall i :: 0 <= i < |keys| ==> WellFormedKey(keys[i])
    ensures Lex(Groups(keys) + ("[]" + more)) == None
  {
    LexGroups(keys, "[]" + more);
    assert NextGroup("[]" + more) == Marker(more);
  }

  /** The marker must end the key: with anything after it, the whole key
      falls back to one literal step, even after well-formed groups. */
  lemma MarkerNotLastIsLiteral(first: string, keys: seq<StepKey>, more: string)
    requires first != "" && '[' !in first && more != ""
    requires forall i :: 0 <= i < |keys| ==> WellFormedKey(keys[i])
    ensures var path := first + Groups(keys) + "[]" + more;
            Decompose(path) == [Literal(path)]
  {
    MarkerNotLastParts(first, keys, more);
    DecomposeFallsBack(first + Groups(keys) + "[]" + more, first);
  }

  // ---------------------------------------------------------------------
  // Every group the decomposer reads names a well-formed key
  // ---------------------------------------------------------------------

  /** A name read by the object pattern is non-empty, has no `]` and is not
      all digits: the array pattern, tried first, would have read those. */
  lemma NextGroupWellFormed(rest: string)
    requires NextGroup(rest).Key?
    ensures WellFormedKey(NextGroup(rest).key)
  {
    if ArrayGroup(rest).None? && ObjectGroup(rest).Some? {
      var name := ObjectGroup(rest).value;
      ObjectGroupEnclosed(rest, name);
      ArrayGroupMisses(rest);
    }
  }

  /** Where a name read by the object pattern sits in the text. */
  lemma ObjectGroupEnclosed(rest: string, name: string)
    requires ObjectGroup(rest) == Some(name)
    ensures |name| + 1 < |rest| && rest[0] == '[' && rest[|name| + 1] == ']'
    ensures rest[1..|name| + 1] == name
  {
    var j := |name| + 1;
    assert rest[..j + 1] == "[" + name + "]";
    assert rest[1..j] == rest[..j + 1][1..j];
  }

  /** All keys a successful read yields are well-formed. */
  lemma {:induction false} LexWellFormed(rest: string)
    requires Lex(rest).Some?
    ensures forall i :: 0 <= i < |Lex(rest).value.0| ==> WellFormedKey(Lex(rest).value.0[i])
    decreases |rest|
  {
    match NextGroup(rest)
    case End =>
    case Marker(tail) =>
    case Key(k, tail) =>
      NextGroupWellFormed(rest);
      LexWellFormed(tail);
    case Malformed =>
  }

  /** The keys after the first one that `_genSteps` produces are
      well-formed: in particular no property step ever carries a name that
      reads as an index. */
  lemma DecomposeWellFormed(path: string)
    ensures var steps := Decompose(path);
            forall i :: 1 <= i < |steps| ==> WellFormedKey(steps[i].key)
  {
    var firstKey := Slice(path, 0, IndexOf(path, '['));
    if firstKey != "" && Lex(path[|firstKey|..]).Some? {
      LexWellFormed(path[|firstKey|..]);
    }
  }

  /** Decomposing is stable under rewriting a key in its normal form (the
      first key, then each key's group, then the marker): the rewritten key
      decomposes into the very same steps. Only leading zeros of an index
      and nothing else can differ between the two spellings. */
  lemma DecomposeNormalForm(path: string)
    requires var firstKey := Slice(path, 0, IndexOf(path, '['));
             firstKey != "" && Lex(path[|firstKey|..]).Some?
    ensures var firstKey := Slice(path, 0, IndexOf(path, '['));
            var lexed := Lex(path[|firstKey|..]).value;
            Decompose(Render(firstKey, lexed.0, lexed.1)) == Decompose(path)
  {
    var firstKey := Slice(path, 0, IndexOf(path, '['));
    var lexed := Lex(path[|firstKey|..]).value;
    LexWellFormed(path[|firstKey|..]);
    assert '[' !in firstKey by {
      IndexOfFirst(path, '[');
      if IndexOf(path, '[') == -1 {
        assert firstKey == path[..|path| - 1];
      } else {
        assert firstKey == path[..IndexOf(path, '[')];
      }
    }
    DecomposeRender(firstKey, lexed.0, lexed.1);
  }
}
