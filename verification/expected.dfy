/** The trees the repository's tests expect (test/index.js), derived from
    the model. Each query string is given as the pairs the decoder produces,
    with repeated keys already grouped. */
module ExpectedTrees {
  import opened Options
  import opened JsString
  import opened Steps
  import opened Tree
  import opened Riddler

  // ---------------------------------------------------------------------
  // Unfolding the fold for short inputs
  // ---------------------------------------------------------------------

  lemma RunOne(root: Node, s0: Step, v: Value)
    requires root.Obj?
    ensures RunSteps(root, [], [s0], v) == RunStep(root, [], s0, v)
  {
    assert [s0][..0] == [];
  }

  lemma RunTwo(root: Node, s0: Step, s1: Step, v: Value)
    requires root.Obj?
    ensures var m := RunStep(root, [], s0, v);
            RunSteps(root, [], [s0, s1], v) == RunStep(m.0, m.1, s1, v)
  {
    assert [s0, s1][..1] == [s0];
    RunOne(root, s0, v);
  }

  lemma RunThree(root: Node, s0: Step, s1: Step, s2: Step, v: Value)
    requires root.Obj?
    ensures var m := RunSteps(root, [], [s0, s1], v);
            RunSteps(root, [], [s0, s1, s2], v) == RunStep(m.0, m.1, s2, v)
  {
    assert [s0, s1, s2][..2] == [s0, s1];
  }

  lemma RunFour(root: Node, s0: Step, s1: Step, s2: Step, s3: Step, v: Value)
    requires root.Obj?
    ensures var m := RunSteps(root, [], [s0, s1, s2], v);
            RunSteps(root, [], [s0, s1, s2, s3], v) == RunStep(m.0, m.1, s3, v)
  {
    var steps := [s0, s1, s2, s3];
    assert steps[..3] == [s0, s1, s2] && steps[3] == s3;
  }

  lemma ParseOne(p: (string, Value))
    ensures ParseAll([p]) == Insert(EmptyObj(), p.0, p.1)
  {
    assert [p][..0] == [];
  }

  lemma ParseTwo(p: (string, Value), q: (string, Value))
    ensures ParseAll([p, q]) == Insert(Insert(EmptyObj(), p.0, p.1), q.0, q.1)
  {
    assert [p, q][..1] == [p];
    ParseOne(p);
  }

  // ---------------------------------------------------------------------
  // Decomposing short keys
  // ---------------------------------------------------------------------

  /** `first[k]`. */
  lemma DecomposeOneGroup(path: string, first: string, k: StepKey)
    requires first != "" && '[' !in first && WellFormedKey(k)
    requires path == first + GroupOf(k)
    ensures Decompose(path)
            == [Step(Prop(first), false, false, Some(k.Type())), Step(k, true, false, None)]
  {
    assert Groups([k]) == GroupOf(k) + Groups([]);
    assert Render(first, [k], false) == path;
    DecomposeRender(first, [k], false);
  }

  lemma GroupsTwo(k1: StepKey, k2: StepKey)
    ensures Groups([k1, k2]) == GroupOf(k1) + GroupOf(k2)
  {
    assert Groups([k2]) == GroupOf(k2) + Groups([]);
    assert [k1, k2][1..] == [k2];
  }

  lemma GroupsThree(k1: StepKey, k2: StepKey, k3: StepKey)
    ensures Groups([k1, k2, k3]) == GroupOf(k1) + GroupOf(k2) + GroupOf(k3)
  {
    GroupsTwo(k2, k3);
    assert [k1, k2, k3][1..] == [k2, k3];
  }

  lemma RenderTwo(first: string, k1: StepKey, k2: StepKey)
    ensures Render(first, [k1, k2], false) == first + GroupOf(k1) + GroupOf(k2)
  {
    GroupsTwo(k1, k2);
    var s := first + Groups([k1, k2]);
    assert s + "" == s;
  }

  lemma RenderThree(first: string, k1: StepKey, k2: StepKey, k3: StepKey)
    ensures Render(first, [k1, k2, k3], false) == first + GroupOf(k1) + GroupOf(k2) + GroupOf(k3)
  {
    GroupsThree(k1, k2, k3);
    var s := first + Groups([k1, k2, k3]);
    assert s + "" == s;
  }

  lemma ConsThree(k0: StepKey, k1: StepKey, k2: StepKey)
    ensures [k0] + [k1, k2] == [k0, k1, k2]
  {
  }

  lemma ConsFour(k0: StepKey, k1: StepKey, k2: StepKey, k3: StepKey)
    ensures [k0] + [k1, k2, k3] == [k0, k1, k2, k3]
  {
  }

  /** The steps for three keys, linked. */
  lemma LinkThree(k0: StepKey, k1: StepKey, k2: StepKey)
    ensures Link([k0, k1, k2], false)
            == [Step(k0, false, false, Some(k1.Type())), Step(k1, false, false, Some(k2.Type())), Step(k2, true, false, None)]
  {
  }

  /** The steps for four keys, linked. */
  lemma LinkFour(k0: StepKey, k1: StepKey, k2: StepKey, k3: StepKey)
    ensures Link([k0, k1, k2, k3], false)
            == [Step(k0, false, false, Some(k1.Type())), Step(k1, false, false, Some(k2.Type())),
                Step(k2, false, false, Some(k3.Type())), Step(k3, true, false, None)]
  {
  }

  /** `first[k1][k2]`. */
  lemma DecomposeTwoGroups(path: string, first: string, k1: StepKey, k2: StepKey)
    requires first != "" && '[' !in first && WellFormedKey(k1) && WellFormedKey(k2)
    requires path == first + GroupOf(k1) + GroupOf(k2)
    ensures Decompose(path)
            == [Step(Prop(first), false, false, Some(k1.Type())),
                Step(k1, false, false, Some(k2.Type())), Step(k2, true, false, None)]
  {
    RenderTwo(first, k1, k2);
    DecomposeRender(first, [k1, k2], false);
    ConsThree(Prop(first), k1, k2);
    LinkThree(Prop(first), k1, k2);
  }

  /** `first[k1][k2][k3]`. */
  lemma DecomposeThreeGroups(path: string, first: string, k1: StepKey, k2: StepKey, k3: StepKey)
    requires first != "" && '[' !in first && WellFormedKey(k1) && WellFormedKey(k2) && WellFormedKey(k3)
    requires path == first + GroupOf(k1) + GroupOf(k2) + GroupOf(k3)
    ensures Decompose(path)
            == [Step(Prop(first), false, false, Some(k1.Type())),
                Step(k1, false, false, Some(k2.Type())), Step(k2, false, false, Some(k3.Type())),
                Step(k3, true, false, None)]
  {
    RenderThree(first, k1, k2, k3);
    DecomposeRender(first, [k1, k2, k3], false);
    ConsFour(Prop(first), k1, k2, k3);
    LinkFour(Prop(first), k1, k2, k3);
  }

  lemma NameKey(name: string)
    requires |name| >= 1 && ']' !in name && !IsDigit(name[0])
    ensures WellFormedKey(Prop(name))
  {
  }

  // ---------------------------------------------------------------------
  // One step at a known depth
  // ---------------------------------------------------------------------

  lemma RunAtRoot(root: Node, step: Step, v: Value)
    requires root.Obj?
    ensures RunStep(root, [], step, v) == (Apply(root, step, v), if step.last then [] else [step.key])
  {
    assert Lookup(root, []) == Some(root);
    assert [] + [step.key] == [step.key];
  }

  lemma RunBelow(root: Node, name: string, step: Step, v: Value)
    requires root.Obj? && name in root.fields && root.fields[name].IsContainer()
    ensures RunStep(root, [Prop(name)], step, v)
            == (Obj(root.fields[name := Apply(root.fields[name], step, v)]),
                if step.last then [Prop(name)] else [Prop(name), step.key])
  {
    assert [Prop(name)] + [step.key] == [Prop(name), step.key];
    var c := root.fields[name];
    assert Lookup(c, []) == Some(c);
    assert Lookup(root, [Prop(name)]) == Some(c);
    assert Replace(c, [], Apply(c, step, v)) == Apply(c, step, v);
  }

  lemma RunBelowProp(root: Node, name: string, sub: string, step: Step, v: Value)
    requires root.Obj? && name in root.fields && root.fields[name].Obj?
    requires sub in root.fields[name].fields && root.fields[name].fields[sub].IsContainer()
    ensures IsContext(root, [Prop(name), Prop(sub)])
    ensures var c := root.fields[name];
            RunStep(root, [Prop(name), Prop(sub)], step, v).0
            == Obj(root.fields[name := Obj(c.fields[sub := Apply(c.fields[sub], step, v)])])
  {
    var c := root.fields[name];
    var d := c.fields[sub];
    var x := Apply(d, step, v);
    assert Lookup(d, []) == Some(d);
    assert Lookup(c, [Prop(sub)]) == Some(d);
    assert Lookup(root, [Prop(name), Prop(sub)]) == Some(d);
    assert [Prop(name), Prop(sub)][1..] == [Prop(sub)];
    assert Replace(d, [], x) == x;
    assert Replace(c, [Prop(sub)], x) == Obj(c.fields[sub := x]);
  }

  lemma RunBelowIdx(root: Node, name: string, i: nat, step: Step, v: Value)
    requires root.Obj? && name in root.fields && root.fields[name].Arr?
    requires i < |root.fields[name].slots| && root.fields[name].slots[i].Some?
    requires root.fields[name].slots[i].value.IsContainer()
    ensures IsContext(root, [Prop(name), Idx(i)])
    ensures var c := root.fields[name];
            RunStep(root, [Prop(name), Idx(i)], step, v)
            == (Obj(root.fields[name := Arr(c.slots[i := Some(Apply(c.slots[i].value, step, v))], c.props)]),
                if step.last then [Prop(name), Idx(i)] else [Prop(name), Idx(i), step.key])
  {
    assert [Prop(name), Idx(i)] + [step.key] == [Prop(name), Idx(i), step.key];
    var c := root.fields[name];
    var d := c.slots[i].value;
    var x := Apply(d, step, v);
    assert Lookup(d, []) == Some(d);
    assert Lookup(c, [Idx(i)]) == Some(d);
    assert Lookup(root, [Prop(name), Idx(i)]) == Some(d);
    assert [Prop(name), Idx(i)][1..] == [Idx(i)];
    assert Replace(d, [], x) == x;
    assert Replace(c, [Idx(i)], x) == Arr(c.slots[i := Some(x)], c.props);
  }

  lemma RunBelowIdxProp(root: Node, name: string, i: nat, sub: string, step: Step, v: Value)
    requires root.Obj? && name in root.fields && root.fields[name].Arr?
    requires i < |root.fields[name].slots| && root.fields[name].slots[i].Some?
    requires root.fields[name].slots[i].value.Obj?
    requires sub in root.fields[name].slots[i].value.fields
    requires root.fields[name].slots[i].value.fields[sub].IsContainer()
    ensures IsContext(root, [Prop(name), Idx(i), Prop(sub)])
    ensures var c := root.fields[name];
            var d := c.slots[i].value;
            RunStep(root, [Prop(name), Idx(i), Prop(sub)], step, v).0
            == Obj(root.fields[name := Arr(c.slots[i := Some(Obj(d.fields[sub := Apply(d.fields[sub], step, v)]))], c.props)])
  {
    var c := root.fields[name];
    var d := c.slots[i].value;
    var e := d.fields[sub];
    var x := Apply(e, step, v);
    assert Lookup(e, []) == Some(e);
    assert Lookup(d, [Prop(sub)]) == Some(e);
    assert [Idx(i), Prop(sub)][1..] == [Prop(sub)];
    assert Lookup(c, [Idx(i), Prop(sub)]) == Some(e);
    assert [Prop(name), Idx(i), Prop(sub)][1..] == [Idx(i), Prop(sub)];
    assert Lookup(root, [Prop(name), Idx(i), Prop(sub)]) == Some(e);
    assert Replace(e, [], x) == x;
    assert Replace(d, [Prop(sub)], x) == Obj(d.fields[sub := x]);
    assert Replace(c, [Idx(i), Prop(sub)], x) == Arr(c.slots[i := Some(Obj(d.fields[sub := x]))], c.props);
  }

  /** A non-final step at the root whose key is not there yet creates the
      container the next step asks for. */
  lemma NewContainerAtRoot(t: Node, name: string, next: Kind, v: Value)
    requires t.Obj? && name !in t.fields
    ensures RunStep(t, [], Step(Prop(name), false, false, Some(next)), v)
            == (Obj(t.fields[name := if next == ArrayKind then EmptyArr() else EmptyObj()]), [Prop(name)])
  {
    RunAtRoot(t, Step(Prop(name), false, false, Some(next)), v);
  }

  /** A non-final step at the root whose key holds a container only moves
      the context. */
  lemma ExistingContainerAtRoot(t: Node, name: string, next: Kind, v: Value)
    requires t.Obj? && name in t.fields && t.fields[name].IsContainer()
    ensures RunStep(t, [], Step(Prop(name), false, false, Some(next)), v) == (t, [Prop(name)])
  {
    RunAtRoot(t, Step(Prop(name), false, false, Some(next)), v);
  }

  // ---------------------------------------------------------------------
  // test/index.js:18-30, a key whose group is never closed
  // ---------------------------------------------------------------------

  /** A `[` that no `]` follows makes the whole key one literal step. */
  lemma UnclosedGroupIsLiteral(first: string, more: string)
    requires first != "" && '[' !in first && ']' !in more
    ensures Decompose(first + "[" + more) == [Literal(first + "[" + more)]
  {
    var suffix := "[" + more;
    assert first + "[" + more == first + suffix;
    SplitAtBracket(first, suffix);
    assert Slice(suffix, 0, 2) != "[]" by {
      if |suffix| >= 2 {
        assert suffix[1] == more[0];
      }
    }
    assert ']' !in suffix[1..] by {
      assert suffix[1..] == more;
    }
    assert ObjectGroup(suffix) == None;
    assert ArrayGroup(suffix) == None;
    assert NextGroup(suffix) == Malformed;
    DecomposeFallsBack(first + suffix, first);
  }

  lemma InsertUnclosed()
    ensures Insert(EmptyObj(), "a[b", One("c")) == Obj(map["a[b" := Leaf("c")])
  {
    UnclosedGroupIsLiteral("a", "b");
    assert "a" + "[" + "b" == "a[b";
    RunAtRoot(EmptyObj(), Literal("a[b"), One("c"));
    RunOne(EmptyObj(), Literal("a[b"), One("c"));
  }


  lemma BesideUnclosedFirst(t0: Node)
    requires t0 == Obj(map["a[b" := Leaf("c")])
    ensures RunStep(t0, [], Step(Prop("a"), false, false, Some(ObjectKind)), One("e"))
            == (Obj(map["a[b" := Leaf("c"), "a" := EmptyObj()]), [Prop("a")])
  {
    var s0 := Step(Prop("a"), false, false, Some(ObjectKind));
    RunAtRoot(t0, s0, One("e"));
    assert t0.fields["a" := EmptyObj()] == map["a[b" := Leaf("c"), "a" := EmptyObj()];
  }

  lemma BesideUnclosedSecond(t1: Node)
    requires t1 == Obj(map["a[b" := Leaf("c"), "a" := EmptyObj()])
    ensures RunStep(t1, [Prop("a")], Step(Prop("d"), true, false, None), One("e"))
            == (Obj(map["a[b" := Leaf("c"), "a" := Obj(map["d" := Leaf("e")])]), [Prop("a")])
  {
    var s1 := Step(Prop("d"), true, false, None);
    RunBelow(t1, "a", s1, One("e"));
    var d := Obj(map["d" := Leaf("e")]);
    assert Apply(EmptyObj(), s1, One("e")) == d;
    assert t1.fields["a" := d] == map["a[b" := Leaf("c"), "a" := d];
  }

  lemma InsertBesideUnclosed(t0: Node)
    requires t0 == Obj(map["a[b" := Leaf("c")])
    ensures Insert(t0, "a[d]", One("e")) == Obj(map["a[b" := Leaf("c"), "a" := Obj(map["d" := Leaf("e")])])
  {
    NameKey("d");
    assert GroupOf(Prop("d")) == "[d]";
    DecomposeOneGroup("a[d]", "a", Prop("d"));
    BesideUnclosedFirst(t0);
    BesideUnclosedSecond(Obj(map["a[b" := Leaf("c"), "a" := EmptyObj()]));
    RunTwo(t0, Step(Prop("a"), false, false, Some(ObjectKind)), Step(Prop("d"), true, false, None), One("e"));
  }

  /** `a[b=c&a[d]=e` gives `{'a[b': 'c', a: {d: 'e'}}`. */
  lemma IgnoresInvalidPaths()
    ensures ParseAll([("a[b", One("c")), ("a[d]", One("e"))])
            == Obj(map["a[b" := Leaf("c"), "a" := Obj(map["d" := Leaf("e")])])
  {
    InsertUnclosed();
    InsertBesideUnclosed(Obj(map["a[b" := Leaf("c")]));
    ParseTwo(("a[b", One("c")), ("a[d]", One("e")));
  }

  // ---------------------------------------------------------------------
  // test/index.js:32-87, plain keys and the `[]` marker
  // ---------------------------------------------------------------------

  lemma InsertPlain()
    ensures Insert(EmptyObj(), "a", One("b")) == Obj(map["a" := Leaf("b")])
  {
    BracketFreeKeyIsLiteral("a");
    RunAtRoot(EmptyObj(), Literal("a"), One("b"));
    RunOne(EmptyObj(), Literal("a"), One("b"));
  }

  /** `a=b` gives `{a: 'b'}`. */
  lemma SimpleString()
    ensures ParseAll([("a", One("b"))]) == Obj(map["a" := Leaf("b")])
  {
    InsertPlain();
    ParseOne(("a", One("b")));
  }

  /** `a=b&a=c`, which the decoder hands over as one key with two values,
      gives `{a: ['b', 'c']}`. */
  lemma ImplicitArray()
    ensures ParseAll([("a", Many(["b", "c"]))]) == Obj(map["a" := Arr([Some(Leaf("b")), Some(Leaf("c"))], map[])])
  {
    BracketFreeKeyIsLiteral("a");
    var v := Many(["b", "c"]);
    assert ValueNode(v) == Arr([Some(Leaf("b")), Some(Leaf("c"))], map[]);
    RunAtRoot(EmptyObj(), Literal("a"), v);
    RunOne(EmptyObj(), Literal("a"), v);
    ParseOne(("a", v));
  }

  /** `first[]`. */
  lemma DecomposeMarker(path: string, first: string)
    requires first != "" && '[' !in first && path == first + "[]"
    ensures Decompose(path) == [Step(Prop(first), true, true, None)]
  {
    assert Render(first, [], true) == path;
    DecomposeRender(first, [], true);
    assert [Prop(first)] + [] == [Prop(first)];
  }

  /** `a[]=b` gives `{a: ['b']}`. */
  lemma ArrayWithoutIndex()
    ensures ParseAll([("a[]", One("b"))]) == Obj(map["a" := Arr([Some(Leaf("b"))], map[])])
  {
    var s0 := Step(Prop("a"), true, true, None);
    DecomposeMarker("a[]", "a");
    RunAtRoot(EmptyObj(), s0, One("b"));
    RunOne(EmptyObj(), s0, One("b"));
    ParseOne(("a[]", One("b")));
  }

  /** `first[k][]`. */
  lemma DecomposeGroupMarker(path: string, first: string, k: StepKey)
    requires first != "" && '[' !in first && WellFormedKey(k)
    requires path == first + GroupOf(k) + "[]"
    ensures Decompose(path)
            == [Step(Prop(first), false, false, Some(k.Type())), Step(k, true, true, None)]
  {
    assert Groups([k]) == GroupOf(k) + Groups([]);
    assert Render(first, [k], true) == path;
    DecomposeRender(first, [k], true);
  }

  lemma SubkeyArrayFirst()
    ensures RunStep(EmptyObj(), [], Step(Prop("a"), false, false, Some(ObjectKind)), One("c"))
            == (Obj(map["a" := EmptyObj()]), [Prop("a")])
  {
    RunAtRoot(EmptyObj(), Step(Prop("a"), false, false, Some(ObjectKind)), One("c"));
  }

  lemma SubkeyArraySecond(t1: Node)
    requires t1 == Obj(map["a" := EmptyObj()])
    ensures RunStep(t1, [Prop("a")], Step(Prop("b"), true, true, None), One("c"))
            == (Obj(map["a" := Obj(map["b" := Arr([Some(Leaf("c"))], map[])])]), [Prop("a")])
  {
    var s1 := Step(Prop("b"), true, true, None);
    RunBelow(t1, "a", s1, One("c"));
    var d := Obj(map["b" := Arr([Some(Leaf("c"))], map[])]);
    assert Apply(EmptyObj(), s1, One("c")) == d;
    assert t1.fields["a" := d] == map["a" := d];
  }

  /** `a[b][]=c` gives `{a: {b: ['c']}}`. */
  lemma NonIndexedArrayInSubkey()
    ensures ParseAll([("a[b][]", One("c"))]) == Obj(map["a" := Obj(map["b" := Arr([Some(Leaf("c"))], map[])])])
  {
    NameKey("b");
    assert GroupOf(Prop("b")) == "[b]";
    DecomposeGroupMarker("a[b][]", "a", Prop("b"));
    SubkeyArrayFirst();
    SubkeyArraySecond(Obj(map["a" := EmptyObj()]));
    RunTwo(EmptyObj(), Step(Prop("a"), false, false, Some(ObjectKind)), Step(Prop("b"), true, true, None), One("c"));
    ParseOne(("a[b][]", One("c")));
  }

  lemma SpellMarkerBeforeSubkey()
    ensures "a" + Groups([]) + "[]" + "[b]" == "a[][b]"
  {
    assert Groups([]) == "";
  }

  lemma DecomposeMarkerBeforeSubkey()
    ensures Decompose("a[][b]") == [Literal("a[][b]")]
  {
    SpellMarkerBeforeSubkey();
    MarkerNotLastIsLiteral("a", [], "[b]");
  }

  /** `a[][b]=c` gives `{'a[][b]': 'c'}`: the marker must come last. */
  lemma MarkerBeforeSubkey()
    ensures ParseAll([("a[][b]", One("c"))]) == Obj(map["a[][b]" := Leaf("c")])
  {
    DecomposeMarkerBeforeSubkey();
    RunAtRoot(EmptyObj(), Literal("a[][b]"), One("c"));
    RunOne(EmptyObj(), Literal("a[][b]"), One("c"));
    ParseOne(("a[][b]", One("c")));
  }

  // ---------------------------------------------------------------------
  // test/index.js:89-131, indexed and sparse arrays
  // ---------------------------------------------------------------------

  lemma FirstIndexBelow(t1: Node, x: string)
    requires t1 == Obj(map["a" := EmptyArr()])
    ensures RunStep(t1, [Prop("a")], Step(Idx(0), true, false, None), One(x))
            == (Obj(map["a" := Arr([Some(Leaf(x))], map[])]), [Prop("a")])
  {
    var s1 := Step(Idx(0), true, false, None);
    RunBelow(t1, "a", s1, One(x));
    assert Holes(0) == [];
    var d := Arr([Some(Leaf(x))], map[]);
    assert Apply(EmptyArr(), s1, One(x)) == d;
    assert t1.fields["a" := d] == map["a" := d];
  }

  lemma InsertFirstIndex()
    ensures Insert(EmptyObj(), "a[0]", One("b")) == Obj(map["a" := Arr([Some(Leaf("b"))], map[])])
  {
    assert Decimal(0) == "0";
    assert GroupOf(Idx(0)) == "[0]";
    DecomposeOneGroup("a[0]", "a", Idx(0));
    NewContainerAtRoot(EmptyObj(), "a", ArrayKind, One("b"));
    FirstIndexBelow(Obj(map["a" := EmptyArr()]), "b");
    RunTwo(EmptyObj(), Step(Prop("a"), false, false, Some(ArrayKind)), Step(Idx(0), true, false, None), One("b"));
  }

  /** `a[0]=b` gives `{a: ['b']}`. */
  lemma ArrayWithIndex()
    ensures ParseAll([("a[0]", One("b"))]) == Obj(map["a" := Arr([Some(Leaf("b"))], map[])])
  {
    InsertFirstIndex();
    ParseOne(("a[0]", One("b")));
  }

  lemma SecondIndexBelow(t1: Node)
    requires t1 == Obj(map["a" := Arr([Some(Leaf("b"))], map[])])
    ensures RunStep(t1, [Prop("a")], Step(Idx(1), true, false, None), One("c"))
            == (Obj(map["a" := Arr([Some(Leaf("b")), Some(Leaf("c"))], map[])]), [Prop("a")])
  {
    var s1 := Step(Idx(1), true, false, None);
    RunBelow(t1, "a", s1, One("c"));
    assert Holes(0) == [];
    var d := Arr([Some(Leaf("b")), Some(Leaf("c"))], map[]);
    assert Apply(t1.fields["a"], s1, One("c")) == d;
    assert t1.fields["a" := d] == map["a" := d];
  }

  lemma InsertSecondIndex(t0: Node)
    requires t0 == Obj(map["a" := Arr([Some(Leaf("b"))], map[])])
    ensures Insert(t0, "a[1]", One("c")) == Obj(map["a" := Arr([Some(Leaf("b")), Some(Leaf("c"))], map[])])
  {
    assert Decimal(1) == "1";
    assert GroupOf(Idx(1)) == "[1]";
    DecomposeOneGroup("a[1]", "a", Idx(1));
    ExistingContainerAtRoot(t0, "a", ArrayKind, One("c"));
    SecondIndexBelow(t0);
    RunTwo(t0, Step(Prop("a"), false, false, Some(ArrayKind)), Step(Idx(1), true, false, None), One("c"));
  }

  /** `a[0]=b&a[1]=c` gives `{a: ['b', 'c']}`. */
  lemma ArrayWithMultipleItems()
    ensures ParseAll([("a[0]", One("b")), ("a[1]", One("c"))])
            == Obj(map["a" := Arr([Some(Leaf("b")), Some(Leaf("c"))], map[])])
  {
    InsertFirstIndex();
    InsertSecondIndex(Obj(map["a" := Arr([Some(Leaf("b"))], map[])]));
    ParseTwo(("a[0]", One("b")), ("a[1]", One("c")));
  }

  lemma SparseBelow(t1: Node)
    requires t1 == Obj(map["a" := EmptyArr()])
    ensures RunStep(t1, [Prop("a")], Step(Idx(1), true, false, None), One("b"))
            == (Obj(map["a" := Arr([None, Some(Leaf("b"))], map[])]), [Prop("a")])
  {
    var s1 := Step(Idx(1), true, false, None);
    RunBelow(t1, "a", s1, One("b"));
    assert Holes(1) == [None];
    var d := Arr([None, Some(Leaf("b"))], map[]);
    assert Apply(EmptyArr(), s1, One("b")) == d;
    assert t1.fields["a" := d] == map["a" := d];
  }

  lemma InsertSparse()
    ensures Insert(EmptyObj(), "a[1]", One("b")) == Obj(map["a" := Arr([None, Some(Leaf("b"))], map[])])
  {
    assert Decimal(1) == "1";
    assert GroupOf(Idx(1)) == "[1]";
    DecomposeOneGroup("a[1]", "a", Idx(1));
    NewContainerAtRoot(EmptyObj(), "a", ArrayKind, One("b"));
    SparseBelow(Obj(map["a" := EmptyArr()]));
    RunTwo(EmptyObj(), Step(Prop("a"), false, false, Some(ArrayKind)), Step(Idx(1), true, false, None), One("b"));
  }

  /** `a[1]=b` gives `{a: [hole, 'b']}`. */
  lemma SparseArray()
    ensures ParseAll([("a[1]", One("b"))]) == Obj(map["a" := Arr([None, Some(Leaf("b"))], map[])])
  {
    InsertSparse();
    ParseOne(("a[1]", One("b")));
  }

  lemma SparseAgainBelow(t1: Node)
    requires t1 == Obj(map["a" := Arr([None, Some(Leaf("b"))], map[])])
    ensures RunStep(t1, [Prop("a")], Step(Idx(3), true, false, None), One("c"))
            == (Obj(map["a" := Arr([None, Some(Leaf("b")), None, Some(Leaf("c"))], map[])]), [Prop("a")])
  {
    var s1 := Step(Idx(3), true, false, None);
    RunBelow(t1, "a", s1, One("c"));
    assert Holes(1) == [None];
    var d := Arr([None, Some(Leaf("b")), None, Some(Leaf("c"))], map[]);
    assert Apply(t1.fields["a"], s1, One("c")) == d;
    assert t1.fields["a" := d] == map["a" := d];
  }

  lemma InsertSparseAgain(t0: Node)
    requires t0 == Obj(map["a" := Arr([None, Some(Leaf("b"))], map[])])
    ensures Insert(t0, "a[3]", One("c")) == Obj(map["a" := Arr([None, Some(Leaf("b")), None, Some(Leaf("c"))], map[])])
  {
    assert Decimal(3) == "3";
    assert GroupOf(Idx(3)) == "[3]";
    DecomposeOneGroup("a[3]", "a", Idx(3));
    ExistingContainerAtRoot(t0, "a", ArrayKind, One("c"));
    SparseAgainBelow(t0);
    RunTwo(t0, Step(Prop("a"), false, false, Some(ArrayKind)), Step(Idx(3), true, false, None), One("c"));
  }

  /** `a[1]=b&a[3]=c` gives `{a: [hole, 'b', hole, 'c']}`. */
  lemma SparseArrayTwoEntries()
    ensures ParseAll([("a[1]", One("b")), ("a[3]", One("c"))])
            == Obj(map["a" := Arr([None, Some(Leaf("b")), None, Some(Leaf("c"))], map[])])
  {
    InsertSparse();
    InsertSparseAgain(Obj(map["a" := Arr([None, Some(Leaf("b"))], map[])]));
    ParseTwo(("a[1]", One("b")), ("a[3]", One("c")));
  }

  // ---------------------------------------------------------------------
  // test/index.js:133-243, nested objects and arrays
  // ---------------------------------------------------------------------

  lemma NestedRepeatedBelow(t1: Node)
    requires t1 == Obj(map["a" := EmptyObj()])
    ensures RunStep(t1, [Prop("a")], Step(Prop("b"), true, false, None), Many(["c", "d", "e"]))
            == (Obj(map["a" := Obj(map["b" := Arr([Some(Leaf("c")), Some(Leaf("d")), Some(Leaf("e"))], map[])])]),
                [Prop("a")])
  {
    var v := Many(["c", "d", "e"]);
    var s1 := Step(Prop("b"), true, false, None);
    RunBelow(t1, "a", s1, v);
    var arr := Arr([Some(Leaf("c")), Some(Leaf("d")), Some(Leaf("e"))], map[]);
    assert ValueNode(v) == arr;
    var d := Obj(map["b" := arr]);
    assert Apply(EmptyObj(), s1, v) == d;
    assert t1.fields["a" := d] == map["a" := d];
  }

  /** `a[b]=c&a[b]=d&a[b]=e`, one key with three values, gives
      `{a: {b: ['c', 'd', 'e']}}`. */
  lemma NestedRepeatedArray()
    ensures ParseAll([("a[b]", Many(["c", "d", "e"]))])
            == Obj(map["a" := Obj(map["b" := Arr([Some(Leaf("c")), Some(Leaf("d")), Some(Leaf("e"))], map[])])])
  {
    var v := Many(["c", "d", "e"]);
    NameKey("b");
    assert GroupOf(Prop("b")) == "[b]";
    DecomposeOneGroup("a[b]", "a", Prop("b"));
    NewContainerAtRoot(EmptyObj(), "a", ObjectKind, v);
    NestedRepeatedBelow(Obj(map["a" := EmptyObj()]));
    RunTwo(EmptyObj(), Step(Prop("a"), false, false, Some(ObjectKind)), Step(Prop("b"), true, false, None), v);
    ParseOne(("a[b]", v));
  }

  lemma SubkeyIndexSecond(t1: Node)
    requires t1 == Obj(map["a" := EmptyObj()])
    ensures RunStep(t1, [Prop("a")], Step(Prop("b"), false, false, Some(ArrayKind)), One("c"))
            == (Obj(map["a" := Obj(map["b" := EmptyArr()])]), [Prop("a"), Prop("b")])
  {
    var s1 := Step(Prop("b"), false, false, Some(ArrayKind));
    RunBelow(t1, "a", s1, One("c"));
    var d := Obj(map["b" := EmptyArr()]);
    assert Apply(EmptyObj(), s1, One("c")) == d;
    assert t1.fields["a" := d] == map["a" := d];
  }

  lemma SubkeyIndexThird(t2: Node)
    requires t2 == Obj(map["a" := Obj(map["b" := EmptyArr()])])
    ensures RunStep(t2, [Prop("a"), Prop("b")], Step(Idx(0), true, false, None), One("c")).0
            == Obj(map["a" := Obj(map["b" := Arr([Some(Leaf("c"))], map[])])])
  {
    var s2 := Step(Idx(0), true, false, None);
    RunBelowProp(t2, "a", "b", s2, One("c"));
    var e := Arr([Some(Leaf("c"))], map[]);
    assert Holes(0) == [];
    assert Apply(EmptyArr(), s2, One("c")) == e;
    var c := t2.fields["a"];
    assert c.fields["b" := e] == map["b" := e];
    assert t2.fields["a" := Obj(map["b" := e])] == map["a" := Obj(map["b" := e])];
  }

  lemma InsertSubkeyIndex()
    ensures Insert(EmptyObj(), "a[b][0]", One("c")) == Obj(map["a" := Obj(map["b" := Arr([Some(Leaf("c"))], map[])])])
  {
    var v := One("c");
    NameKey("b");
    assert Decimal(0) == "0";
    assert GroupOf(Prop("b")) == "[b]" && GroupOf(Idx(0)) == "[0]";
    DecomposeTwoGroups("a[b][0]", "a", Prop("b"), Idx(0));
    var s0, s1, s2 := Step(Prop("a"), false, false, Some(ObjectKind)),
                      Step(Prop("b"), false, false, Some(ArrayKind)), Step(Idx(0), true, false, None);
    NewContainerAtRoot(EmptyObj(), "a", ObjectKind, v);
    SubkeyIndexSecond(Obj(map["a" := EmptyObj()]));
    SubkeyIndexThird(Obj(map["a" := Obj(map["b" := EmptyArr()])]));
    RunTwo(EmptyObj(), s0, s1, v);
    RunThree(EmptyObj(), s0, s1, s2, v);
  }

  lemma SubkeyIndexAgainSecond(t1: Node)
    requires t1 == Obj(map["a" := Obj(map["b" := Arr([Some(Leaf("c"))], map[])])])
    ensures RunStep(t1, [Prop("a")], Step(Prop("b"), false, false, Some(ArrayKind)), One("d"))
            == (t1, [Prop("a"), Prop("b")])
  {
    var s1 := Step(Prop("b"), false, false, Some(ArrayKind));
    RunBelow(t1, "a", s1, One("d"));
    var d := t1.fields["a"];
    assert Apply(d, s1, One("d")) == d;
    assert t1.fields["a" := d] == t1.fields;
  }

  lemma SubkeyIndexAgainThird(t1: Node)
    requires t1 == Obj(map["a" := Obj(map["b" := Arr([Some(Leaf("c"))], map[])])])
    ensures RunStep(t1, [Prop("a"), Prop("b")], Step(Idx(1), true, false, None), One("d")).0
            == Obj(map["a" := Obj(map["b" := Arr([Some(Leaf("c")), Some(Leaf("d"))], map[])])])
  {
    var s2 := Step(Idx(1), true, false, None);
    RunBelowProp(t1, "a", "b", s2, One("d"));
    var e := Arr([Some(Leaf("c")), Some(Leaf("d"))], map[]);
    assert Holes(0) == [];
    assert Apply(Arr([Some(Leaf("c"))], map[]), s2, One("d")) == e;
    var c := t1.fields["a"];
    assert c.fields["b" := e] == map["b" := e];
    assert t1.fields["a" := Obj(map["b" := e])] == map["a" := Obj(map["b" := e])];
  }

  lemma InsertSubkeyIndexAgain(t0: Node)
    requires t0 == Obj(map["a" := Obj(map["b" := Arr([Some(Leaf("c"))], map[])])])
    ensures Insert(t0, "a[b][1]", One("d")) == Obj(map["a" := Obj(map["b" := Arr([Some(Leaf("c")), Some(Leaf("d"))], map[])])])
  {
    var v := One("d");
    NameKey("b");
    assert Decimal(1) == "1";
    assert GroupOf(Prop("b")) == "[b]" && GroupOf(Idx(1)) == "[1]";
    DecomposeTwoGroups("a[b][1]", "a", Prop("b"), Idx(1));
    var s0, s1, s2 := Step(Prop("a"), false, false, Some(ObjectKind)),
                      Step(Prop("b"), false, false, Some(ArrayKind)), Step(Idx(1), true, false, None);
    ExistingContainerAtRoot(t0, "a", ObjectKind, v);
    SubkeyIndexAgainSecond(t0);
    SubkeyIndexAgainThird(t0);
    RunTwo(t0, s0, s1, v);
    RunThree(t0, s0, s1, s2, v);
  }

  /** `a[b][0]=c&a[b][1]=d` gives `{a: {b: ['c', 'd']}}`. */
  lemma NestedImplicitArray()
    ensures ParseAll([("a[b][0]", One("c")), ("a[b][1]", One("d"))])
            == Obj(map["a" := Obj(map["b" := Arr([Some(Leaf("c")), Some(Leaf("d"))], map[])])])
  {
    InsertSubkeyIndex();
    InsertSubkeyIndexAgain(Obj(map["a" := Obj(map["b" := Arr([Some(Leaf("c"))], map[])])]));
    ParseTwo(("a[b][0]", One("c")), ("a[b][1]", One("d")));
  }

  lemma SingleKeyBelow(t1: Node)
    requires t1 == Obj(map["a" := EmptyObj()])
    ensures RunStep(t1, [Prop("a")], Step(Prop("b"), true, false, None), One("c"))
            == (Obj(map["a" := Obj(map["b" := Leaf("c")])]), [Prop("a")])
  {
    var s1 := Step(Prop("b"), true, false, None);
    RunBelow(t1, "a", s1, One("c"));
    var d := Obj(map["b" := Leaf("c")]);
    assert Apply(EmptyObj(), s1, One("c")) == d;
    assert t1.fields["a" := d] == map["a" := d];
  }

  lemma InsertSingleKey()
    ensures Insert(EmptyObj(), "a[b]", One("c")) == Obj(map["a" := Obj(map["b" := Leaf("c")])])
  {
    NameKey("b");
    assert GroupOf(Prop("b")) == "[b]";
    DecomposeOneGroup("a[b]", "a", Prop("b"));
    NewContainerAtRoot(EmptyObj(), "a", ObjectKind, One("c"));
    SingleKeyBelow(Obj(map["a" := EmptyObj()]));
    RunTwo(EmptyObj(), Step(Prop("a"), false, false, Some(ObjectKind)), Step(Prop("b"), true, false, None), One("c"));
  }

  /** `a[b]=c` gives `{a: {b: 'c'}}`. */
  lemma ObjectWithSingleKey()
    ensures ParseAll([("a[b]", One("c"))]) == Obj(map["a" := Obj(map["b" := Leaf("c")])])
  {
    InsertSingleKey();
    ParseOne(("a[b]", One("c")));
  }

  lemma SecondKeyBelow(t1: Node)
    requires t1 == Obj(map["a" := Obj(map["b" := Leaf("c")])])
    ensures RunStep(t1, [Prop("a")], Step(Prop("d"), true, false, None), One("e"))
            == (Obj(map["a" := Obj(map["b" := Leaf("c"), "d" := Leaf("e")])]), [Prop("a")])
  {
    var s1 := Step(Prop("d"), true, false, None);
    RunBelow(t1, "a", s1, One("e"));
    var c := t1.fields["a"];
    assert c.fields["d" := Leaf("e")] == map["b" := Leaf("c"), "d" := Leaf("e")];
    var d := Obj(map["b" := Leaf("c"), "d" := Leaf("e")]);
    assert Apply(c, s1, One("e")) == d;
    assert t1.fields["a" := d] == map["a" := d];
  }

  lemma InsertSecondKey(t0: Node)
    requires t0 == Obj(map["a" := Obj(map["b" := Leaf("c")])])
    ensures Insert(t0, "a[d]", One("e")) == Obj(map["a" := Obj(map["b" := Leaf("c"), "d" := Leaf("e")])])
  {
    NameKey("d");
    assert GroupOf(Prop("d")) == "[d]";
    DecomposeOneGroup("a[d]", "a", Prop("d"));
    ExistingContainerAtRoot(t0, "a", ObjectKind, One("e"));
    SecondKeyBelow(t0);
    RunTwo(t0, Step(Prop("a"), false, false, Some(ObjectKind)), Step(Prop("d"), true, false, None), One("e"));
  }

  /** `a[b]=c&a[d]=e` gives `{a: {b: 'c', d: 'e'}}`. */
  lemma ObjectWithMultipleKeys()
    ensures ParseAll([("a[b]", One("c")), ("a[d]", One("e"))])
            == Obj(map["a" := Obj(map["b" := Leaf("c"), "d" := Leaf("e")])])
  {
    InsertSingleKey();
    InsertSecondKey(Obj(map["a" := Obj(map["b" := Leaf("c")])]));
    ParseTwo(("a[b]", One("c")), ("a[d]", One("e")));
  }

  lemma NestedKeySecond(t1: Node, v: Value)
    requires t1 == Obj(map["a" := EmptyObj()])
    ensures RunStep(t1, [Prop("a")], Step(Prop("b"), false, false, Some(ObjectKind)), v)
            == (Obj(map["a" := Obj(map["b" := EmptyObj()])]), [Prop("a"), Prop("b")])
  {
    var s1 := Step(Prop("b"), false, false, Some(ObjectKind));
    RunBelow(t1, "a", s1, v);
    var d := Obj(map["b" := EmptyObj()]);
    assert Apply(EmptyObj(), s1, v) == d;
    assert t1.fields["a" := d] == map["a" := d];
  }

  lemma NestedKeyThird(t2: Node, v: Value)
    requires t2 == Obj(map["a" := Obj(map["b" := EmptyObj()])])
    ensures RunStep(t2, [Prop("a"), Prop("b")], Step(Prop("c"), true, false, None), v).0
            == Obj(map["a" := Obj(map["b" := Obj(map["c" := ValueNode(v)])])])
  {
    var s2 := Step(Prop("c"), true, false, None);
    RunBelowProp(t2, "a", "b", s2, v);
    var e := Obj(map["c" := ValueNode(v)]);
    assert Apply(EmptyObj(), s2, v) == e;
    var c := t2.fields["a"];
    assert c.fields["b" := e] == map["b" := e];
    assert t2.fields["a" := Obj(map["b" := e])] == map["a" := Obj(map["b" := e])];
  }

  lemma InsertNestedKey(v: Value)
    ensures Insert(EmptyObj(), "a[b][c]", v) == Obj(map["a" := Obj(map["b" := Obj(map["c" := ValueNode(v)])])])
  {
    NameKey("b");
    NameKey("c");
    assert GroupOf(Prop("b")) == "[b]" && GroupOf(Prop("c")) == "[c]";
    DecomposeTwoGroups("a[b][c]", "a", Prop("b"), Prop("c"));
    var s0, s1, s2 := Step(Prop("a"), false, false, Some(ObjectKind)),
                      Step(Prop("b"), false, false, Some(ObjectKind)), Step(Prop("c"), true, false, None);
    NewContainerAtRoot(EmptyObj(), "a", ObjectKind, v);
    NestedKeySecond(Obj(map["a" := EmptyObj()]), v);
    NestedKeyThird(Obj(map["a" := Obj(map["b" := EmptyObj()])]), v);
    RunTwo(EmptyObj(), s0, s1, v);
    RunThree(EmptyObj(), s0, s1, s2, v);
  }

  /** `a[b][c]=d` gives `{a: {b: {c: 'd'}}}`. */
  lemma ObjectWithNestedKey()
    ensures ParseAll([("a[b][c]", One("d"))]) == Obj(map["a" := Obj(map["b" := Obj(map["c" := Leaf("d")])])])
  {
    assert ValueNode(One("d")) == Leaf("d");
    InsertNestedKey(One("d"));
    ParseOne(("a[b][c]", One("d")));
  }

  /** `a[b][c]=d&a[b][c]=e&a[b][c]=f`, one key with three values, gives
      `{a: {b: {c: ['d', 'e', 'f']}}}`. */
  lemma DeeperNestedRepeatedArray()
    ensures ParseAll([("a[b][c]", Many(["d", "e", "f"]))])
            == Obj(map["a" := Obj(map["b" := Obj(map["c" := Arr([Some(Leaf("d")), Some(Leaf("e")), Some(Leaf("f"))], map[])])])])
  {
    var v := Many(["d", "e", "f"]);
    assert ValueNode(v) == Arr([Some(Leaf("d")), Some(Leaf("e")), Some(Leaf("f"))], map[]);
    InsertNestedKey(v);
    ParseOne(("a[b][c]", v));
  }

  lemma MixedSecond(t1: Node)
    requires t1 == Obj(map["a" := Obj(map["b" := Obj(map["c" := Leaf("d")])])])
    ensures RunStep(t1, [Prop("a")], Step(Prop("c"), false, false, Some(ArrayKind)), One("e"))
            == (Obj(map["a" := Obj(map["b" := Obj(map["c" := Leaf("d")]), "c" := EmptyArr()])]), [Prop("a"), Prop("c")])
  {
    var s1 := Step(Prop("c"), false, false, Some(ArrayKind));
    RunBelow(t1, "a", s1, One("e"));
    var c := t1.fields["a"];
    var d := Obj(map["b" := Obj(map["c" := Leaf("d")]), "c" := EmptyArr()]);
    assert c.fields["c" := EmptyArr()] == d.fields;
    assert Apply(c, s1, One("e")) == d;
    assert t1.fields["a" := d] == map["a" := d];
  }

  lemma MixedThird(t2: Node)
    requires t2 == Obj(map["a" := Obj(map["b" := Obj(map["c" := Leaf("d")]), "c" := EmptyArr()])])
    ensures RunStep(t2, [Prop("a"), Prop("c")], Step(Idx(0), true, false, None), One("e")).0
            == Obj(map["a" := Obj(map["b" := Obj(map["c" := Leaf("d")]), "c" := Arr([Some(Leaf("e"))], map[])])])
  {
    var s2 := Step(Idx(0), true, false, None);
    RunBelowProp(t2, "a", "c", s2, One("e"));
    var e := Arr([Some(Leaf("e"))], map[]);
    assert Holes(0) == [];
    assert Apply(EmptyArr(), s2, One("e")) == e;
    var c := t2.fields["a"];
    var d := Obj(map["b" := Obj(map["c" := Leaf("d")]), "c" := e]);
    assert c.fields["c" := e] == d.fields;
    assert t2.fields["a" := d] == map["a" := d];
  }

  lemma InsertMixed(t0: Node)
    requires t0 == Obj(map["a" := Obj(map["b" := Obj(map["c" := Leaf("d")])])])
    ensures Insert(t0, "a[c][0]", One("e"))
            == Obj(map["a" := Obj(map["b" := Obj(map["c" := Leaf("d")]), "c" := Arr([Some(Leaf("e"))], map[])])])
  {
    var v := One("e");
    NameKey("c");
    assert Decimal(0) == "0";
    assert GroupOf(Prop("c")) == "[c]" && GroupOf(Idx(0)) == "[0]";
    DecomposeTwoGroups("a[c][0]", "a", Prop("c"), Idx(0));
    var s0, s1, s2 := Step(Prop("a"), false, false, Some(ObjectKind)),
                      Step(Prop("c"), false, false, Some(ArrayKind)), Step(Idx(0), true, false, None);
    ExistingContainerAtRoot(t0, "a", ObjectKind, v);
    MixedSecond(t0);
    MixedThird(Obj(map["a" := Obj(map["b" := Obj(map["c" := Leaf("d")]), "c" := EmptyArr()])]));
    RunTwo(t0, s0, s1, v);
    RunThree(t0, s0, s1, s2, v);
  }

  /** `a[b][c]=d&a[c][0]=e` gives `{a: {b: {c: 'd'}, c: ['e']}}`. */
  lemma ObjectsAndArraysTogether()
    ensures ParseAll([("a[b][c]", One("d")), ("a[c][0]", One("e"))])
            == Obj(map["a" := Obj(map["b" := Obj(map["c" := Leaf("d")]), "c" := Arr([Some(Leaf("e"))], map[])])])
  {
    assert ValueNode(One("d")) == Leaf("d");
    InsertNestedKey(One("d"));
    InsertMixed(Obj(map["a" := Obj(map["b" := Obj(map["c" := Leaf("d")])])]));
    ParseTwo(("a[b][c]", One("d")), ("a[c][0]", One("e")));
  }

  lemma ArrayOfObjectsSecond(t1: Node, v: Value)
    requires t1 == Obj(map["a" := EmptyArr()])
    ensures RunStep(t1, [Prop("a")], Step(Idx(0), false, false, Some(ObjectKind)), v)
            == (Obj(map["a" := Arr([Some(EmptyObj())], map[])]), [Prop("a"), Idx(0)])
  {
    var s1 := Step(Idx(0), false, false, Some(ObjectKind));
    RunBelow(t1, "a", s1, v);
    var d := Arr([Some(EmptyObj())], map[]);
    assert Holes(0) == [];
    assert Apply(EmptyArr(), s1, v) == d;
    assert t1.fields["a" := d] == map["a" := d];
  }

  lemma ArrayOfObjectsThird(t2: Node, v: Value)
    requires t2 == Obj(map["a" := Arr([Some(EmptyObj())], map[])])
    ensures RunStep(t2, [Prop("a"), Idx(0)], Step(Prop("b"), true, false, None), v).0
            == Obj(map["a" := Arr([Some(Obj(map["b" := ValueNode(v)]))], map[])])
  {
    var s2 := Step(Prop("b"), true, false, None);
    RunBelowIdx(t2, "a", 0, s2, v);
    var e := Obj(map["b" := ValueNode(v)]);
    assert Apply(EmptyObj(), s2, v) == e;
    var d := Arr([Some(e)], map[]);
    assert t2.fields["a"].slots[0 := Some(e)] == d.slots;
    assert t2.fields["a" := d] == map["a" := d];
  }

  lemma InsertArrayOfObjects(v: Value)
    ensures Insert(EmptyObj(), "a[0][b]", v) == Obj(map["a" := Arr([Some(Obj(map["b" := ValueNode(v)]))], map[])])
  {
    NameKey("b");
    assert Decimal(0) == "0";
    assert GroupOf(Idx(0)) == "[0]" && GroupOf(Prop("b")) == "[b]";
    DecomposeTwoGroups("a[0][b]", "a", Idx(0), Prop("b"));
    var s0, s1, s2 := Step(Prop("a"), false, false, Some(ArrayKind)),
                      Step(Idx(0), false, false, Some(ObjectKind)), Step(Prop("b"), true, false, None);
    NewContainerAtRoot(EmptyObj(), "a", ArrayKind, v);
    ArrayOfObjectsSecond(Obj(map["a" := EmptyArr()]), v);
    ArrayOfObjectsThird(Obj(map["a" := Arr([Some(EmptyObj())], map[])]), v);
    RunTwo(EmptyObj(), s0, s1, v);
    RunThree(EmptyObj(), s0, s1, s2, v);
  }

  /** `a[0][b]=c&a[0][b]=d`, one key with two values, gives
      `{a: [{b: ['c', 'd']}]}`. */
  lemma ImplicitArrayOfObjects()
    ensures ParseAll([("a[0][b]", Many(["c", "d"]))])
            == Obj(map["a" := Arr([Some(Obj(map["b" := Arr([Some(Leaf("c")), Some(Leaf("d"))], map[])]))], map[])])
  {
    var v := Many(["c", "d"]);
    assert ValueNode(v) == Arr([Some(Leaf("c")), Some(Leaf("d"))], map[]);
    InsertArrayOfObjects(v);
    ParseOne(("a[0][b]", v));
  }

  // ---------------------------------------------------------------------
  // Keys that meet what an earlier key left (lib/index.js:121-169)
  // ---------------------------------------------------------------------

  lemma LeafBecomesObject(t0: Node)
    requires t0 == Obj(map["a" := Leaf("b")])
    ensures RunStep(t0, [], Step(Prop("a"), false, false, Some(ObjectKind)), One("d"))
            == (Obj(map["a" := Obj(map["" := Leaf("b")])]), [Prop("a")])
  {
    RunAtRoot(t0, Step(Prop("a"), false, false, Some(ObjectKind)), One("d"));
    var d := Obj(map["" := Leaf("b")]);
    assert t0.fields["a" := d] == map["a" := d];
  }

  lemma SubkeyBesideLeaf(t1: Node)
    requires t1 == Obj(map["a" := Obj(map["" := Leaf("b")])])
    ensures RunStep(t1, [Prop("a")], Step(Prop("c"), true, false, None), One("d"))
            == (Obj(map["a" := Obj(map["" := Leaf("b"), "c" := Leaf("d")])]), [Prop("a")])
  {
    var s1 := Step(Prop("c"), true, false, None);
    RunBelow(t1, "a", s1, One("d"));
    var c := t1.fields["a"];
    var d := Obj(map["" := Leaf("b"), "c" := Leaf("d")]);
    assert c.fields["c" := Leaf("d")] == d.fields;
    assert Apply(c, s1, One("d")) == d;
    assert t1.fields["a" := d] == map["a" := d];
  }

  /** `a=b&a[c]=d` gives `{a: {'': 'b', c: 'd'}}`: a string met on the way
      down moves under the empty key of a new object. */
  lemma StringGainsSubkey()
    ensures ParseAll([("a", One("b")), ("a[c]", One("d"))])
            == Obj(map["a" := Obj(map["" := Leaf("b"), "c" := Leaf("d")])])
  {
    InsertPlain();
    var t0 := Obj(map["a" := Leaf("b")]);
    NameKey("c");
    assert GroupOf(Prop("c")) == "[c]";
    DecomposeOneGroup("a[c]", "a", Prop("c"));
    LeafBecomesObject(t0);
    SubkeyBesideLeaf(Obj(map["a" := Obj(map["" := Leaf("b")])]));
    RunTwo(t0, Step(Prop("a"), false, false, Some(ObjectKind)), Step(Prop("c"), true, false, None), One("d"));
    ParseTwo(("a", One("b")), ("a[c]", One("d")));
  }

  lemma InsertPlainIntoObject(t0: Node)
    requires t0 == Obj(map["a" := Obj(map["b" := Leaf("c")])])
    ensures Insert(t0, "a", One("d")) == Obj(map["a" := Obj(map["b" := Leaf("c"), "" := Leaf("d")])])
  {
    BracketFreeKeyIsLiteral("a");
    RunAtRoot(t0, Literal("a"), One("d"));
    RunOne(t0, Literal("a"), One("d"));
    var c := t0.fields["a"];
    var d := Obj(map["b" := Leaf("c"), "" := Leaf("d")]);
    assert c.fields["" := Leaf("d")] == d.fields;
    assert PlaceFinal(c, Prop(""), false, One("d")) == d;
    assert t0.fields["a" := d] == map["a" := d];
  }

  /** `a[b]=c&a=d` gives `{a: {b: 'c', '': 'd'}}`: a final step that meets
      an object places the value under its empty key. */
  lemma ObjectGainsString()
    ensures ParseAll([("a[b]", One("c")), ("a", One("d"))])
            == Obj(map["a" := Obj(map["b" := Leaf("c"), "" := Leaf("d")])])
  {
    InsertSingleKey();
    InsertPlainIntoObject(Obj(map["a" := Obj(map["b" := Leaf("c")])]));
    ParseTwo(("a[b]", One("c")), ("a", One("d")));
  }

  lemma InsertMarkerOntoString(t0: Node)
    requires t0 == Obj(map["a" := Leaf("b")])
    ensures Insert(t0, "a[]", One("c")) == Obj(map["a" := Arr([Some(Leaf("b")), Some(Leaf("c"))], map[])])
  {
    var s0 := Step(Prop("a"), true, true, None);
    DecomposeMarker("a[]", "a");
    RunAtRoot(t0, s0, One("c"));
    RunOne(t0, s0, One("c"));
    var d := Arr([Some(Leaf("b")), Some(Leaf("c"))], map[]);
    assert t0.fields["a" := d] == map["a" := d];
  }

  /** `a=b&a[]=c` gives `{a: ['b', 'c']}`: a final step that meets a string
      pairs it with the value, whatever the marker says. */
  lemma StringPairedWithValue()
    ensures ParseAll([("a", One("b")), ("a[]", One("c"))])
            == Obj(map["a" := Arr([Some(Leaf("b")), Some(Leaf("c"))], map[])])
  {
    InsertPlain();
    InsertMarkerOntoString(Obj(map["a" := Leaf("b")]));
    ParseTwo(("a", One("b")), ("a[]", One("c")));
  }

  lemma NameBelowArray(t1: Node)
    requires t1 == Obj(map["a" := Arr([Some(Leaf("b"))], map[])])
    ensures RunStep(t1, [Prop("a")], Step(Prop("c"), true, false, None), One("d"))
            == (Obj(map["a" := Arr([Some(Leaf("b"))], map["c" := Leaf("d")])]), [Prop("a")])
  {
    var s1 := Step(Prop("c"), true, false, None);
    RunBelow(t1, "a", s1, One("d"));
    var d := Arr([Some(Leaf("b"))], map["c" := Leaf("d")]);
    assert Apply(t1.fields["a"], s1, One("d")) == d;
    assert t1.fields["a" := d] == map["a" := d];
  }

  lemma InsertNameIntoArray(t0: Node)
    requires t0 == Obj(map["a" := Arr([Some(Leaf("b"))], map[])])
    ensures Insert(t0, "a[c]", One("d")) == Obj(map["a" := Arr([Some(Leaf("b"))], map["c" := Leaf("d")])])
  {
    NameKey("c");
    assert GroupOf(Prop("c")) == "[c]";
    DecomposeOneGroup("a[c]", "a", Prop("c"));
    ExistingContainerAtRoot(t0, "a", ObjectKind, One("d"));
    NameBelowArray(t0);
    RunTwo(t0, Step(Prop("a"), false, false, Some(ObjectKind)), Step(Prop("c"), true, false, None), One("d"));
  }

  /** `a[0]=b&a[c]=d` gives the array `['b']` with a property `c: 'd'`: an
      array met by an object step stays an array. */
  lemma ArrayGainsProperty()
    ensures ParseAll([("a[0]", One("b")), ("a[c]", One("d"))])
            == Obj(map["a" := Arr([Some(Leaf("b"))], map["c" := Leaf("d")])])
  {
    InsertFirstIndex();
    InsertNameIntoArray(Obj(map["a" := Arr([Some(Leaf("b"))], map[])]));
    ParseTwo(("a[0]", One("b")), ("a[c]", One("d")));
  }

  lemma DeepSecond(t0: Node)
    requires t0 == Obj(map["a" := Arr([Some(Obj(map["b" := Leaf("c")]))], map[])])
    ensures RunStep(t0, [Prop("a")], Step(Idx(0), false, false, Some(ObjectKind)), One("e"))
            == (t0, [Prop("a"), Idx(0)])
  {
    var s1 := Step(Idx(0), false, false, Some(ObjectKind));
    RunBelow(t0, "a", s1, One("e"));
    assert t0.fields["a" := t0.fields["a"]] == t0.fields;
  }

  lemma DeepThird(t0: Node)
    requires t0 == Obj(map["a" := Arr([Some(Obj(map["b" := Leaf("c")]))], map[])])
    ensures RunStep(t0, [Prop("a"), Idx(0)], Step(Prop("d"), false, false, Some(ArrayKind)), One("e"))
            == (Obj(map["a" := Arr([Some(Obj(map["b" := Leaf("c"), "d" := EmptyArr()]))], map[])]),
                [Prop("a"), Idx(0), Prop("d")])
  {
    var s2 := Step(Prop("d"), false, false, Some(ArrayKind));
    RunBelowIdx(t0, "a", 0, s2, One("e"));
    var c := t0.fields["a"].slots[0].value;
    var e := Obj(map["b" := Leaf("c"), "d" := EmptyArr()]);
    assert c.fields["d" := EmptyArr()] == e.fields;
    assert Apply(c, s2, One("e")) == e;
    var d := Arr([Some(e)], map[]);
    assert t0.fields["a"].slots[0 := Some(e)] == d.slots;
    assert t0.fields["a" := d] == map["a" := d];
  }

  lemma DeepFourth(t2: Node)
    requires t2 == Obj(map["a" := Arr([Some(Obj(map["b" := Leaf("c"), "d" := EmptyArr()]))], map[])])
    ensures RunStep(t2, [Prop("a"), Idx(0), Prop("d")], Step(Idx(0), true, false, None), One("e")).0
            == Obj(map["a" := Arr([Some(Obj(map["b" := Leaf("c"), "d" := Arr([Some(Leaf("e"))], map[])]))], map[])])
  {
    var s3 := Step(Idx(0), true, false, None);
    RunBelowIdxProp(t2, "a", 0, "d", s3, One("e"));
    var x := Arr([Some(Leaf("e"))], map[]);
    assert Holes(0) == [];
    assert Apply(EmptyArr(), s3, One("e")) == x;
    var c := t2.fields["a"].slots[0].value;
    var e := Obj(map["b" := Leaf("c"), "d" := x]);
    assert c.fields["d" := x] == e.fields;
    var d := Arr([Some(e)], map[]);
    assert t2.fields["a"].slots[0 := Some(e)] == d.slots;
    assert t2.fields["a" := d] == map["a" := d];
  }

  lemma InsertDeep(t0: Node)
    requires t0 == Obj(map["a" := Arr([Some(Obj(map["b" := Leaf("c")]))], map[])])
    ensures Insert(t0, "a[0][d][0]", One("e"))
            == Obj(map["a" := Arr([Some(Obj(map["b" := Leaf("c"), "d" := Arr([Some(Leaf("e"))], map[])]))], map[])])
  {
    var v := One("e");
    NameKey("d");
    assert Decimal(0) == "0";
    assert GroupOf(Idx(0)) == "[0]" && GroupOf(Prop("d")) == "[d]";
    DecomposeThreeGroups("a[0][d][0]", "a", Idx(0), Prop("d"), Idx(0));
    var s0, s1 := Step(Prop("a"), false, false, Some(ArrayKind)), Step(Idx(0), false, false, Some(ObjectKind));
    var s2, s3 := Step(Prop("d"), false, false, Some(ArrayKind)), Step(Idx(0), true, false, None);
    ExistingContainerAtRoot(t0, "a", ArrayKind, v);
    DeepSecond(t0);
    DeepThird(t0);
    DeepFourth(Obj(map["a" := Arr([Some(Obj(map["b" := Leaf("c"), "d" := EmptyArr()]))], map[])]));
    RunTwo(t0, s0, s1, v);
    RunThree(t0, s0, s1, s2, v);
    RunFour(t0, s0, s1, s2, s3, v);
  }

  /** `a[0][b]=c&a[0][d][0]=e` gives `{a: [{b: 'c', d: ['e']}]}`. */
  lemma ArrayOfObjects()
    ensures ParseAll([("a[0][b]", One("c")), ("a[0][d][0]", One("e"))])
            == Obj(map["a" := Arr([Some(Obj(map["b" := Leaf("c"), "d" := Arr([Some(Leaf("e"))], map[])]))], map[])])
  {
    InsertArrayOfObjects(One("c"));
    InsertDeep(Obj(map["a" := Arr([Some(Obj(map["b" := Leaf("c")]))], map[])]));
    ParseTwo(("a[0][b]", One("c")), ("a[0][d][0]", One("e")));
  }
}
