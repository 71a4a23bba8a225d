/** The tree `parse` builds and what one step does to it (`_runStep`,
    lib/index.js:109-170). A JavaScript object graph is modelled as a value:
    the in-place write `context[step.key] = x` becomes a rebuild of the
    nodes along the path from the root to `context`. */
module Tree {
  import opened Options
  import opened JsString
  import opened Steps

  /** What the query-string decoder hands over for one key: one string, or
      the strings of a repeated key, in order. */
  datatype Value = One(text: string) | Many(texts: seq<string>)

  /** A node of the result. An array has indexed slots, where `None` is a
      hole, and named properties of its own, which an object step can add
      (`a[0]=x&a[b]=y`). */
  datatype Node =
    | Leaf(text: string)
    | Arr(slots: seq<Option<Node>>, props: map<string, Node>)
    | Obj(fields: map<string, Node>)
  {
    /** `typeof n === 'object'`: arrays and plain objects. */
    predicate IsContainer() {
      !Leaf?
    }
  }

  function EmptyArr(): Node {
    Arr([], map[])
  }

  function EmptyObj(): Node {
    Obj(map[])
  }

  /** The node a decoded value becomes: a string, or a fresh array of
      strings without holes. */
  function ValueNode(v: Value): (n: Node)
    ensures v.One? ==> n == Leaf(v.text)
    ensures v.Many? ==> n.Arr? && n.props == map[] && |n.slots| == |v.texts|
                        && forall i :: 0 <= i < |v.texts| ==> n.slots[i] == Some(Leaf(v.texts[i]))
  {
    match v
    case One(t) => Leaf(t)
    case Many(ts) => Arr(seq(|ts|, i requires 0 <= i < |ts| => Some(Leaf(ts[i]))), map[])
  }

  function Holes(n: nat): (h: seq<Option<Node>>)
    ensures |h| == n && forall i :: 0 <= i < n ==> h[i] == None
  {
    seq(n, _ => None)
  }

  /** Whether two keys address the same slot of container `c`. On a plain
      object two keys meet when they name the same property; on an array an
      index never meets a name. That is sound because a name reaching an
      array is never a canonical index: the first step of a key and the
      nested `''` step run on plain objects, and every later step carries a
      well-formed key, never an all-digit name (`Steps.DecomposeWellFormed`). */
  predicate SameSlot(c: Node, k1: StepKey, k2: StepKey) {
    if c.Obj? then KeyText(k1) == KeyText(k2) else k1 == k2
  }

  /** `context[key]`, with `None` for `undefined` (a missing property or a
      hole). What it finds lies strictly inside `c`. */
  function Get(c: Node, k: StepKey): (r: Option<Node>)
    requires c.IsContainer()
    ensures r.Some? ==> r.value < c
  {
    match c
    case Obj(fields) =>
      if KeyText(k) in fields then Some(fields[KeyText(k)]) else None
    case Arr(slots, props) =>
      match k
      case Idx(i) => if i < |slots| then slots[i] else None
      case Prop(name) => if name in props then Some(props[name]) else None
  }

  /** `context[key] = x`. Writing an index past the end of an array grows
      it, leaving holes in between. */
  function Set(c: Node, k: StepKey, x: Node): (r: Node)
    requires c.IsContainer()
    ensures r.Obj? == c.Obj? && r.Arr? == c.Arr?
    ensures Get(r, k) == Some(x)
  {
    match c
    case Obj(fields) => Obj(fields[KeyText(k) := x])
    case Arr(slots, props) =>
      match k
      case Idx(i) =>
        if i < |slots| then Arr(slots[i := Some(x)], props)
        else Arr(slots + Holes(i - |slots|) + [Some(x)], props)
      case Prop(name) => Arr(slots, props[name := x])
  }

  /** A write touches its own slot and no other. */
  lemma SetFrame(c: Node, k: StepKey, x: Node, other: StepKey)
    requires c.IsContainer() && !SameSlot(c, k, other)
    ensures Get(Set(c, k, x), other) == Get(c, other)
  {
  }

  /** Writing index `i` of an array: the slots before keep their contents,
      the length becomes `max(length, i + 1)`, and any slot newly created
      before `i` is a hole. */
  lemma SetIndexGrows(c: Node, i: nat, x: Node)
    requires c.Arr?
    ensures var r := Set(c, Idx(i), x);
            |r.slots| == (if i < |c.slots| then |c.slots| else i + 1)
            && (forall j :: 0 <= j < |c.slots| && j != i ==> r.slots[j] == c.slots[j])
            && (forall j :: |c.slots| <= j < i ==> r.slots[j] == None)
            && r.props == c.props
  {
  }

  /** `array.push(x)`. */
  function Push(a: Node, x: Node): (r: Node)
    requires a.Arr?
    ensures r.Arr?
  {
    Arr(a.slots + [Some(x)], a.props)
  }

  /** Pushing writes the slot just past the end. */
  lemma PushWritesEnd(a: Node, x: Node)
    requires a.Arr?
    ensures Push(a, x) == Set(a, Idx(|a.slots|), x)
  {
    assert Holes(0) == [];
    assert a.slots + Holes(0) == a.slots;
  }

  // ---------------------------------------------------------------------
  // The final step (lib/index.js:111-134)
  // ---------------------------------------------------------------------

  /** What the final step of a key does to its context `c`: by what the slot
      `c[k]` holds, the value is put there (as `[value]` for the `[]`
      marker), pushed onto the array there, placed under `''` inside the
      object there by the same rules, or paired with the string there. */
  function PlaceFinal(c: Node, k: StepKey, append: bool, v: Value): (r: Node)
    requires c.IsContainer()
    ensures r.Obj? == c.Obj? && r.Arr? == c.Arr?
    ensures Get(r, k).Some? && Get(r, k).value.IsContainer() == (Get(c, k).Some? || append || v.Many?)
    decreases c
  {
    var current := Get(c, k);
    if current.None? then
      if append then Set(c, k, Arr([Some(ValueNode(v))], map[]))
      else Set(c, k, ValueNode(v))
    else if current.value.Arr? then
      Set(c, k, Push(current.value, ValueNode(v)))
    else if current.value.Obj? then
      Set(c, k, PlaceFinal(current.value, Prop(""), false, v))
    else
      Set(c, k, Arr([Some(current.value), Some(ValueNode(v))], map[]))
  }

  /** The four outcomes of the final step, read off the slot afterwards. */
  lemma PlaceFinalCases(c: Node, k: StepKey, append: bool, v: Value)
    requires c.IsContainer()
    ensures var before, after := Get(c, k), Get(PlaceFinal(c, k, append, v), k).value;
            && (before.None? && append ==> after == Arr([Some(ValueNode(v))], map[]))
            && (before.None? && !append ==> after == ValueNode(v))
            && (before.Some? && before.value.Arr? ==>
                  after.Arr? && after.props == before.value.props
                  && after.slots == before.value.slots + [Some(ValueNode(v))])
            && (before.Some? && before.value.Obj? ==>
                  after == PlaceFinal(before.value, Prop(""), false, v))
            && (before.Some? && before.value.Leaf? ==>
                  after == Arr([Some(before.value), Some(ValueNode(v))], map[]))
  {
  }

  /** The final step writes `c[k]` and nothing else of `c`. */
  lemma PlaceFinalFrame(c: Node, k: StepKey, append: bool, v: Value, other: StepKey)
    requires c.IsContainer() && !SameSlot(c, k, other)
    ensures Get(PlaceFinal(c, k, append, v), other) == Get(c, other)
  {
    var current := Get(c, k);
    if current.None? {
      if append {
        SetFrame(c, k, Arr([Some(ValueNode(v))], map[]), other);
      } else {
        SetFrame(c, k, ValueNode(v), other);
      }
    } else if current.value.Arr? {
      SetFrame(c, k, Push(current.value, ValueNode(v)), other);
    } else if current.value.Obj? {
      SetFrame(c, k, PlaceFinal(current.value, Prop(""), false, v), other);
    } else {
      SetFrame(c, k, Arr([Some(current.value), Some(ValueNode(v))], map[]), other);
    }
  }

  // ---------------------------------------------------------------------
  // A step that is not the final one (lib/index.js:136-169)
  // ---------------------------------------------------------------------

  /** What a non-final step does to its context `c`: an absent slot gets a
      new empty array or object (by the type of the next step), a container
      is kept as it is, and a string `s` is replaced by `{'': s}`. The next
      context is the node then at `c[k]`. The array-to-object conversion at
      lib/index.js:152-164 is not written: arrays are containers, so the
      test before it already returns them. */
  function Descend(c: Node, k: StepKey, nextType: Option<Kind>): (r: Node)
    requires c.IsContainer()
    ensures r.Obj? == c.Obj? && r.Arr? == c.Arr?
    ensures Get(r, k).Some? && Get(r, k).value.IsContainer()
  {
    var current := Get(c, k);
    if current.None? then
      Set(c, k, if nextType == Some(ArrayKind) then EmptyArr() else EmptyObj())
    else if current.value.IsContainer() then c
    else Set(c, k, Obj(map["" := current.value]))
  }

  /** The three outcomes of a non-final step, read off the slot afterwards. */
  lemma DescendCases(c: Node, k: StepKey, nextType: Option<Kind>)
    requires c.IsContainer()
    ensures var before, after := Get(c, k), Get(Descend(c, k, nextType), k).value;
            && (before.None? && nextType == Some(ArrayKind) ==> after == EmptyArr())
            && (before.None? && nextType != Some(ArrayKind) ==> after == EmptyObj())
            && (before.Some? && before.value.IsContainer() ==> Descend(c, k, nextType) == c)
            && (before.Some? && before.value.Leaf? ==> after == Obj(map["" := before.value]))
  {
  }

  /** An array met on the way down stays an array: the conversion of
      lib/index.js:152-164 never happens. */
  lemma DescendKeepsArrays(c: Node, k: StepKey, nextType: Option<Kind>)
    requires c.IsContainer() && Get(c, k).Some? && Get(c, k).value.Arr?
    ensures Get(Descend(c, k, nextType), k) == Get(c, k)
  {
  }

  /** A non-final step writes `c[k]` and nothing else of `c`. */
  lemma DescendFrame(c: Node, k: StepKey, nextType: Option<Kind>, other: StepKey)
    requires c.IsContainer() && !SameSlot(c, k, other)
    ensures Get(Descend(c, k, nextType), other) == Get(c, other)
  {
    var current := Get(c, k);
    if current.None? {
      SetFrame(c, k, if nextType == Some(ArrayKind) then EmptyArr() else EmptyObj(), other);
    } else if current.value.Leaf? {
      SetFrame(c, k, Obj(map["" := current.value]), other);
    }
  }

  // ---------------------------------------------------------------------
  // References into the tree
  // ---------------------------------------------------------------------

  /** A reference to a node inside the tree: the keys leading to it from the
      root. */
  type Path = seq<StepKey>

  /** The node a path leads to, if every key on the way finds a container. */
  function Lookup(root: Node, path: Path): Option<Node>
    decreases |path|
  {
    if path == [] then Some(root)
    else if root.Leaf? then None
    else match Get(root, path[0])
      case None => None
      case Some(child) => Lookup(child, path[1..])
  }

  /** Whether `path` leads to a container: a valid `context`. */
  predicate IsContext(root: Node, path: Path) {
    Lookup(root, path).Some? && Lookup(root, path).value.IsContainer()
  }

  /** One more key on a path looks one level further. */
  lemma {:induction false} LookupSnoc(root: Node, path: Path, k: StepKey)
    requires IsContext(root, path)
    ensures Lookup(root, path + [k]) == Get(Lookup(root, path).value, k)
  {
    if path != [] {
      assert (path + [k])[1..] == path[1..] + [k];
      LookupSnoc(Get(root, path[0]).value, path[1..], k);
    }
  }

  /** The tree after the node at `path` has been changed into `x` in place:
      every node on the way is rebuilt around its new child. */
  function Replace(root: Node, path: Path, x: Node): (r: Node)
    requires Lookup(root, path).Some?
    ensures Lookup(r, path) == Some(x)
    ensures path != [] ==> r.Obj? == root.Obj? && r.Arr? == root.Arr?
    decreases |path|
  {
    if path == [] then x
    else Set(root, path[0], Replace(Get(root, path[0]).value, path[1..], x))
  }

  /** Rebuilding along `path` changes each node on the way only in the slot
      the path continues through: every other slot of every ancestor reads
      as before. */
  lemma {:induction false} ReplaceAncestorFrame(root: Node, path: Path, x: Node, i: nat, other: StepKey)
    requires Lookup(root, path).Some? && i < |path|
    requires IsContext(root, path[..i]) && !SameSlot(Lookup(root, path[..i]).value, path[i], other)
    ensures IsContext(Replace(root, path, x), path[..i])
    ensures Get(Lookup(Replace(root, path, x), path[..i]).value, other) == Get(Lookup(root, path[..i]).value, other)
    decreases i
  {
    var child := Get(root, path[0]).value;
    var r := Replace(root, path, x);
    if i == 0 {
      assert path[..0] == [];
      SetFrame(root, path[0], Replace(child, path[1..], x), other);
    } else {
      assert path[..i][1..] == path[1..][..i - 1];
      ReplaceAncestorFrame(child, path[1..], x, i - 1, other);
    }
  }

  // ---------------------------------------------------------------------
  // One step (lib/index.js:109-170)
  // ---------------------------------------------------------------------

  /** What one step does to the context node it runs on: the final step
      places the value, any other step descends. */
  function Apply(c: Node, step: Step, v: Value): (r: Node)
    requires c.IsContainer()
    ensures r.Obj? == c.Obj? && r.Arr? == c.Arr?
    ensures Get(r, step.key).Some? && (!step.last ==> Get(r, step.key).value.IsContainer())
  {
    if step.last then PlaceFinal(c, step.key, step.append, v) else Descend(c, step.key, step.nextType)
  }

  /** `_runStep(step, context, value)` on the tree `root`, with `context` the
      node at `ctx`: the new tree and the new context. The final step keeps
      the context; a non-final one moves it to `context[step.key]`. */
  function RunStep(root: Node, ctx: Path, step: Step, v: Value): (r: (Node, Path))
    requires IsContext(root, ctx)
    ensures IsContext(r.0, r.1)
    ensures root.Obj? ==> r.0.Obj?
    ensures r.1 == if step.last then ctx else ctx + [step.key]
  {
    var r := Replace(root, ctx, Apply(Lookup(root, ctx).value, step, v));
    if step.last then (r, ctx)
    else
      LookupSnoc(r, ctx, step.key);
      (r, ctx + [step.key])
  }

  /** A step writes one slot of its context node: every other slot of that
      node reads as before. */
  lemma RunStepFrame(root: Node, ctx: Path, step: Step, v: Value, other: StepKey)
    requires IsContext(root, ctx) && !SameSlot(Lookup(root, ctx).value, step.key, other)
    ensures var r := RunStep(root, ctx, step, v);
            Lookup(r.0, ctx).Some? && Lookup(r.0, ctx).value.IsContainer()
            && Get(Lookup(r.0, ctx).value, other) == Get(Lookup(root, ctx).value, other)
  {
    var c := Lookup(root, ctx).value;
    if step.last {
      PlaceFinalFrame(c, step.key, step.append, v, other);
    } else {
      DescendFrame(c, step.key, step.nextType, other);
    }
  }

  /** A step leaves every slot of every node above its context as it was,
      except the slot its path goes through. */
  lemma RunStepAncestorFrame(root: Node, ctx: Path, step: Step, v: Value, i: nat, other: StepKey)
    requires IsContext(root, ctx) && i < |ctx|
    requires IsContext(root, ctx[..i]) && !SameSlot(Lookup(root, ctx[..i]).value, ctx[i], other)
    ensures var r := RunStep(root, ctx, step, v);
            IsContext(r.0, ctx[..i])
            && Get(Lookup(r.0, ctx[..i]).value, other) == Get(Lookup(root, ctx[..i]).value, other)
  {
    var c := Lookup(root, ctx).value;
    ReplaceAncestorFrame(root, ctx, Apply(c, step, v), i, other);
  }
}
