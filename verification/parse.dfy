/** The fold of `parse` (lib/index.js:173-187): every decoded key is
    decomposed into steps, and the steps are run one after the other from the
    one shared root, with `context` reset to the root after each key. */
module Riddler {
  import opened Options
  import opened JsString
  import opened Steps
  import opened Tree

  /** The steps of one key run in order from `(root, ctx)`: the tree and the
      context after the last of them. */
  function RunSteps(root: Node, ctx: Path, steps: seq<Step>, v: Value): (r: (Node, Path))
    requires IsContext(root, ctx)
    ensures IsContext(r.0, r.1)
    ensures root.Obj? ==> r.0.Obj?
    decreases |steps|
  {
    if steps == [] then (root, ctx)
    else
      var before := RunSteps(root, ctx, steps[..|steps| - 1], v);
      RunStep(before.0, before.1, steps[|steps| - 1], v)
  }

  /** The tree after one decoded pair `key=v` has been placed into `root`. */
  function Insert(root: Node, key: string, v: Value): (r: Node)
    requires root.Obj?
    ensures r.Obj?
  {
    RunSteps(root, [], Decompose(key), v).0
  }

  /** What `parse` returns for the decoded pairs, in the order the decoder
      enumerates its keys. */
  function ParseAll(pairs: seq<(string, Value)>): (r: Node)
    ensures r.Obj?
  {
    if pairs == [] then EmptyObj()
    else
      var last := pairs[|pairs| - 1];
      Insert(ParseAll(pairs[..|pairs| - 1]), last.0, last.1)
  }

  /** The fold ends by inserting its last pair. */
  lemma ParseAllLast(all: seq<(string, Value)>, init: seq<(string, Value)>, last: (string, Value))
    requires all != [] && all[..|all| - 1] == init && all[|all| - 1] == last
    ensures ParseAll(all) == Insert(ParseAll(init), last.0, last.1)
  {
  }

  /** One more pair of the prefix folded so far. */
  lemma ParseAllPrefix(pairs: seq<(string, Value)>, p: nat)
    requires p < |pairs|
    ensures ParseAll(pairs[..p + 1]) == Insert(ParseAll(pairs[..p]), pairs[p].0, pairs[p].1)
  {
    assert pairs[..p + 1][..p] == pairs[..p];
    ParseAllLast(pairs[..p + 1], pairs[..p], pairs[p]);
  }

  /** `parse`, after the decoder: the two nested loops over the keys and over
      each key's steps. */
  method Parse(pairs: seq<(string, Value)>) returns (result: Node)
    ensures result == ParseAll(pairs)
  {
    result := EmptyObj();
    var context: Path := [];
    for p := 0 to |pairs|
      invariant context == []
      invariant result == ParseAll(pairs[..p])
    {
      var path, value := pairs[p].0, pairs[p].1;
      var steps := GenSteps(path);
      ghost var start := result;
      for j := 0 to |steps|
        invariant (result, context) == RunSteps(start, [], steps[..j], value)
      {
        assert steps[..j + 1][..j] == steps[..j];
        var next := RunStep(result, context, steps[j], value);
        result, context := next.0, next.1;
      }
      assert steps[..|steps|] == steps;
      ParseAllPrefix(pairs, p);
      context := [];
    }
    assert pairs[..|pairs|] == pairs;
  }

  // ---------------------------------------------------------------------
  // Where one key's value lands
  // ---------------------------------------------------------------------

  /** Steps that are not final move the context down by their keys, one
      level per step. */
  lemma {:induction false} RunStepsContext(root: Node, ctx: Path, steps: seq<Step>, v: Value)
    requires IsContext(root, ctx)
    requires forall i :: 0 <= i < |steps| ==> !steps[i].last
    ensures RunSteps(root, ctx, steps, v).1 == ctx + KeysOf(steps)
    decreases |steps|
  {
    if steps == [] {
      assert ctx + KeysOf(steps) == ctx;
    } else {
      var init, last := steps[..|steps| - 1], steps[|steps| - 1];
      RunStepsContext(root, ctx, init, v);
      assert KeysOf(steps) == KeysOf(init) + [last.key];
      assert ctx + KeysOf(steps) == (ctx + KeysOf(init)) + [last.key];
    }
  }

  /** Steps of which only the last is final: it places the value by the
      final-step rules into the node the others lead to, and nothing else in
      the tree changes. */
  lemma RunStepsPlaces(root: Node, steps: seq<Step>, v: Value)
    requires root.Obj? && |steps| >= 1
    requires forall i :: 0 <= i < |steps| ==> (steps[i].last <==> i == |steps| - 1)
    ensures var last, path := steps[|steps| - 1], KeysOf(steps[..|steps| - 1]);
            var before := RunSteps(root, [], steps[..|steps| - 1], v).0;
            IsContext(before, path)
            && RunSteps(root, [], steps, v).0
               == Replace(before, path, PlaceFinal(Lookup(before, path).value, last.key, last.append, v))
  {
    var init, last := steps[..|steps| - 1], steps[|steps| - 1];
    RunStepsContext(root, [], init, v);
    assert [] + KeysOf(init) == KeysOf(init);
  }

  /** `key=v` walks the key's steps but the last from the root, and its final
      step then places the value by the final-step rules into the node the
      other keys lead to; nothing else in the tree changes. */
  lemma InsertPlaces(root: Node, key: string, v: Value)
    requires root.Obj?
    ensures var steps := Decompose(key);
            var last, path := steps[|steps| - 1], KeysOf(steps[..|steps| - 1]);
            var before := RunSteps(root, [], steps[..|steps| - 1], v).0;
            IsContext(before, path)
            && Insert(root, key, v)
               == Replace(before, path, PlaceFinal(Lookup(before, path).value, last.key, last.append, v))
            && Lookup(Insert(root, key, v), path)
               == Some(PlaceFinal(Lookup(before, path).value, last.key, last.append, v))
  {
    RunStepsPlaces(root, Decompose(key), v);
  }

  /** A key without brackets is one property of the root: `k=v` gives `{k: v}`. */
  lemma FlatKey(k: string, v: Value)
    requires '[' !in k
    ensures ParseAll([(k, v)]) == Obj(map[k := ValueNode(v)])
  {
    BracketFreeKeyIsLiteral(k);
    assert [(k, v)][..0] == [];
    InsertPlaces(EmptyObj(), k, v);
    assert Decompose(k)[..0] == [];
    assert KeysOf([]) == [];
  }

  // ---------------------------------------------------------------------
  // What one key can reach
  // ---------------------------------------------------------------------

  /** The name a key is filed under at the top level: its first step's. */
  function FirstName(key: string): (name: string)
    ensures Decompose(key)[0].key == Prop(name)
  {
    Decompose(key)[0].key.name
  }

  /** Changing a node below the root's field `f` rewrites that field and no
      other. */
  lemma ReplaceBelow(root: Node, path: Path, x: Node, g: string)
    requires root.Obj? && path != [] && Lookup(root, path).Some?
    ensures Get(Replace(root, path, x), path[0]).Some?
    ensures KeyText(path[0]) != g ==> Get(Replace(root, path, x), Prop(g)) == Get(root, Prop(g))
  {
    if KeyText(path[0]) != g {
      SetFrame(root, path[0], Replace(Get(root, path[0]).value, path[1..], x), Prop(g));
    }
  }

  /** Running the steps of one key from the root: the first step's field is
      there afterwards, every other top-level field is as it was, and once a
      step that is not the final one has run the context lies inside the
      first step's field. */
  lemma {:induction false} RunStepsFrame(root: Node, steps: seq<Step>, v: Value, g: string)
    requires root.Obj? && |steps| >= 1 && steps[0].key.Prop?
    requires forall i :: 0 <= i < |steps| - 1 ==> !steps[i].last
    ensures var r := RunSteps(root, [], steps, v);
            && Get(r.0, steps[0].key).Some?
            && (steps[0].key.name != g ==> Get(r.0, Prop(g)) == Get(root, Prop(g)))
            && (r.1 == [] || r.1[0] == steps[0].key)
            && (|steps| >= 2 || !steps[0].last ==> r.1 != [])
  {
    var n := |steps|;
    var before := RunSteps(root, [], steps[..n - 1], v);
    var step := steps[n - 1];
    if n == 1 {
      assert steps[..0] == [];
      var c := root;
      assert Lookup(root, []) == Some(root);
      if steps[0].key.name != g {
        if step.last {
          PlaceFinalFrame(c, step.key, step.append, v, Prop(g));
        } else {
          DescendFrame(c, step.key, step.nextType, Prop(g));
        }
      }
    } else {
      var prefix := steps[..n - 1];
      assert prefix[0] == steps[0];
      RunStepsFrame(root, prefix, v, g);
      var c := Lookup(before.0, before.1).value;
      ReplaceBelow(before.0, before.1, Apply(c, step, v), g);
    }
  }

  /** Inserting a key creates its first name at the top level if needed and
      leaves every other top-level field as it was. */
  lemma InsertFrame(root: Node, key: string, v: Value, g: string)
    requires root.Obj?
    ensures FirstName(key) in Insert(root, key, v).fields
    ensures g != FirstName(key) ==> Get(Insert(root, key, v), Prop(g)) == Get(root, Prop(g))
  {
    RunStepsFrame(root, Decompose(key), v, g);
  }

  /** The first names of the decoded keys, in order. */
  function Names(pairs: seq<(string, Value)>): (names: seq<string>)
    ensures |names| == |pairs|
  {
    if pairs == [] then [] else Names(pairs[..|pairs| - 1]) + [FirstName(pairs[|pairs| - 1].0)]
  }

  /** The top-level names of the result are exactly the first names of the
      decoded keys. */
  lemma {:induction false} ParseAllNames(pairs: seq<(string, Value)>, g: string)
    ensures g in ParseAll(pairs).fields <==> g in Names(pairs)
  {
    if pairs != [] {
      var n := |pairs|;
      var prefix := pairs[..n - 1];
      ParseAllNames(prefix, g);
      InsertFrame(ParseAll(prefix), pairs[n - 1].0, pairs[n - 1].1, g);
    }
  }

  /** The names end with the first name of the last pair. */
  lemma NamesLast(pairs: seq<(string, Value)>, init: seq<(string, Value)>, last: (string, Value))
    requires pairs != [] && pairs[..|pairs| - 1] == init && pairs[|pairs| - 1] == last
    ensures Names(pairs) == Names(init) + [FirstName(last.0)]
  {
  }

  lemma NotInSnoc(names: seq<string>, f: string, g: string)
    requires g !in names + [f]
    ensures g != f && g !in names
  {
    assert (names + [f])[|names|] == f;
    assert forall i :: 0 <= i < |names| ==> (names + [f])[i] == names[i];
  }

  /** A later key never disturbs what an earlier key put under a different
      top-level name. */
  lemma {:induction false} ParseAllKeepsOtherNames(pairs: seq<(string, Value)>, more: seq<(string, Value)>, g: string)
    requires g !in Names(more)
    ensures Get(ParseAll(pairs + more), Prop(g)) == Get(ParseAll(pairs), Prop(g))
    decreases |more|
  {
    if more != [] {
      var all, init, last := pairs + more, more[..|more| - 1], more[|more| - 1];
      assert all[..|all| - 1] == pairs + init && all[|all| - 1] == last;
      NamesLast(more, init, last);
      NotInSnoc(Names(init), FirstName(last.0), g);
      ParseAllKeepsOtherNames(pairs, init, g);
      ParseAllLast(all, pairs + init, last);
      InsertFrame(ParseAll(pairs + init), last.0, last.1, g);
    } else {
      assert pairs + more == pairs;
    }
  }
}
