/** A path-aware map over nested configuration data: every scalar leaf is
    replaced by the callback's answer for that leaf and the keypath leading
    to it; containers keep their shape. */
module DeepMap {
  import opened Wrappers
  import opened Values

  /** The caller's transform: a leaf and the keys and indices from the root to it. */
  type Callback = (Scalar, Path) -> Scalar

  /** Renders `v`, found at keypath `path`. An opaque node anywhere aborts the
      whole traversal with a configuration error and no partial result. */
  function Render(f: Callback, v: Value, path: Path): (r: Result<Value>)
    ensures r.Ok? <==> Supported(v)
    ensures r.Err? ==> r.error == ConfigShapeError
    decreases v, 1
  {
    match v
    case VScalar(s) => Ok(VScalar(f(s, path)))
    case Opaque => Err(ConfigShapeError)
    case VList(items) =>
      (match RenderItems(f, items, path, 0)
       case Ok(ws) => Ok(VList(ws))
       case Err(e) => Err(e))
    case VMap(es) =>
      (match RenderEntries(f, es, path, 0)
       case Ok(ws) => Ok(VMap(ws))
       case Err(e) => Err(e))
  }

  /** Renders `items[i..]`, element `j` at keypath `path + [Index(j)]`, left to right. */
  function RenderItems(f: Callback, items: seq<Value>, path: Path, i: nat): (r: Result<seq<Value>>)
    requires i <= |items|
    ensures r.Ok? <==> forall j :: i <= j < |items| ==> Supported(items[j])
    ensures r.Err? ==> r.error == ConfigShapeError
    decreases VList(items), 0, |items| - i
  {
    if i == |items| then Ok([])
    else
      match Render(f, items[i], path + [Index(i)])
      case Err(e) => Err(e)
      case Ok(w) =>
        (match RenderItems(f, items, path, i + 1)
         case Err(e) => Err(e)
         case Ok(ws) => Ok([w] + ws))
  }

  /** Renders the entries `es[i..]`, the value under key `k` at keypath `path + [Key(k)]`. */
  function RenderEntries(f: Callback, es: Entries, path: Path, i: nat): (r: Result<Entries>)
    requires i <= |es|
    ensures r.Ok? <==> forall j :: i <= j < |es| ==> Supported(es[j].1)
    ensures r.Err? ==> r.error == ConfigShapeError
    decreases VMap(es), 0, |es| - i
  {
    if i == |es| then Ok([])
    else
      match Render(f, es[i].1, path + [Key(es[i].0)])
      case Err(e) => Err(e)
      case Ok(w) =>
        (match RenderEntries(f, es, path, i + 1)
         case Err(e) => Err(e)
         case Ok(ws) => Ok([(es[i].0, w)] + ws))
  }

  /** The entry point: rendering starts at the root, whose keypath is empty. */
  function DeepMapRender(f: Callback, v: Value): (r: Result<Value>)
    ensures r.Ok? <==> Supported(v)
  {
    Render(f, v, [])
  }

  // ---------------------------------------------------------------------------
  // Element-wise characterisation of the container cases

  /** A rendered list is, element by element, the rendering of the input's
      elements, each at its own index. */
  lemma {:induction false} RenderItemsAt(f: Callback, items: seq<Value>, path: Path, i: nat)
    requires i <= |items|
    requires RenderItems(f, items, path, i).Ok?
    ensures |RenderItems(f, items, path, i).value| == |items| - i
    ensures forall j :: i <= j < |items| ==>
      Render(f, items[j], path + [Index(j)]) == Ok(RenderItems(f, items, path, i).value[j - i])
    decreases |items| - i
  {
    if i < |items| {
      RenderItemsAt(f, items, path, i + 1);
    }
  }

  /** A rendered mapping keeps every key in place, and the value under each key
      is the rendering of the input's value at the keypath extended by that key. */
  lemma {:induction false} RenderEntriesAt(f: Callback, es: Entries, path: Path, i: nat)
    requires i <= |es|
    requires RenderEntries(f, es, path, i).Ok?
    ensures |RenderEntries(f, es, path, i).value| == |es| - i
    ensures forall j :: i <= j < |es| ==>
      RenderEntries(f, es, path, i).value[j - i].0 == es[j].0 &&
      Render(f, es[j].1, path + [Key(es[j].0)]) == Ok(RenderEntries(f, es, path, i).value[j - i].1)
    decreases |es| - i
  {
    if i < |es| {
      RenderEntriesAt(f, es, path, i + 1);
    }
  }

  /** Conversely, a list that is element-wise the rendering of `items` is the
      rendering of `items`. */
  lemma RenderListFrom(f: Callback, items: seq<Value>, path: Path, out: seq<Value>)
    requires |out| == |items|
    requires forall j :: 0 <= j < |items| ==> Render(f, items[j], path + [Index(j)]) == Ok(out[j])
    ensures Render(f, VList(items), path) == Ok(VList(out))
  {
    RenderItemsAt(f, items, path, 0);
    var ws := RenderItems(f, items, path, 0).value;
    assert ws == out by {
      forall j | 0 <= j < |items| ensures ws[j] == out[j] { }
    }
  }

  /** Conversely, a mapping with the same keys in the same order whose values are
      the renderings of `es`'s values is the rendering of `es`. */
  lemma RenderMapFrom(f: Callback, es: Entries, path: Path, out: Entries)
    requires |out| == |es|
    requires forall j :: 0 <= j < |es| ==>
      out[j].0 == es[j].0 && Render(f, es[j].1, path + [Key(es[j].0)]) == Ok(out[j].1)
    ensures Render(f, VMap(es), path) == Ok(VMap(out))
  {
    RenderEntriesAt(f, es, path, 0);
    var ws := RenderEntries(f, es, path, 0).value;
    assert ws == out by {
      forall j | 0 <= j < |es| ensures ws[j] == out[j] { }
    }
  }

  // ---------------------------------------------------------------------------
  // Properties

  /** `f` hands back unchanged every leaf whose keypath extends `path`. */
  ghost predicate FixesLeavesUnder(f: Callback, path: Path) {
    forall s, q :: f(s, path + q) == s
  }

  /** A callback that fixes every leaf below `path` renders the subtree at
      `path` to itself. */
  lemma {:induction false} RenderIdentity(f: Callback, v: Value, path: Path)
    requires FixesLeavesUnder(f, path)
    requires Supported(v)
    ensures Render(f, v, path) == Ok(v)
    decreases v
  {
    match v
    case VScalar(s) =>
      assert path + [] == path;
    case VList(items) =>
      forall j | 0 <= j < |items| ensures Render(f, items[j], path + [Index(j)]) == Ok(items[j]) {
        FixesLeavesUnderStep(f, path, Index(j));
        RenderIdentity(f, items[j], path + [Index(j)]);
      }
      RenderListFrom(f, items, path, items);
    case VMap(es) =>
      forall j | 0 <= j < |es| ensures Render(f, es[j].1, path + [Key(es[j].0)]) == Ok(es[j].1) {
        FixesLeavesUnderStep(f, path, Key(es[j].0));
        RenderIdentity(f, es[j].1, path + [Key(es[j].0)]);
      }
      RenderMapFrom(f, es, path, es);
  }

  lemma FixesLeavesUnderStep(f: Callback, path: Path, e: PathElem)
    requires FixesLeavesUnder(f, path)
    ensures FixesLeavesUnder(f, path + [e])
  {
    forall s, q ensures f(s, (path + [e]) + q) == s {
      assert (path + [e]) + q == path + ([e] + q);
    }
  }

  /** With a pass-through callback, rendering returns its input unchanged
      whenever the input holds no opaque object. */
  lemma RenderNoop(f: Callback, v: Value)
    requires forall s, q :: f(s, q) == s
    requires Supported(v)
    ensures DeepMapRender(f, v) == Ok(v)
  {
    RenderIdentity(f, v, []);
  }

  /** `f` is idempotent on its own outputs at every keypath. */
  ghost predicate IdempotentOnOutputs(f: Callback) {
    forall s, q :: f(f(s, q), q) == f(s, q)
  }

  /** Rendering the output of a rendering again with the same callback
      reproduces it, when the callback is idempotent on its outputs. */
  lemma {:induction false} RenderIdempotent(f: Callback, v: Value, path: Path)
    requires IdempotentOnOutputs(f)
    requires Supported(v)
    ensures Render(f, Render(f, v, path).value, path) == Render(f, v, path)
    decreases v
  {
    match v
    case VScalar(s) =>
    case VList(items) =>
      RenderItemsAt(f, items, path, 0);
      var ws := RenderItems(f, items, path, 0).value;
      forall j | 0 <= j < |items| ensures Render(f, ws[j], path + [Index(j)]) == Ok(ws[j]) {
        RenderIdempotent(f, items[j], path + [Index(j)]);
      }
      RenderListFrom(f, ws, path, ws);
    case VMap(es) =>
      RenderEntriesAt(f, es, path, 0);
      var ws := RenderEntries(f, es, path, 0).value;
      forall j | 0 <= j < |es| ensures Render(f, ws[j].1, path + [Key(ws[j].0)]) == Ok(ws[j].1) {
        RenderIdempotent(f, es[j].1, path + [Key(es[j].0)]);
      }
      RenderMapFrom(f, ws, path, ws);
  }

  /** The container structure of a value with every scalar erased. */
  function Skeleton(v: Value): (r: Value)
    ensures v.VMap? <==> r.VMap?
    ensures v.VList? <==> r.VList?
    ensures v.VScalar? <==> r.VScalar?
  {
    match v
    case VScalar(_) => VScalar(Null)
    case Opaque => Opaque
    case VList(items) => VList(seq(|items|, j requires 0 <= j < |items| => Skeleton(items[j])))
    case VMap(es) => VMap(seq(|es|, j requires 0 <= j < |es| => (es[j].0, Skeleton(es[j].1))))
  }

  /** Rendering preserves shape: the same keys in the same order, the same list
      lengths, scalars exactly where the input has scalars. */
  lemma {:induction false} RenderPreservesShape(f: Callback, v: Value, path: Path)
    requires Supported(v)
    ensures Skeleton(Render(f, v, path).value) == Skeleton(v)
    decreases v
  {
    match v
    case VScalar(s) =>
    case VList(items) =>
      RenderItemsAt(f, items, path, 0);
      var ws := RenderItems(f, items, path, 0).value;
      forall j | 0 <= j < |items| ensures Skeleton(ws[j]) == Skeleton(items[j]) {
        RenderPreservesShape(f, items[j], path + [Index(j)]);
      }
    case VMap(es) =>
      RenderEntriesAt(f, es, path, 0);
      var ws := RenderEntries(f, es, path, 0).value;
      forall j | 0 <= j < |es| ensures Skeleton(ws[j].1) == Skeleton(es[j].1) {
        RenderPreservesShape(f, es[j].1, path + [Key(es[j].0)]);
      }
  }

  /** Navigating the output along any keypath `q` reaches a node exactly when
      navigating the input does, and that node is the rendering of the input's
      node at keypath `path + q`. */
  lemma {:induction false} RenderAt(f: Callback, v: Value, path: Path, q: Path)
    requires Supported(v)
    ensures At(Render(f, v, path).value, q).None? <==> At(v, q).None?
    ensures At(v, q).Some? ==> Render(f, At(v, q).value, path + q) == Ok(At(Render(f, v, path).value, q).value)
    decreases |q|, 1
  {
    if q == [] {
      assert path + q == path;
    } else if v.VMap? && q[0].Key? {
      RenderAtKey(f, v.entries, path, q[0].k, q[1..]);
      assert q == [q[0]] + q[1..];
    } else if v.VList? && q[0].Index? {
      RenderAtIndex(f, v.items, path, q[0].i, q[1..]);
      assert q == [q[0]] + q[1..];
    }
  }

  /** The mapping step of `RenderAt`: key `k`, then the rest of the keypath. */
  lemma {:induction false} RenderAtKey(f: Callback, es: Entries, path: Path, k: string, rest: Path)
    requires Supported(VMap(es))
    ensures At(Render(f, VMap(es), path).value, [Key(k)] + rest).None? <==> At(VMap(es), [Key(k)] + rest).None?
    ensures At(VMap(es), [Key(k)] + rest).Some? ==>
      Render(f, At(VMap(es), [Key(k)] + rest).value, path + ([Key(k)] + rest))
        == Ok(At(Render(f, VMap(es), path).value, [Key(k)] + rest).value)
    decreases |rest| + 1, 0
  {
    var q := [Key(k)] + rest;
    assert q[1..] == rest;
    assert path + q == (path + [Key(k)]) + rest;
    RenderEntriesAt(f, es, path, 0);
    var ws := RenderEntries(f, es, path, 0).value;
    assert Render(f, VMap(es), path).value == VMap(ws);
    IndexOfSameKeys(es, ws, k);
    match IndexOf(es, k) {
      case None =>
      case Some(idx) =>
        assert At(VMap(es), q) == At(es[idx].1, rest);
        assert At(VMap(ws), q) == At(ws[idx].1, rest);
        RenderAt(f, es[idx].1, path + [Key(k)], rest);
    }
  }

  /** The list step of `RenderAt`: index `i`, then the rest of the keypath. */
  lemma {:induction false} RenderAtIndex(f: Callback, items: seq<Value>, path: Path, i: nat, rest: Path)
    requires Supported(VList(items))
    ensures At(Render(f, VList(items), path).value, [Index(i)] + rest).None? <==> At(VList(items), [Index(i)] + rest).None?
    ensures At(VList(items), [Index(i)] + rest).Some? ==>
      Render(f, At(VList(items), [Index(i)] + rest).value, path + ([Index(i)] + rest))
        == Ok(At(Render(f, VList(items), path).value, [Index(i)] + rest).value)
    decreases |rest| + 1, 0
  {
    var q := [Index(i)] + rest;
    assert q[1..] == rest;
    assert path + q == (path + [Index(i)]) + rest;
    RenderItemsAt(f, items, path, 0);
    var ws := RenderItems(f, items, path, 0).value;
    assert Render(f, VList(items), path).value == VList(ws);
    if i < |items| {
      RenderAt(f, items[i], path + [Index(i)], rest);
    }
  }

  /** Every scalar leaf of the input, at keypath `q` from the root, becomes
      `f(leaf, q)` at the same keypath of the output. */
  lemma RenderLeaf(f: Callback, v: Value, q: Path, s: Scalar)
    requires Supported(v)
    requires At(v, q) == Some(VScalar(s))
    ensures At(DeepMapRender(f, v).value, q) == Some(VScalar(f(s, q)))
  {
    RenderAt(f, v, [], q);
    assert [] + q == q;
  }
}

/** The cases the unit tests check, stated over the model. */
module DeepMapExamples {
  import opened Wrappers
  import opened Values
  import opened DeepMap

  /** The nested mixture the tests render. */
  function TestInput(): Value {
    VMap([
      ("foo", VMap([
        ("bar", VScalar(Str("hello"))),
        ("baz", VList([VScalar(Int(1)), VScalar(Float(90.5)), VScalar(Str("990")), VScalar(Str("89.9"))]))])),
      ("nested", VList([
        VMap([("test", VScalar(Str("90"))), ("other_test", VScalar(Null))]),
        VMap([("test", VScalar(Int(400))), ("other_test", VScalar(Float(4700000000.0)))])]))])
  }

  /** Replaces the one leaf at keypath foo.baz[1] by "hello", passes every other leaf through. */
  function SpecialKeypath(s: Scalar, q: Path): Scalar {
    if q == [Key("foo"), Key("baz"), Index(1)] then Str("hello") else s
  }

  function SpecialKeypathExpected(): Value {
    VMap([
      ("foo", VMap([
        ("bar", VScalar(Str("hello"))),
        ("baz", VList([VScalar(Int(1)), VScalar(Str("hello")), VScalar(Str("990")), VScalar(Str("89.9"))]))])),
      ("nested", VList([
        VMap([("test", VScalar(Str("90"))), ("other_test", VScalar(Null))]),
        VMap([("test", VScalar(Int(400))), ("other_test", VScalar(Float(4700000000.0)))])]))])
  }

  /** The list under foo.baz: only its element at index 1 is replaced. */
  lemma SpecialKeypathBaz()
    ensures Render(SpecialKeypath, TestInput().entries[0].1.entries[1].1, [Key("foo"), Key("baz")])
      == Ok(SpecialKeypathExpected().entries[0].1.entries[1].1)
  {
    var baz := [Key("foo"), Key("baz")];
    var bazIn := TestInput().entries[0].1.entries[1].1.items;
    var bazOut := SpecialKeypathExpected().entries[0].1.entries[1].1.items;
    forall j | 0 <= j < 4 ensures Render(SpecialKeypath, bazIn[j], baz + [Index(j)]) == Ok(bazOut[j]) {
      assert (baz + [Index(j)])[2] == Index(j);
      assert j == 1 ==> baz + [Index(j)] == [Key("foo"), Key("baz"), Index(1)];
    }
    RenderListFrom(SpecialKeypath, bazIn, baz, bazOut);
  }

  /** The mapping under foo: bar passes through, baz is rendered as above. */
  lemma SpecialKeypathFoo()
    ensures Render(SpecialKeypath, TestInput().entries[0].1, [Key("foo")])
      == Ok(SpecialKeypathExpected().entries[0].1)
  {
    var foo := [Key("foo")];
    var fooIn := TestInput().entries[0].1.entries;
    var fooOut := SpecialKeypathExpected().entries[0].1.entries;
    SpecialKeypathBaz();
    assert foo + [Key("baz")] == [Key("foo"), Key("baz")];
    assert |foo + [Key("bar")]| == 2;
    RenderMapFrom(SpecialKeypath, fooIn, foo, fooOut);
  }

  /** Only the leaf at foo.baz[1] changes. */
  lemma SpecialKeypathCase()
    ensures DeepMapRender(SpecialKeypath, TestInput()) == Ok(SpecialKeypathExpected())
  {
    SpecialKeypathFoo();
    var nested := TestInput().entries[1].1;
    forall s, q ensures SpecialKeypath(s, [Key("nested")] + q) == s {
      assert ([Key("nested")] + q)[0] == Key("nested");
    }
    RenderIdentity(SpecialKeypath, nested, [Key("nested")]);
    assert [] + [Key("foo")] == [Key("foo")];
    assert [] + [Key("nested")] == [Key("nested")];
    RenderMapFrom(SpecialKeypath, TestInput().entries, [], SpecialKeypathExpected().entries);
  }

  /** Rendering the expected output again reproduces it. */
  lemma SpecialKeypathStable()
    ensures DeepMapRender(SpecialKeypath, SpecialKeypathExpected()) == Ok(SpecialKeypathExpected())
  {
    SpecialKeypathCase();
    RenderIdempotent(SpecialKeypath, TestInput(), []);
  }

  /** The callback that hands every leaf back unchanged. */
  function Identity(s: Scalar, q: Path): Scalar {
    s
  }

  /** The identity callback returns the nested mixture unchanged. */
  lemma IdentityMixed()
    ensures DeepMapRender(Identity, TestInput()) == Ok(TestInput())
  {
    RenderNoop(Identity, TestInput());
  }

  /** ... and the empty list, the empty mapping and single scalars too. */
  lemma TrivialCases()
    ensures DeepMapRender(Identity, VList([])) == Ok(VList([]))
    ensures DeepMapRender(Identity, VMap([])) == Ok(VMap([]))
    ensures DeepMapRender(Identity, VScalar(Int(1))) == Ok(VScalar(Int(1)))
    ensures DeepMapRender(Identity, VScalar(Str("abc"))) == Ok(VScalar(Str("abc")))
    ensures DeepMapRender(Identity, VScalar(Null)) == Ok(VScalar(Null))
    ensures DeepMapRender(Identity, VScalar(Bool(true))) == Ok(VScalar(Bool(true)))
  {
  }

  /** A mapping holding an unsupported object is a configuration error. */
  lemma UnsupportedFails()
    ensures DeepMapRender(Identity, VMap([("foo", Opaque)])) == Err(ConfigShapeError)
  {
  }
}
