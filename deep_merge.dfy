/** Recursive merge of configuration mappings, left to right, later ones winning.
    Where both sides hold a mapping under the same key the two are merged one
    level deeper; any other later value (a list, a scalar, a mapping over a
    non-mapping or the reverse) replaces the earlier one outright. */
module Merge {
  import opened Wrappers
  import opened Values

  /** The value a key ends up with when `b` is merged over `a`. */
  function MergeValues(a: Value, b: Value): (r: Value)
    ensures !(a.VMap? && b.VMap?) ==> r == b
    ensures a.VMap? && b.VMap? ==> r.VMap?
    decreases b, 2
  {
    if a.VMap? && b.VMap? then VMap(MergeFrom(a.entries, b.entries, 0)) else b
  }

  /** Writes key `k` with value `v` into `dst`: a key already present keeps its
      position and takes the merged value, a new key is appended. */
  function Insert(dst: Entries, k: string, v: Value): (r: Entries)
    ensures Keys(r) == Keys(dst) + {k}
    ensures DistinctKeys(dst) ==> DistinctKeys(r)
    decreases v, 3
  {
    match IndexOf(dst, k)
    case None =>
      assert forall j :: 0 <= j < |dst| ==> (dst + [(k, v)])[j] == dst[j];
      assert (dst + [(k, v)])[|dst|].0 == k;
      dst + [(k, v)]
    case Some(i) =>
      var r := dst[i := (k, MergeValues(dst[i].1, v))];
      assert forall j :: 0 <= j < |dst| ==> r[j].0 == dst[j].0;
      r
  }

  /** Merges the entries `src[i..]` into `dst`, one key at a time in order. */
  function MergeFrom(dst: Entries, src: Entries, i: nat): (r: Entries)
    requires i <= |src|
    ensures Keys(r) == Keys(dst) + Keys(src[i..])
    ensures DistinctKeys(dst) ==> DistinctKeys(r)
    decreases VMap(src), 0, |src| - i
  {
    if i == |src| then dst
    else
      assert Keys(src[i..]) == {src[i].0} + Keys(src[i + 1..]) by {
        assert src[i..][0] == src[i];
      }
      MergeFrom(Insert(dst, src[i].0, src[i].1), src, i + 1)
  }

  /** Merges the mapping `src` over the mapping `dst`. */
  function MergeInto(dst: Entries, src: Entries): (r: Entries)
    ensures Keys(r) == Keys(dst) + Keys(src)
  {
    assert src[0..] == src;
    MergeFrom(dst, src, 0)
  }

  /** All arguments merged left to right into an initially empty mapping. */
  function DeepMerge(args: seq<Entries>): (r: Entries)
    ensures forall k :: k in Keys(r) <==> exists j :: 0 <= j < |args| && k in Keys(args[j])
  {
    if args == [] then []
    else
      var prefix := args[..|args| - 1];
      assert forall j :: 0 <= j < |prefix| ==> prefix[j] == args[j];
      MergeInto(DeepMerge(prefix), args[|args| - 1])
  }

  // ---------------------------------------------------------------------------
  // Lookups in a merged mapping

  /** The value a key holds once `v` is written over what it held before, if anything. */
  function Combine(prev: Option<Value>, v: Value): Value {
    match prev
    case None => v
    case Some(a) => MergeValues(a, v)
  }

  /** Writing key `k` changes what `k` holds as the merge rule says and leaves
      every other key as it was. */
  lemma InsertFind(dst: Entries, k: string, v: Value, k': string)
    ensures Find(Insert(dst, k, v), k') == if k' == k then Some(Combine(Find(dst, k), v)) else Find(dst, k')
  {
    match IndexOf(dst, k) {
      case None =>
        IndexOfAppend(dst, k, v, k');
      case Some(i) =>
        var r := dst[i := (k, MergeValues(dst[i].1, v))];
        IndexOfSameKeys(dst, r, k');
    }
  }

  /** Looking past the first entry of a suffix. */
  lemma FindSuffix(src: Entries, i: nat, k: string)
    requires i < |src|
    ensures Find(src[i..], k) == if src[i].0 == k then Some(src[i].1) else Find(src[i + 1..], k)
  {
    assert src[i..][0] == src[i];
    assert src[i..][1..] == src[i + 1..];
  }

  lemma {:induction false} MergeFromFind(dst: Entries, src: Entries, i: nat, k: string)
    requires i <= |src|
    requires DistinctKeys(src)
    ensures Find(MergeFrom(dst, src, i), k) ==
      if k in Keys(src[i..]) then Some(Combine(Find(dst, k), Find(src[i..], k).value)) else Find(dst, k)
    decreases |src| - i
  {
    if i < |src| {
      var dst' := Insert(dst, src[i].0, src[i].1);
      assert MergeFrom(dst, src, i) == MergeFrom(dst', src, i + 1);
      MergeFromFind(dst', src, i + 1, k);
      InsertFind(dst, src[i].0, src[i].1, k);
      FindSuffix(src, i, k);
      KeysSuffix(src, i);
      if src[i].0 == k {
        assert k !in Keys(src[i + 1..]);
      }
    }
  }

  lemma KeysSuffix(src: Entries, i: nat)
    requires i < |src|
    ensures Keys(src[i..]) == {src[i].0} + Keys(src[i + 1..])
  {
    assert src[i..][0] == src[i];
  }

  /** The rule for two mappings: a key only in `dst` keeps its value; a key in
      `src` takes `src`'s value, except that where both hold a mapping the two
      are merged one level deeper. */
  lemma MergeIntoFind(dst: Entries, src: Entries, k: string)
    requires DistinctKeys(src)
    ensures Find(MergeInto(dst, src), k) ==
      if k !in Keys(src) then Find(dst, k)
      else if k in Keys(dst) && Find(dst, k).value.VMap? && Find(src, k).value.VMap? then
        Some(VMap(MergeInto(Find(dst, k).value.entries, Find(src, k).value.entries)))
      else Find(src, k)
  {
    MergeFromFind(dst, src, 0, k);
    assert src[0..] == src;
  }

  /** What the merge of `args` holds under `k`, worked out for that key alone:
      every argument that has `k`, in order, is combined over the value so far. */
  function LookupAll(args: seq<Entries>, k: string): Option<Value> {
    if args == [] then None
    else
      var before := LookupAll(args[..|args| - 1], k);
      match Find(args[|args| - 1], k)
      case None => before
      case Some(v) => Some(Combine(before, v))
  }

  /** The merged mapping agrees with the key-wise reference on every key. */
  lemma {:induction false} DeepMergeFind(args: seq<Entries>, k: string)
    requires forall j :: 0 <= j < |args| ==> DistinctKeys(args[j])
    ensures Find(DeepMerge(args), k) == LookupAll(args, k)
  {
    if args != [] {
      var prefix := args[..|args| - 1];
      DeepMergeFind(prefix, k);
      MergeFromFind(DeepMerge(prefix), args[|args| - 1], 0, k);
      assert args[|args| - 1][0..] == args[|args| - 1];
    }
  }

  /** When no key occurs in two arguments, the merge holds under each key the
      value its one argument gives it. */
  lemma {:induction false} DeepMergeDisjoint(args: seq<Entries>, j: nat, k: string)
    requires forall i :: 0 <= i < |args| ==> DistinctKeys(args[i])
    requires forall i, i' :: 0 <= i < i' < |args| ==> Keys(args[i]) !! Keys(args[i'])
    requires j < |args| && k in Keys(args[j])
    ensures Find(DeepMerge(args), k) == Find(args[j], k)
  {
    DeepMergeFind(args, k);
    LookupAllDisjoint(args, j, k);
  }

  lemma {:induction false} LookupAllDisjoint(args: seq<Entries>, j: nat, k: string)
    requires forall i, i' :: 0 <= i < i' < |args| ==> Keys(args[i]) !! Keys(args[i'])
    requires j < |args| && k in Keys(args[j])
    ensures LookupAll(args, k) == Find(args[j], k)
  {
    var prefix := args[..|args| - 1];
    if j == |args| - 1 {
      LookupAllAbsent(prefix, k);
    } else {
      assert k !in Keys(args[|args| - 1]) by {
        assert Keys(args[j]) !! Keys(args[|args| - 1]);
      }
      LookupAllDisjoint(prefix, j, k);
    }
  }

  /** A key no argument holds is absent from the merge. */
  lemma {:induction false} LookupAllAbsent(args: seq<Entries>, k: string)
    requires forall i :: 0 <= i < |args| ==> k !in Keys(args[i])
    ensures LookupAll(args, k) == None
  {
    if args != [] {
      LookupAllAbsent(args[..|args| - 1], k);
    }
  }

  /** A later argument whose value under `k` is not a mapping replaces whatever
      the earlier arguments left there. */
  lemma DeepMergeLastWins(args: seq<Entries>, k: string)
    requires forall j :: 0 <= j < |args| ==> DistinctKeys(args[j])
    requires args != [] && k in Keys(args[|args| - 1])
    requires !Find(args[|args| - 1], k).value.VMap?
    ensures Find(DeepMerge(args), k) == Find(args[|args| - 1], k)
  {
    DeepMergeFind(args, k);
  }

  // ---------------------------------------------------------------------------
  // Zero and one argument

  /** Merging a dictionary into an empty accumulator rebuilds it entry by entry. */
  lemma {:induction false} MergeFromPrefix(d: Entries, i: nat)
    requires DistinctKeys(d)
    requires i <= |d|
    ensures MergeFrom(d[..i], d, i) == d
    decreases |d| - i
  {
    if i < |d| {
      assert d[i].0 !in Keys(d[..i]);
      assert IndexOf(d[..i], d[i].0) == None;
      assert Insert(d[..i], d[i].0, d[i].1) == d[..i] + [d[i]];
      assert d[..i] + [d[i]] == d[..i + 1];
      MergeFromPrefix(d, i + 1);
    } else {
      assert d[..i] == d;
    }
  }

  /** One argument gives back that argument, structurally equal. */
  lemma DeepMergeSingle(d: Entries)
    requires DistinctKeys(d)
    ensures DeepMerge([d]) == d
  {
    MergeFromPrefix(d, 0);
    assert [d][..0] == [];
  }

  // ---------------------------------------------------------------------------
  // Well-formedness

  lemma {:induction false} MergeValuesWellFormed(a: Value, b: Value)
    requires WellFormed(a) && WellFormed(b)
    ensures WellFormed(MergeValues(a, b))
    decreases b, 2
  {
    if a.VMap? && b.VMap? {
      MergeFromWellFormed(a.entries, b.entries, 0);
    }
  }

  lemma {:induction false} InsertWellFormed(dst: Entries, k: string, v: Value)
    requires WellFormed(VMap(dst)) && WellFormed(v)
    ensures WellFormed(VMap(Insert(dst, k, v)))
    decreases v, 3
  {
    match IndexOf(dst, k) {
      case None =>
      case Some(i) =>
        MergeValuesWellFormed(dst[i].1, v);
    }
  }

  lemma {:induction false} MergeFromWellFormed(dst: Entries, src: Entries, i: nat)
    requires i <= |src|
    requires WellFormed(VMap(dst)) && WellFormed(VMap(src))
    ensures WellFormed(VMap(MergeFrom(dst, src, i)))
    decreases VMap(src), 0, |src| - i
  {
    if i < |src| {
      InsertWellFormed(dst, src[i].0, src[i].1);
      MergeFromWellFormed(Insert(dst, src[i].0, src[i].1), src, i + 1);
    }
  }

  /** Merging dictionaries gives a dictionary: no key twice at any depth. */
  lemma {:induction false} DeepMergeWellFormed(args: seq<Entries>)
    requires forall j :: 0 <= j < |args| ==> WellFormed(VMap(args[j]))
    ensures WellFormed(VMap(DeepMerge(args)))
  {
    if args != [] {
      var prefix := args[..|args| - 1];
      DeepMergeWellFormed(prefix);
      MergeFromWellFormed(DeepMerge(prefix), args[|args| - 1], 0);
    }
  }
}

/** The cases the unit tests check, stated over the model. */
module MergeExamples {
  import opened Values
  import opened Merge

  /** One key into an empty mapping; then three arguments, disjoint keys, whose
      merge holds both keys (a dictionary compares equal whatever its order). */
  lemma SimpleCases()
    ensures DeepMerge([[], [("a", VScalar(Int(1)))]]) == [("a", VScalar(Int(1)))]
    ensures DeepMerge([[], [("b", VScalar(Int(1)))], [("a", VScalar(Int(1)))]])
      == [("b", VScalar(Int(1))), ("a", VScalar(Int(1)))]
  {
  }

  /** No arguments give an empty mapping. */
  lemma NoArguments()
    ensures DeepMerge([]) == []
  {
  }

  /** Mappings under a shared key merge recursively. */
  lemma NestedMapsMerge()
    ensures DeepMerge([[("a", VMap([("x", VScalar(Int(1)))]))], [("a", VMap([("y", VScalar(Int(2)))]))]])
      == [("a", VMap([("x", VScalar(Int(1))), ("y", VScalar(Int(2)))]))]
  {
    var x, y := [("x", VScalar(Int(1)))], [("y", VScalar(Int(2)))];
    var first, second := [("a", VMap(x))], [("a", VMap(y))];
    assert Insert(x, "y", VScalar(Int(2))) == x + y;
    assert MergeValues(VMap(x), VMap(y)) == VMap(x + y);
    DeepMergeSingle(first);
    assert [first, second][..1] == [first];
    assert Insert(first, "a", VMap(y)) == [("a", VMap(x + y))];
    assert MergeFrom(first, second, 0) == MergeFrom([("a", VMap(x + y))], second, 1);
    assert MergeInto(first, second) == [("a", VMap(x + y))];
    assert DeepMerge([first, second]) == MergeInto(DeepMerge([first]), second);
    assert x + y == [("x", VScalar(Int(1))), ("y", VScalar(Int(2)))];
  }

  /** A list under a shared key is replaced, not concatenated. */
  lemma ListsReplaced()
    ensures DeepMerge([[("l", VList([VScalar(Int(1))]))], [("l", VList([VScalar(Int(2))]))]])
      == [("l", VList([VScalar(Int(2))]))]
  {
  }
}
