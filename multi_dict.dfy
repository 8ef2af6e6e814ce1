/** A read-only view over an ordered list of dictionaries, the later ones
    shadowing the earlier ones on a shared key. */
module MultiDicts {
  import opened Wrappers

  /** Every key some layer holds. */
  function KeyUnion<V>(layers: seq<map<string, V>>): (ks: set<string>)
    ensures forall k :: k in ks <==> exists i :: 0 <= i < |layers| && k in layers[i]
  {
    if layers == [] then {}
    else
      var prefix := layers[..|layers| - 1];
      assert forall i :: 0 <= i < |prefix| ==> prefix[i] == layers[i];
      KeyUnion(prefix) + layers[|layers| - 1].Keys
  }

  /** The value under `k` in the last layer that holds it. */
  function LookupLast<V>(layers: seq<map<string, V>>, k: string): (r: Result<V>)
    ensures r.Err? <==> k !in KeyUnion(layers)
    ensures r.Err? ==> r.error == KeyNotFound
    ensures r.Ok? ==> exists i :: 0 <= i < |layers| && k in layers[i] && r.value == layers[i][k] &&
                                 forall j :: i < j < |layers| ==> k !in layers[j]
  {
    if layers == [] then Err(KeyNotFound)
    else if k in layers[|layers| - 1] then Ok(layers[|layers| - 1][k])
    else
      var prefix := layers[..|layers| - 1];
      var r := LookupLast(prefix, k);
      assert r.Ok? ==> exists i :: 0 <= i < |prefix| && k in layers[i] && r.value == layers[i][k] &&
                                   forall j :: i < j < |layers| ==> k !in layers[j];
      r
  }

  class MultiDict<V> {
    /** The layers, in order; the view never changes them. */
    const sources: seq<map<string, V>>

    constructor (sources: seq<map<string, V>>)
      ensures this.sources == sources
    {
      this.sources := sources;
    }

    /** `key in md`: some layer holds the key. */
    method Contains(key: string) returns (b: bool)
      ensures b <==> exists i :: 0 <= i < |sources| && key in sources[i]
    {
      var i := 0;
      while i < |sources|
        invariant 0 <= i <= |sources|
        invariant forall j :: 0 <= j < i ==> key !in sources[j]
      {
        if key in sources[i] {
          return true;
        }
        i := i + 1;
      }
      return false;
    }

    /** `md[key]`: scans the layers from the last to the first and returns the
        value from the first layer met that holds the key. */
    method Get(key: string) returns (r: Result<V>)
      ensures r == LookupLast(sources, key)
    {
      var i := |sources|;
      assert sources[..i] == sources;
      while i > 0
        invariant 0 <= i <= |sources|
        invariant LookupLast(sources, key) == LookupLast(sources[..i], key)
      {
        assert sources[..i][..i - 1] == sources[..i - 1];
        assert sources[..i][i - 1] == sources[i - 1];
        if key in sources[i - 1] {
          return Ok(sources[i - 1][key]);
        }
        i := i - 1;
      }
      return Err(KeyNotFound);
    }

    /** `len(md)`: the number of distinct keys over all layers. */
    method Length() returns (n: nat)
      ensures n == |KeyUnion(sources)|
    {
      var keys: set<string> := {};
      var i := 0;
      while i < |sources|
        invariant 0 <= i <= |sources|
        invariant keys == KeyUnion(sources[..i])
      {
        assert sources[..i + 1][..i] == sources[..i];
        keys := keys + sources[i].Keys;
        i := i + 1;
      }
      assert sources[..i] == sources;
      n := |keys|;
    }
  }

  // ---------------------------------------------------------------------------
  // Properties

  /** Layers with pairwise disjoint keys: the key union is as large as all
      layers together. */
  lemma {:induction false} DisjointLength<V>(layers: seq<map<string, V>>)
    requires forall i, j :: 0 <= i < j < |layers| ==> layers[i].Keys !! layers[j].Keys
    ensures |KeyUnion(layers)| == SumSizes(layers)
  {
    if layers != [] {
      var prefix := layers[..|layers| - 1];
      DisjointLength(prefix);
      assert KeyUnion(prefix) !! layers[|layers| - 1].Keys;
    }
  }

  /** Overlapping layers: the key union is never larger than all layers together,
      and no smaller than any one layer. */
  lemma {:induction false} LengthBounds<V>(layers: seq<map<string, V>>)
    ensures |KeyUnion(layers)| <= SumSizes(layers)
    ensures forall i :: 0 <= i < |layers| ==> |layers[i]| <= |KeyUnion(layers)|
  {
    if layers != [] {
      var prefix := layers[..|layers| - 1];
      LengthBounds(prefix);
      var last := layers[|layers| - 1];
      assert |KeyUnion(prefix) + last.Keys| <= |KeyUnion(prefix)| + |last.Keys| by {
        UnionSize(KeyUnion(prefix), last.Keys);
      }
      forall i | 0 <= i < |layers| ensures |layers[i]| <= |KeyUnion(layers)| {
        assert layers[i].Keys <= KeyUnion(layers);
        SubsetSize(layers[i].Keys, KeyUnion(layers));
      }
    }
  }

  /** The sum of the layers' sizes. */
  function SumSizes<V>(layers: seq<map<string, V>>): nat {
    if layers == [] then 0 else SumSizes(layers[..|layers| - 1]) + |layers[|layers| - 1]|
  }

  lemma UnionSize<T>(a: set<T>, b: set<T>)
    ensures |a + b| <= |a| + |b|
  {
    assert |a + b| == |a| + |b - a|;
    SubsetSize(b - a, b);
  }

  lemma {:induction false} SubsetSize<T>(a: set<T>, b: set<T>)
    requires a <= b
    ensures |a| <= |b|
    decreases |b|
  {
    if a != {} {
      var x :| x in a;
      SubsetSize(a - {x}, b - {x});
    }
  }

  /** The right-biased union of all layers, the shallow merge a copy would hold. */
  function Flatten<V>(layers: seq<map<string, V>>): map<string, V> {
    if layers == [] then map[] else Flatten(layers[..|layers| - 1]) + layers[|layers| - 1]
  }

  /** The view answers every query as the flattened copy would: the same keys,
      and under each key the same value. */
  lemma {:induction false} ViewIsFlatten<V>(layers: seq<map<string, V>>, k: string)
    ensures Flatten(layers).Keys == KeyUnion(layers)
    ensures LookupLast(layers, k) == if k in Flatten(layers) then Ok(Flatten(layers)[k]) else Err(KeyNotFound)
  {
    if layers != [] {
      ViewIsFlatten(layers[..|layers| - 1], k);
    }
  }

  /** A view over one dictionary behaves as that dictionary. */
  lemma SingleLayer<V>(d: map<string, V>, k: string)
    ensures KeyUnion([d]) == d.Keys
    ensures LookupLast([d], k) == if k in d then Ok(d[k]) else Err(KeyNotFound)
  {
    assert [d][..0] == [];
  }
}

/** The cases the unit tests check, stated over the model. */
module MultiDictExamples {
  import opened Wrappers
  import opened MultiDicts

  function First(): map<string, int> { map["a" := 1, "b" := 2, "c" := 3] }
  function Disjoint(): map<string, int> { map["d" := 1, "e" := 2, "f" := 3] }
  function Overlapping(): map<string, int> { map["c" := 1, "d" := 2, "e" := 3] }

  /** A view over two layers, spelled out. */
  lemma TwoLayers<V>(a: map<string, V>, b: map<string, V>, k: string)
    ensures KeyUnion([a, b]) == a.Keys + b.Keys
    ensures LookupLast([a, b], k) == if k in b then Ok(b[k]) else if k in a then Ok(a[k]) else Err(KeyNotFound)
  {
    assert [a, b][..1] == [a];
    assert [a][..0] == [];
  }

  lemma KeysOfLayers()
    ensures First().Keys == {"a", "b", "c"}
    ensures Disjoint().Keys == {"d", "e", "f"}
    ensures Overlapping().Keys == {"c", "d", "e"}
  {
  }

  /** One layer {a: 1, b: 2, c: 3}: three keys, each present with its own value. */
  lemma OneMember()
    ensures |KeyUnion([First()])| == 3
    ensures forall k :: k in ["a", "b", "c"] ==> k in KeyUnion([First()])
    ensures LookupLast([First()], "a") == Ok(1)
    ensures LookupLast([First()], "b") == Ok(2)
    ensures LookupLast([First()], "c") == Ok(3)
  {
    SingleLayer(First(), "a");
    SingleLayer(First(), "b");
    SingleLayer(First(), "c");
    KeysOfLayers();
  }

  /** Two layers with no shared key: six keys, each read from its own layer. */
  lemma TwoMembersNoOverlap()
    ensures |KeyUnion([First(), Disjoint()])| == 6
    ensures forall k :: k in ["a", "b", "c", "d", "e", "f"] ==> k in KeyUnion([First(), Disjoint()])
    ensures LookupLast([First(), Disjoint()], "a") == Ok(1)
    ensures LookupLast([First(), Disjoint()], "b") == Ok(2)
    ensures LookupLast([First(), Disjoint()], "c") == Ok(3)
    ensures LookupLast([First(), Disjoint()], "d") == Ok(1)
    ensures LookupLast([First(), Disjoint()], "e") == Ok(2)
    ensures LookupLast([First(), Disjoint()], "f") == Ok(3)
  {
    TwoLayers(First(), Disjoint(), "a");
    KeysOfLayers();
    SixKeys();
    NoOverlapFromFirst();
    NoOverlapFromSecond();
  }

  lemma NoOverlapFromFirst()
    ensures LookupLast([First(), Disjoint()], "a") == Ok(1)
    ensures LookupLast([First(), Disjoint()], "b") == Ok(2)
    ensures LookupLast([First(), Disjoint()], "c") == Ok(3)
  {
    TwoLayers(First(), Disjoint(), "a");
    TwoLayers(First(), Disjoint(), "b");
    TwoLayers(First(), Disjoint(), "c");
  }

  lemma NoOverlapFromSecond()
    ensures LookupLast([First(), Disjoint()], "d") == Ok(1)
    ensures LookupLast([First(), Disjoint()], "e") == Ok(2)
    ensures LookupLast([First(), Disjoint()], "f") == Ok(3)
  {
    TwoLayers(First(), Disjoint(), "d");
    TwoLayers(First(), Disjoint(), "e");
    TwoLayers(First(), Disjoint(), "f");
  }

  lemma SixKeys()
    ensures |{"a", "b", "c"} + {"d", "e", "f"}| == 6
  {
    assert {"a", "b", "c"} + {"d", "e", "f"} == {"a", "b", "c", "d", "e", "f"};
  }

  /** Two layers sharing "c": five keys, and "c" reads 1 from the second layer. */
  lemma TwoMembersOverlap()
    ensures |KeyUnion([First(), Overlapping()])| == 5
    ensures forall k :: k in ["a", "b", "c", "d", "e"] ==> k in KeyUnion([First(), Overlapping()])
    ensures LookupLast([First(), Overlapping()], "a") == Ok(1)
    ensures LookupLast([First(), Overlapping()], "b") == Ok(2)
    ensures LookupLast([First(), Overlapping()], "c") == Ok(1)
    ensures LookupLast([First(), Overlapping()], "d") == Ok(2)
    ensures LookupLast([First(), Overlapping()], "e") == Ok(3)
  {
    TwoLayers(First(), Overlapping(), "a");
    KeysOfLayers();
    FiveKeys();
    OverlapFromFirst();
    OverlapFromSecond();
  }

  lemma OverlapFromFirst()
    ensures LookupLast([First(), Overlapping()], "a") == Ok(1)
    ensures LookupLast([First(), Overlapping()], "b") == Ok(2)
  {
    TwoLayers(First(), Overlapping(), "a");
    TwoLayers(First(), Overlapping(), "b");
  }

  lemma OverlapFromSecond()
    ensures LookupLast([First(), Overlapping()], "c") == Ok(1)
    ensures LookupLast([First(), Overlapping()], "d") == Ok(2)
    ensures LookupLast([First(), Overlapping()], "e") == Ok(3)
  {
    TwoLayers(First(), Overlapping(), "c");
    TwoLayers(First(), Overlapping(), "d");
    TwoLayers(First(), Overlapping(), "e");
  }

  lemma FiveKeys()
    ensures |{"a", "b", "c"} + {"c", "d", "e"}| == 5
  {
    assert {"a", "b", "c"} + {"c", "d", "e"} == {"a", "b", "c", "d", "e"};
  }
}
