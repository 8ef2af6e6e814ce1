/** Nested configuration data: mappings, lists and scalars, as parsed from
    YAML or JSON, plus a node for any other object the host language may put
    into such a structure. */
module Values {
  import opened Wrappers

  /** The atomic leaf values: null, booleans, numbers and strings. Floating
      point numbers are carried as exact reals; nothing here computes on them. */
  datatype Scalar = Null | Bool(b: bool) | Int(i: int) | Float(r: real) | Str(s: string)

  /** A mapping is an association list in insertion order, as the host
      language's dictionaries are; `Opaque` is any object that is neither a
      container nor a scalar. */
  datatype Value =
    | VMap(entries: seq<(string, Value)>)
    | VList(items: seq<Value>)
    | VScalar(scalar: Scalar)
    | Opaque

  type Entries = seq<(string, Value)>

  /** One step of a keypath: a mapping key or a list index. */
  datatype PathElem = Key(k: string) | Index(i: nat)

  type Path = seq<PathElem>

  function Keys(es: Entries): set<string> {
    set i | 0 <= i < |es| :: es[i].0
  }

  /** No key occurs twice: the association list is a dictionary. */
  predicate DistinctKeys(es: Entries) {
    forall i, j :: 0 <= i < j < |es| ==> es[i].0 != es[j].0
  }

  /** The position of `k` in `es`, the first one when keys repeat. */
  function IndexOf(es: Entries, k: string): (r: Option<nat>)
    ensures r.Some? ==> r.value < |es| && es[r.value].0 == k
    ensures r.Some? ==> forall j :: 0 <= j < r.value ==> es[j].0 != k
    ensures r.None? <==> k !in Keys(es)
  {
    if es == [] then None
    else if es[0].0 == k then Some(0)
    else
      match IndexOf(es[1..], k)
      case None =>
        assert forall i :: 1 <= i < |es| ==> es[i].0 == es[1..][i - 1].0;
        None
      case Some(i) => Some(i + 1)
  }

  /** Two association lists with the same keys in the same order agree on where
      every key is found. */
  lemma {:induction false} IndexOfSameKeys(a: Entries, b: Entries, k: string)
    requires |a| == |b|
    requires forall j :: 0 <= j < |a| ==> a[j].0 == b[j].0
    ensures IndexOf(a, k) == IndexOf(b, k)
  {
    if a != [] && a[0].0 != k {
      IndexOfSameKeys(a[1..], b[1..], k);
    }
  }

  /** Appending a key absent from `es` leaves every other key where it was. */
  lemma IndexOfAppend(es: Entries, k: string, v: Value, k': string)
    requires k !in Keys(es)
    ensures IndexOf(es + [(k, v)], k') == if k' == k then Some(|es|) else IndexOf(es, k')
  {
    var r := es + [(k, v)];
    assert Keys(r) == Keys(es) + {k} by {
      assert forall j :: 0 <= j < |es| ==> r[j] == es[j];
      assert r[|es|].0 == k;
    }
    match IndexOf(es, k') {
      case None =>
      case Some(i) => assert r[i].0 == k';
    }
  }

  /** Dictionary lookup on an association list. */
  function Find(es: Entries, k: string): (r: Option<Value>)
    ensures r.Some? <==> k in Keys(es)
    ensures r.Some? ==> exists i :: 0 <= i < |es| && es[i] == (k, r.value)
  {
    match IndexOf(es, k)
    case None => None
    case Some(i) => Some(es[i].1)
  }

  /** Every mapping inside `v`, at any depth, has distinct keys. */
  predicate WellFormed(v: Value) {
    match v
    case VMap(es) => DistinctKeys(es) && forall i :: 0 <= i < |es| ==> WellFormed(es[i].1)
    case VList(items) => forall i :: 0 <= i < |items| ==> WellFormed(items[i])
    case VScalar(_) => true
    case Opaque => true
  }

  /** `v` holds only mappings, lists and scalars: no opaque object anywhere. */
  predicate Supported(v: Value) {
    match v
    case VMap(es) => forall i :: 0 <= i < |es| ==> Supported(es[i].1)
    case VList(items) => forall i :: 0 <= i < |items| ==> Supported(items[i])
    case VScalar(_) => true
    case Opaque => false
  }

  /** The node that keypath `q` leads to from `v`, if any. */
  function At(v: Value, q: Path): Option<Value>
    decreases |q|
  {
    if q == [] then Some(v)
    else
      match q[0]
      case Key(k) =>
        if v.VMap? && Find(v.entries, k).Some? then At(Find(v.entries, k).value, q[1..]) else None
      case Index(i) =>
        if v.VList? && i < |v.items| then At(v.items[i], q[1..]) else None
  }
}
