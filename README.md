# dbt data-shape utilities in Dafny

This project models four small utilities of dbt's `dbt.utils` module and proves
properties about them:

- `deep_merge`: merges nested configuration mappings from left to right. When
  both sides hold a mapping under the same key, the two are merged one level
  deeper. Any other later value replaces the earlier one.
- `deep_map_render`: walks a nested value and replaces every scalar leaf with
  `f(leaf, keypath)`. It fails with a configuration error on any object that is
  neither a mapping, a list nor a scalar.
- `MultiDict`: a read-only view over a list of dictionaries. The last dictionary
  that holds a key decides its value.
- `humanize_execution_time`: formats a duration as
  " in H hours M minutes and S.SS seconds".

The behaviour is reconstructed from what `test/unit/test_utils.py` asserts.
`dbt/utils.py` is not part of this model. Where the tests are silent, the model
makes these choices:
- a merge of no arguments is the empty mapping;
- under a key shared by two merged mappings, a later non-mapping value wins;
- two mappings under a shared key are merged recursively;
- a mapping replaces a non-mapping under a shared key, and the reverse;
- a key overwritten by a merge keeps its position;
- lists under a shared key are replaced, never concatenated;
- a lookup of a key no layer holds is a `KeyNotFound` error.

The `deep_merge` tests merge only mappings with pairwise disjoint keys, so the
rule for a shared key is the model's choice.

How the model represents things:
- Nested data is a `Value` datatype (`values.dfy`). A mapping is an association
  list in insertion order, as Python dictionaries are. `Opaque` stands for any
  unsupported object.
- Failure is a `Result` (`wrappers.dfy`).
- `MultiDict` is a class over a `seq<map<string, V>>`. `Contains` and `Length`
  scan the layers from first to last; `Get` scans from the last layer to the first.
- Durations are whole hundredths of a second.

Modules:
- `Wrappers`: `Option`, `Result` and the two error kinds.
- `Values`: the data model, dictionary lookup and keypath navigation.
- `Merge` and `MergeExamples`: `deep_merge`.
- `DeepMap` and `DeepMapExamples`: `deep_map_render`.
- `MultiDicts` and `MultiDictExamples`: `MultiDict`.
- `Humanize` and `HumanizeExamples`: `humanize_execution_time`.

## Model

| member | source | states |
|---|---|---|
| Merge.DeepMerge | test/unit/test_utils.py:19-24 | A key is in the merge of all arguments exactly when some argument holds it. |
| Merge.MergeIntoFind | test/unit/test_utils.py:19-24 | Merging a mapping with distinct keys over another: a key held by the later side takes the later value, merged recursively if both values are mappings; any other key keeps its earlier value or stays absent. |
| Merge.DeepMergeFind | test/unit/test_utils.py:19-24 | Every key of the left-to-right merge holds the value of an independent key-wise fold over the arguments. |
| Merge.DeepMergeDisjoint | test/unit/test_utils.py:9-24 | Arguments with pairwise disjoint keys: each key keeps the value of the one argument that holds it. |
| Merge.DeepMergeLastWins | test/unit/test_utils.py:19-24 | A non-mapping value in the last argument replaces whatever came before under that key. |
| Merge.DeepMergeSingle | test/unit/test_utils.py:19-24 | Merging one mapping gives that mapping back, keys and order unchanged. |
| Merge.DeepMergeWellFormed | test/unit/test_utils.py:19-24 | If every argument has distinct keys at every depth, so does the merge. |
| MergeExamples.SimpleCases | test/unit/test_utils.py:9-24 | `{}` then `{'a': 1}` gives `{'a': 1}`; `{}`, `{'b': 1}`, `{'a': 1}` gives both keys with value 1. |
| MergeExamples.NoArguments | test/unit/test_utils.py:20 | A merge of no arguments is the empty mapping. |
| MergeExamples.NestedMapsMerge | test/unit/test_utils.py:20 | Two mappings under the same key are merged, not replaced. |
| MergeExamples.ListsReplaced | test/unit/test_utils.py:20 | A list under a shared key is replaced by the later list. |
| DeepMap.Render | test/unit/test_utils.py:90-91 | Rendering succeeds exactly when the value holds no unsupported object; the only failure is a configuration error. |
| DeepMap.DeepMapRender | test/unit/test_utils.py:90-91 | Rendering from the root succeeds exactly when the value holds no unsupported object. |
| DeepMap.RenderItemsAt | test/unit/test_utils.py:52 | A rendered list has the same length, and each element is its source element rendered at the keypath extended by its index. |
| DeepMap.RenderEntriesAt | test/unit/test_utils.py:49-64 | A rendered mapping has the same keys in the same order, and each value is its source value rendered at the keypath extended by its key. |
| DeepMap.RenderPreservesShape | test/unit/test_utils.py:73-91 | Rendering keeps the container shape: the same mappings with the same keys in the same order, and lists of the same length. |
| DeepMap.RenderAt | test/unit/test_utils.py:97-123 | Every keypath leads to a node in the output exactly when it leads to one in the input, and the output node is the input node rendered at that keypath. |
| DeepMap.RenderLeaf | test/unit/test_utils.py:97-102 | A scalar leaf at keypath q comes out as `f(leaf, q)`. |
| DeepMap.RenderIdentity | test/unit/test_utils.py:128-130 | A callback that passes every leaf under a keypath through leaves that subtree unchanged. |
| DeepMap.RenderNoop | test/unit/test_utils.py:128-136 | The identity callback returns any supported value unchanged. |
| DeepMap.RenderIdempotent | test/unit/test_utils.py:93-94 | With a callback idempotent on its own outputs, rendering the output again reproduces it. |
| DeepMapExamples.SpecialKeypathCase | test/unit/test_utils.py:104-123 | The keypath-targeted callback changes only the leaf at foo.baz[1]. |
| DeepMapExamples.SpecialKeypathStable | test/unit/test_utils.py:125-126 | Rendering that expected output again with the same callback reproduces it. |
| DeepMapExamples.IdentityMixed | test/unit/test_utils.py:128-130 | The identity callback returns the nested test input unchanged. |
| DeepMapExamples.TrivialCases | test/unit/test_utils.py:132-136 | The identity callback returns `[]`, `{}`, `1`, `'abc'`, `None` and `True` unchanged. |
| DeepMapExamples.UnsupportedFails | test/unit/test_utils.py:138-139 | `{'foo': object()}` fails with a configuration error and no result. |
| MultiDicts.KeyUnion | test/unit/test_utils.py:146 | A key belongs to the view's key set exactly when some layer holds it. |
| MultiDicts.LookupLast | test/unit/test_utils.py:149-151 | A key no layer holds gives `KeyNotFound`. Otherwise the value comes from a layer that holds the key, and no later layer holds it. |
| MultiDicts.MultiDict.constructor | test/unit/test_utils.py:145 | The view keeps the given layers, in order. |
| MultiDicts.MultiDict.Contains | test/unit/test_utils.py:147-148 | `key in md` holds exactly when some layer holds the key. |
| MultiDicts.MultiDict.Get | test/unit/test_utils.py:149-151 | The reverse scan returns the last-layer-wins lookup, or `KeyNotFound`. |
| MultiDicts.MultiDict.Length | test/unit/test_utils.py:146 | `len(md)` is the number of distinct keys over all layers. |
| MultiDicts.DisjointLength | test/unit/test_utils.py:153-157 | Layers with pairwise disjoint keys: the length is the sum of the layers' sizes. |
| MultiDicts.LengthBounds | test/unit/test_utils.py:167-171 | The length is at most the sum of the layers' sizes and at least the size of any one layer. |
| MultiDicts.ViewIsFlatten | test/unit/test_utils.py:167-178 | The view has the keys and values of the right-biased union of its layers. |
| MultiDicts.SingleLayer | test/unit/test_utils.py:143-151 | A view over one dictionary has that dictionary's keys and values. |
| MultiDictExamples.OneMember | test/unit/test_utils.py:143-151 | One layer `{a: 1, b: 2, c: 3}`: three keys, `a`, `b` and `c` are all in the view, and they read 1, 2 and 3. |
| MultiDictExamples.TwoMembersNoOverlap | test/unit/test_utils.py:153-165 | Two disjoint layers: six keys, `a` to `f` are all in the view, and each reads its value from its own layer (1, 2, 3, 1, 2, 3). |
| MultiDictExamples.TwoMembersOverlap | test/unit/test_utils.py:167-178 | Layers sharing `c`: five keys, `a` to `e` are all in the view; `c` reads 1 from the second layer, and `a`, `b`, `d`, `e` read 1, 2, 2, 3. |
| Humanize.HumanizeExecutionTime | test/unit/test_utils.py:180-197 | The phrase is " in H hours M minutes and S.SS seconds" with H the whole hours, M the minutes left within the hour and S the seconds left within the minute, each computed directly from the total. |
| Humanize.SplitDuration | test/unit/test_utils.py:183-185 | The split has minutes under 60 and seconds under 60, and it adds back up to the duration. |
| Humanize.SplitUnique | test/unit/test_utils.py:183-185 | A split with minutes and seconds under 60 is the only split of its total. |
| Humanize.ValueOfDecimal | test/unit/test_utils.py:183-185 | Each numeral is made of digits and reads back as the number it was written from. |
| Humanize.FractionValue | test/unit/test_utils.py:187-191 | The two digits after the point spell the hundredths left after the whole seconds. |
| Humanize.SecondsValue | test/unit/test_utils.py:187-191 | The seconds field reads back as the hundredths left after the whole minutes. |
| Humanize.PhraseValues | test/unit/test_utils.py:183-185 | The numbers of hours, minutes and seconds in the phrase, read back, give the duration. |
| HumanizeExamples.WholeSeconds | test/unit/test_utils.py:181-185 | 9460 seconds reads " in 2 hours 37 minutes and 40.00 seconds". |
| HumanizeExamples.TwoPlaces | test/unit/test_utils.py:187-191 | 0.32 seconds reads " in 0 hours 0 minutes and 0.32 seconds". |
| HumanizeExamples.FourPlacesRounded | test/unit/test_utils.py:193-197 | 0.33 seconds, the rounded value of 0.3254, reads " in 0 hours 0 minutes and 0.33 seconds". |

## Left out

- `dbt/utils.py` is not part of this model. The tests pin down only merges of mappings with disjoint keys; the rule for a shared key, the empty merge and the missing-key lookup are the model's choices listed above.
- `deep_merge` copying its inputs, and aliasing between input and result: the model works on values, so there is no sharing to observe.
- Cycle detection: Dafny datatypes are finite, so a cyclic structure cannot be built.
- `intify_all` (test/unit/test_utils.py:67-71) depends on Python's `int()` of floats and strings. The callback is an abstract function parameter. Its outputs appear only through the general idempotence lemma, not through a concrete `int()`.
- Callbacks return scalars only. A Python callback could return a container in place of a leaf.
- `datetime` and other non-JSON scalars are not modelled. Any object that is not a mapping, list or scalar is `Opaque`.
- Mapping keys are strings. Python allows any hashable key.
- `MultiDict`: the view is read-only; mutating a layer after construction is not modelled. Key iteration is modelled only through the key set `KeyUnion`.
- Humanize.HumanizeExecutionTime: takes whole hundredths of a second, not a float. Rounding a float to two places is not modelled, and neither is rounding that would carry into the minutes.
- HumanizeExamples.FourPlacesRounded: states the phrase for 33 hundredths. The rounding of 0.3254 to 0.33 is not modelled.
- Reading the whole phrase back from its characters is not proved. Each number in it is shown to read back on its own (Humanize.PhraseValues).
