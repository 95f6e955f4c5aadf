/** The collection helpers of frontend/src/utils/index.ts: `isEmpty`,
    `chunk`, `unique`, `groupBy`, `pick`, `omit` and `deepMerge`. Objects are
    ordered entry lists (module Records). */
module UtilsCollections {
  import opened Options
  import opened JsValues
  import opened Records

  /** `isEmpty(value)`: it holds for exactly five values: null, undefined,
      the empty string, the empty array and the key-less object; never for
      a number or a boolean. */
  function IsEmpty(v: JsValue): (r: bool)
    ensures r <==> v in {Null, Undefined, Str(""), Arr([]), Obj([])}
    ensures v.Num? || v.Bool? ==> !r
  {
    match v
    case Null => true
    case Undefined => true
    case Str(s) => |s| == 0
    case Arr(items) => |items| == 0
    case Obj(entries) => |entries| == 0
    case _ => false
  }

  // ---------------------------------------------------------------------
  // chunk

  /** The pieces `chunk` produces: consecutive slices of `size` elements,
      the last one possibly shorter. */
  function Chunks<T>(a: seq<T>, size: nat): seq<seq<T>>
    requires size > 0
    decreases |a|
  {
    if a == [] then []
    else if |a| <= size then [a]
    else [a[..size]] + Chunks(a[size..], size)
  }

  /** `chunk(array, size)`: `for (i = 0; i < length; i += size) push(slice(i, i + size))`.
      With `size <= 0` the source loop never ends on a non-empty array, so
      that case is excluded; on the empty array it returns `[]`. */
  method Chunk<T>(items: seq<T>, size: int) returns (chunks: seq<seq<T>>)
    requires size > 0 || items == []
    ensures size > 0 ==> chunks == Chunks(items, size)
    ensures items == [] ==> chunks == []
  {
    chunks := [];
    var i := 0;
    while i < |items|
      invariant 0 <= i && (size <= 0 ==> i == 0) && (i == 0 ==> chunks == [])
      invariant size > 0 ==> chunks + Chunks(if i <= |items| then items[i..] else [], size) == Chunks(items, size)
      decreases |items| - i
    {
      var rest := items[i..];
      var piece := if i + size <= |items| then items[i..i + size] else items[i..];
      ghost var next := if i + size <= |items| then items[i + size..] else [];
      if |rest| <= size {
        assert piece == rest;
        assert |next| == 0;
        assert Chunks(next, size) == [];
      } else {
        assert rest[..size] == piece;
        assert rest[size..] == next;
      }
      assert Chunks(rest, size) == [piece] + Chunks(next, size);
      Associative(chunks, [piece], Chunks(next, size));
      chunks := chunks + [piece];
      i := i + size;
    }
    if size > 0 {
      assert Chunks(if i <= |items| then items[i..] else [], size) == [];
    }
  }

  lemma Associative<T>(a: seq<T>, b: seq<T>, c: seq<T>)
    ensures a + b + c == a + (b + c)
  {
  }

  function Flatten<T>(pieces: seq<seq<T>>): seq<T>
  {
    if pieces == [] then [] else pieces[0] + Flatten(pieces[1..])
  }

  /** Concatenating the chunks gives back the input. */
  lemma {:induction false} ChunksFlatten<T>(a: seq<T>, size: nat)
    requires size > 0
    ensures Flatten(Chunks(a, size)) == a
    decreases |a|
  {
    if a != [] && |a| > size {
      ChunksFlatten(a[size..], size);
      assert Chunks(a, size)[1..] == Chunks(a[size..], size);
      assert a == a[..size] + a[size..];
    } else if a != [] {
      assert Flatten([a]) == a + Flatten([]);
    }
  }

  /** Every chunk but the last has `size` elements; the last has between 1
      and `size`. */
  lemma {:induction false} ChunksSizes<T>(a: seq<T>, size: nat)
    requires size > 0
    ensures var c := Chunks(a, size);
      (forall j :: 0 <= j < |c| - 1 ==> |c[j]| == size)
      && (c != [] ==> 0 < |c[|c| - 1]| <= size)
      && (c == [] <==> a == [])
    decreases |a|
  {
    if a != [] && |a| > size {
      ChunksSizes(a[size..], size);
      var c := Chunks(a, size);
      var tail := Chunks(a[size..], size);
      assert c == [a[..size]] + tail;
      assert forall j :: 1 <= j < |c| ==> c[j] == tail[j - 1];
    }
  }

  // ---------------------------------------------------------------------
  // unique

  predicate NoDups<T(==)>(s: seq<T>)
  {
    forall i, j :: 0 <= i < j < |s| ==> s[i] != s[j]
  }

  /** `[...new Set(array)]`: each element once, in order of first occurrence
      (a `Set` iterates in insertion order). */
  function Unique<T(==,!new)>(a: seq<T>): (r: seq<T>)
    ensures NoDups(r)
    ensures forall x :: x in r <==> x in a
    ensures |r| <= |a|
  {
    if a == [] then []
    else
      var u := Unique(a[..|a| - 1]);
      assert a == a[..|a| - 1] + [a[|a| - 1]];
      if a[|a| - 1] in u then u else u + [a[|a| - 1]]
  }

  /** The index of the first occurrence of `x`. */
  function FirstIndex<T(==)>(a: seq<T>, x: T): (i: nat)
    requires x in a
    ensures i < |a| && a[i] == x && x !in a[..i]
  {
    if a[0] == x then 0 else 1 + FirstIndex(a[1..], x)
  }

  /** A first occurrence inside a prefix is the first occurrence overall. */
  lemma FirstIndexPrefix<T>(a: seq<T>, n: nat, x: T)
    requires n <= |a| && x in a[..n]
    ensures FirstIndex(a[..n], x) == FirstIndex(a, x)
  {
    var i := FirstIndex(a[..n], x);
    assert a[..n][..i] == a[..i];
  }

  /** The elements come in the order of their first occurrence. */
  lemma {:induction false} UniqueKeepsFirstOrder<T(!new)>(a: seq<T>)
    ensures forall i, j :: 0 <= i < j < |Unique(a)| ==> FirstIndex(a, Unique(a)[i]) < FirstIndex(a, Unique(a)[j])
  {
    if a != [] {
      var n := |a| - 1;
      var p := a[..n];
      var u := Unique(p);
      UniqueKeepsFirstOrder(p);
      var r := Unique(a);
      forall i | 0 <= i < |u|
        ensures FirstIndex(a, u[i]) == FirstIndex(p, u[i]) < n
      {
        FirstIndexPrefix(a, n, u[i]);
      }
      forall i, j | 0 <= i < j < |u|
        ensures FirstIndex(a, u[i]) < FirstIndex(a, u[j])
      {
        assert FirstIndex(p, u[i]) < FirstIndex(p, u[j]);
      }
      if a[n] !in u {
        assert r == u + [a[n]];
        assert FirstIndex(a, a[n]) == n by {
          assert a[..n] == p;
        }
        forall i, j | 0 <= i < j < |r|
          ensures FirstIndex(a, r[i]) < FirstIndex(a, r[j])
        {
          if j < |u| {
            assert r[i] == u[i] && r[j] == u[j];
          } else {
            assert r[i] == u[i] && r[j] == a[n];
          }
        }
      } else {
        assert r == u;
      }
    }
  }

  // ---------------------------------------------------------------------
  // groupBy

  /** The key of every item, in order. */
  function KeysOfItems<T>(items: seq<T>, keyOf: T -> string): (ks: seq<string>)
    ensures |ks| == |items| && forall i :: 0 <= i < |items| ==> ks[i] == keyOf(items[i])
  {
    seq(|items|, i requires 0 <= i < |items| => keyOf(items[i]))
  }

  /** One step of the `reduce`: create the group when `!groups[key]`, then
      push the item. A group, once created, is an array and so truthy. */
  function AddToGroup<T>(groups: Entries<seq<T>>, key: string, item: T): Entries<seq<T>>
  {
    var group := match Get(groups, key) case Some(g) => g case None => [];
    Put(groups, key, group + [item])
  }

  /** Writing a key twice is writing it once with the second value. */
  lemma PutTwice<V>(e: Entries<V>, k: string, v1: V, v2: V)
    ensures Put(Put(e, k, v1), k, v2) == Put(e, k, v2)
  {
    var i := IndexOfKey(e, k);
    var e1 := if i < |e| then e[i := (k, v1)] else e + [(k, v1)];
    assert Put(e, k, v1) == e1;
    IndexOfKeyUnique(e1, k, i);
    if i < |e| {
      assert e1[i := (k, v2)] == e[i := (k, v2)];
    } else {
      assert e1[i := (k, v2)] == e + [(k, v2)];
    }
  }

  /** The object `groupBy` builds, item by item. */
  function Groups<T>(items: seq<T>, keyOf: T -> string): Entries<seq<T>>
  {
    if items == [] then []
    else AddToGroup(Groups(items[..|items| - 1], keyOf), keyOf(items[|items| - 1]), items[|items| - 1])
  }

  /** `if (!groups[key]) groups[key] = []; groups[key].push(item)` is one
      `AddToGroup` step. */
  lemma CreateThenPush<T>(groups: Entries<seq<T>>, key: string, item: T)
    ensures var g := if Get(groups, key).None? then Put(groups, key, []) else groups;
      Put(g, key, Get(g, key).value + [item]) == AddToGroup(groups, key, item)
  {
    if Get(groups, key).None? {
      var g := Put(groups, key, []);
      assert Get(g, key).value + [item] == [item];
      PutTwice(groups, key, [], [item]);
      assert AddToGroup(groups, key, item) == Put(groups, key, [item]);
    } else {
      assert AddToGroup(groups, key, item) == Put(groups, key, Get(groups, key).value + [item]);
    }
  }

  lemma GroupsStep<T>(items: seq<T>, keyOf: T -> string, i: nat)
    requires i < |items|
    ensures Groups(items[..i + 1], keyOf) == AddToGroup(Groups(items[..i], keyOf), keyOf(items[i]), items[i])
  {
    assert items[..i + 1][..i] == items[..i];
  }

  /** `groupBy(array, keySelector)` */
  method GroupBy<T>(items: seq<T>, keySelector: T -> string) returns (groups: Entries<seq<T>>)
    ensures groups == Groups(items, keySelector)
  {
    groups := [];
    var i := 0;
    while i < |items|
      invariant 0 <= i <= |items|
      invariant groups == Groups(items[..i], keySelector)
    {
      var item := items[i];
      var key := keySelector(item);
      ghost var before := groups;
      if Get(groups, key).None? {
        groups := Put(groups, key, []);
      }
      groups := Put(groups, key, Get(groups, key).value + [item]);
      CreateThenPush(before, key, item);
      assert groups == AddToGroup(before, key, item);
      GroupsStep(items, keySelector, i);
      i := i + 1;
      assert groups == Groups(items[..i], keySelector);
    }
    assert items[..|items|] == items;
  }

  /** The items whose key is `k`, in input order. */
  function ItemsWithKey<T>(items: seq<T>, keyOf: T -> string, k: string): seq<T>
  {
    if items == [] then []
    else
      var rest := ItemsWithKey(items[..|items| - 1], keyOf, k);
      if keyOf(items[|items| - 1]) == k then rest + [items[|items| - 1]] else rest
  }

  /** The group of each key holds exactly the items with that key, in input
      order; a key no item has has no group. */
  lemma {:induction false} GroupsAreFilters<T>(items: seq<T>, keyOf: T -> string, k: string)
    ensures var g := ItemsWithKey(items, keyOf, k);
      Get(Groups(items, keyOf), k) == if g == [] then None else Some(g)
  {
    if items != [] {
      GroupsAreFilters(items[..|items| - 1], keyOf, k);
    }
  }

  /** The groups appear in the order in which their keys first occur. */
  lemma {:induction false} GroupKeysInFirstOrder<T>(items: seq<T>, keyOf: T -> string)
    ensures KeysOf(Groups(items, keyOf)) == Unique(KeysOfItems(items, keyOf))
  {
    if items != [] {
      var n := |items| - 1;
      var p := items[..n];
      GroupKeysInFirstOrder(p, keyOf);
      var ks := KeysOfItems(items, keyOf);
      assert ks[..n] == KeysOfItems(p, keyOf);
      HasKeyViaKeys(Groups(p, keyOf), keyOf(items[n]));
    }
  }

  // ---------------------------------------------------------------------
  // pick and omit

  /** The object `pick` builds: each listed key that `obj` has, copied in
      list order. */
  function Picked(obj: Entries<JsValue>, keys: seq<string>): Entries<JsValue>
  {
    if keys == [] then [] else PickOne(obj, Picked(obj, keys[..|keys| - 1]), keys[|keys| - 1])
  }

  /** `if (key in obj) result[key] = obj[key]` */
  function PickOne(obj: Entries<JsValue>, result: Entries<JsValue>, key: string): Entries<JsValue>
  {
    match Get(obj, key)
    case Some(v) => Put(result, key, v)
    case None => result
  }

  /** The keys of the picked object: the listed keys the object has, in
      the order of their first listing. */
  function PickedKeys(obj: Entries<JsValue>, keys: seq<string>): seq<string>
  {
    if keys == [] then []
    else
      var p := PickedKeys(obj, keys[..|keys| - 1]);
      var k := keys[|keys| - 1];
      if HasKey(obj, k) && k !in p then p + [k] else p
  }

  /** The picked object lists its keys in the order `keys` first names
      them, keeping only those the object has. */
  lemma {:induction false} PickedKeyOrder(obj: Entries<JsValue>, keys: seq<string>)
    ensures KeysOf(Picked(obj, keys)) == PickedKeys(obj, keys)
  {
    if keys != [] {
      var p := keys[..|keys| - 1];
      var k := keys[|keys| - 1];
      PickedKeyOrder(obj, p);
      HasKeyViaKeys(Picked(obj, p), k);
    }
  }

  /** `pick(obj, keys)`: `keys.forEach(key => { if (key in obj) result[key] = obj[key] })`. */
  method Pick(obj: Entries<JsValue>, keys: seq<string>) returns (result: Entries<JsValue>)
    ensures result == Picked(obj, keys)
  {
    result := [];
    var i := 0;
    while i < |keys|
      invariant 0 <= i <= |keys|
      invariant result == Picked(obj, keys[..i])
    {
      var key := keys[i];
      assert keys[..i + 1][..i] == keys[..i];
      if HasKey(obj, key) {
        result := Put(result, key, Get(obj, key).value);
      }
      i := i + 1;
    }
    assert keys[..|keys|] == keys;
  }

  /** Copying one key `last` of `obj` into `r`, as seen through `k`. */
  lemma PickStep(obj: Entries<JsValue>, r: Entries<JsValue>, last: string, k: string)
    ensures Get(PickOne(obj, r, last), k) == if k == last && Get(obj, k).Some? then Get(obj, k) else Get(r, k)
  {
  }

  /** A picked key has its value in `obj`; any other key is absent. */
  lemma {:induction false} PickedGet(obj: Entries<JsValue>, keys: seq<string>, k: string)
    ensures Get(Picked(obj, keys), k) == if k in keys then Get(obj, k) else None
  {
    if keys != [] {
      var p := keys[..|keys| - 1];
      var last := keys[|keys| - 1];
      PickedGet(obj, p, k);
      assert keys == p + [last];
      assert (k in keys) == (k in p || k == last);
      PickStep(obj, Picked(obj, p), last, k);
    }
  }

  /** The object `omit` builds: a copy with the listed keys deleted in turn. */
  function Omitted(obj: Entries<JsValue>, keys: seq<string>): Entries<JsValue>
  {
    if keys == [] then obj else Remove(Omitted(obj, keys[..|keys| - 1]), keys[|keys| - 1])
  }

  /** `omit(obj, keys)`: `result = { ...obj }; keys.forEach(key => delete result[key])`. */
  method Omit(obj: Entries<JsValue>, keys: seq<string>) returns (result: Entries<JsValue>)
    ensures result == Omitted(obj, keys)
  {
    result := obj;
    var i := 0;
    while i < |keys|
      invariant 0 <= i <= |keys|
      invariant result == Omitted(obj, keys[..i])
    {
      assert keys[..i + 1][..i] == keys[..i];
      result := Remove(result, keys[i]);
      i := i + 1;
    }
    assert keys[..|keys|] == keys;
  }

  /** The entries of `obj` whose key is not listed, in their order. */
  function WithoutKeys(obj: Entries<JsValue>, keys: seq<string>): Entries<JsValue>
  {
    if obj == [] then []
    else if obj[0].0 in keys then WithoutKeys(obj[1..], keys)
    else [obj[0]] + WithoutKeys(obj[1..], keys)
  }

  lemma {:induction false} RemoveWithoutKeys(obj: Entries<JsValue>, keys: seq<string>, k: string)
    ensures Remove(WithoutKeys(obj, keys), k) == WithoutKeys(obj, keys + [k])
  {
    if obj != [] {
      RemoveWithoutKeys(obj[1..], keys, k);
    }
  }

  lemma {:induction false} WithoutNoKeys(obj: Entries<JsValue>)
    ensures WithoutKeys(obj, []) == obj
  {
    if obj != [] {
      WithoutNoKeys(obj[1..]);
    }
  }

  /** `omit` keeps exactly the entries whose key is not listed, in their
      original order. */
  lemma {:induction false} OmittedIsFilter(obj: Entries<JsValue>, keys: seq<string>)
    ensures Omitted(obj, keys) == WithoutKeys(obj, keys)
  {
    if keys == [] {
      WithoutNoKeys(obj);
    } else {
      var p := keys[..|keys| - 1];
      OmittedIsFilter(obj, p);
      RemoveWithoutKeys(obj, p, keys[|keys| - 1]);
      assert p + [keys[|keys| - 1]] == keys;
    }
  }

  /** An omitted key is absent; every other key keeps its value. */
  lemma {:induction false} OmittedGet(obj: Entries<JsValue>, keys: seq<string>, k: string)
    ensures Get(Omitted(obj, keys), k) == if k in keys then None else Get(obj, k)
  {
    if keys != [] {
      var p := keys[..|keys| - 1];
      OmittedGet(obj, p, k);
      assert keys == p + [keys[|keys| - 1]];
    }
  }

  // ---------------------------------------------------------------------
  // deepMerge

  /** `isObject(value)`: a non-null, non-array object. */
  predicate IsObject(v: JsValue)
  {
    v.Obj?
  }

  /** `target` after the first `n` entries of the object `source` have been
      merged into it, in order. */
  function MergeInto(target: Entries<JsValue>, source: JsValue, n: nat): Entries<JsValue>
    requires source.Obj? && n <= |source.entries|
    decreases source, n
  {
    if n == 0 then target
    else
      var r := MergeInto(target, source, n - 1);
      var (k, sv) := source.entries[n - 1];
      assert source.entries[n - 1] in source.entries;
      var current := Get(r, k);
      if IsObject(sv) && current.Some? && IsObject(current.value)
      then Put(r, k, Obj(MergeInto(current.value.entries, sv, |sv.entries|)))
      else Put(r, k, sv)
  }

  /** The object `deepMerge(target, source)` returns. */
  function Merged(target: Entries<JsValue>, source: Entries<JsValue>): Entries<JsValue>
  {
    MergeInto(target, Obj(source), |source|)
  }

  /** Merging one entry `(k, sv)` of the source into `r`. */
  function MergeEntry(r: Entries<JsValue>, k: string, sv: JsValue): Entries<JsValue>
  {
    var current := Get(r, k);
    if IsObject(sv) && current.Some? && IsObject(current.value)
    then Put(r, k, Obj(Merged(current.value.entries, sv.entries)))
    else Put(r, k, sv)
  }

  lemma MergeIntoStep(target: Entries<JsValue>, source: Entries<JsValue>, i: nat)
    requires i < |source|
    ensures MergeInto(target, Obj(source), i + 1)
         == MergeEntry(MergeInto(target, Obj(source), i), source[i].0, source[i].1)
  {
    var sv := source[i].1;
    if sv.Obj? {
      assert Obj(sv.entries) == sv;
    }
  }

  /** `deepMerge(target, source)`: a copy of `target`; for each key of
      `source`, two objects are merged recursively and anything else is
      overwritten by the source value. */
  method DeepMerge(target: Entries<JsValue>, source: Entries<JsValue>) returns (result: Entries<JsValue>)
    ensures result == Merged(target, source)
    decreases Obj(source)
  {
    result := target;
    var i := 0;
    while i < |source|
      invariant 0 <= i <= |source|
      invariant result == MergeInto(target, Obj(source), i)
    {
      var key, sourceValue := source[i].0, source[i].1;
      var targetValue := Get(result, key);
      MergeIntoStep(target, source, i);
      ghost var next := MergeEntry(result, key, sourceValue);
      assert source[i] in source;
      if IsObject(sourceValue) && targetValue.Some? && IsObject(targetValue.value) {
        var merged := DeepMerge(targetValue.value.entries, sourceValue.entries);
        result := Put(result, key, Obj(merged));
      } else {
        result := Put(result, key, sourceValue);
      }
      assert result == next;
      i := i + 1;
      assert result == MergeInto(target, Obj(source), i);
    }
  }

  /** What `deepMerge` stores under `k` when the source holds `sourceValue`
      there: the target's value when the source lacks `k`, the recursive
      merge when both values are objects, and the source value otherwise. */
  function Expected(target: Entries<JsValue>, sourceValue: Option<JsValue>, k: string): Option<JsValue>
  {
    match sourceValue
    case None => Get(target, k)
    case Some(sv) =>
      var tv := Get(target, k);
      if IsObject(sv) && tv.Some? && IsObject(tv.value)
      then Some(Obj(Merged(tv.value.entries, sv.entries)))
      else Some(sv)
  }

  /** For a source with distinct keys (every JavaScript object), each key
      of the merge holds what `Expected` describes. */
  lemma DeepMergeGet(target: Entries<JsValue>, source: Entries<JsValue>, k: string)
    requires DistinctKeys(source)
    ensures Get(Merged(target, source), k) == Expected(target, Get(source, k), k)
  {
    MergePrefixGet(target, source, |source|, k);
    assert source[..|source|] == source;
  }

  /** In a source with distinct keys, the key of an entry does not occur
      before it. */
  lemma KeyNotEarlier(source: Entries<JsValue>, n: nat)
    requires DistinctKeys(source) && 0 < n <= |source|
    ensures !HasKey(source[..n - 1], source[n - 1].0)
  {
    var p := source[..n - 1];
    forall j | 0 <= j < |p|
      ensures p[j].0 != source[n - 1].0
    {
      assert p[j] == source[j];
    }
  }

  /** Merging one entry changes only its key, to what `Expected` says
      given the value there before. */
  lemma MergeEntryGet(r: Entries<JsValue>, k': string, sv: JsValue, k: string)
    ensures Get(MergeEntry(r, k', sv), k) == if k' == k then Expected(r, Some(sv), k) else Get(r, k)
  {
  }

  /** Appending an entry with a new key extends the lookups by that key. */
  lemma PrefixGet(source: Entries<JsValue>, n: nat, k: string)
    requires 0 < n <= |source| && !HasKey(source[..n - 1], source[n - 1].0)
    ensures Get(source[..n], k) == if source[n - 1].0 == k then Some(source[n - 1].1) else Get(source[..n - 1], k)
  {
    var p := source[..n - 1];
    assert source[..n] == p + [source[n - 1]];
    assert source[..n] == Put(p, source[n - 1].0, source[n - 1].1);
  }

  /** One entry more of the source: the lookups of the merge follow. */
  lemma MergeStepGet(target: Entries<JsValue>, source: Entries<JsValue>, n: nat, k: string)
    requires 0 < n <= |source| && !HasKey(source[..n - 1], source[n - 1].0)
    requires Get(MergeInto(target, Obj(source), n - 1), k) == Expected(target, Get(source[..n - 1], k), k)
    ensures Get(MergeInto(target, Obj(source), n), k) == Expected(target, Get(source[..n], k), k)
  {
    var r := MergeInto(target, Obj(source), n - 1);
    var k', sv := source[n - 1].0, source[n - 1].1;
    MergeIntoStep(target, source, n - 1);
    MergeEntryGet(r, k', sv, k);
    PrefixGet(source, n, k);
    if k' == k {
      assert Get(r, k) == Get(target, k);
      ExpectedThroughGet(r, target, sv, k);
    }
  }

  /** `Expected` looks at the target only through the key. */
  lemma ExpectedThroughGet(r: Entries<JsValue>, target: Entries<JsValue>, sv: JsValue, k: string)
    requires Get(r, k) == Get(target, k)
    ensures Expected(r, Some(sv), k) == Expected(target, Some(sv), k)
  {
  }

  lemma {:induction false} MergePrefixGet(target: Entries<JsValue>, source: Entries<JsValue>, n: nat, k: string)
    requires DistinctKeys(source) && n <= |source|
    ensures Get(MergeInto(target, Obj(source), n), k) == Expected(target, Get(source[..n], k), k)
  {
    if n > 0 {
      var m: nat := n - 1;
      MergePrefixGet(target, source, m, k);
      assert Get(MergeInto(target, Obj(source), m), k) == Expected(target, Get(source[..m], k), k);
      KeyNotEarlier(source, n);
      MergeStepGet(target, source, n, k);
    } else {
      assert source[..n] == [];
    }
  }

  /** Merging an empty source returns the target unchanged. */
  lemma MergeNothing(target: Entries<JsValue>)
    ensures Merged(target, []) == target
  {
  }
}
