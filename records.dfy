/** Plain JavaScript objects used as records: an ordered list of
    (key, value) entries, in the order `Object.keys` reports them. Writing a
    key that exists keeps its position; writing a new key appends it. */
module Records {
  import opened Options

  type Entries<V> = seq<(string, V)>

  /** `Object.keys(o)` */
  function KeysOf<V>(e: Entries<V>): (ks: seq<string>)
    ensures |ks| == |e|
    ensures forall i :: 0 <= i < |e| ==> ks[i] == e[i].0
  {
    seq(|e|, i requires 0 <= i < |e| => e[i].0)
  }

  /** `k in o` for an own key. */
  predicate HasKey<V>(e: Entries<V>, k: string)
  {
    exists i :: 0 <= i < |e| && e[i].0 == k
  }

  /** No key occurs twice: every JavaScript object has this shape. */
  predicate DistinctKeys<V>(e: Entries<V>)
  {
    forall i, j :: 0 <= i < j < |e| ==> e[i].0 != e[j].0
  }

  /** Index of the first entry with key `k`, or `|e|` when there is none. */
  function IndexOfKey<V>(e: Entries<V>, k: string): (i: nat)
    ensures i <= |e|
    ensures forall j :: 0 <= j < i ==> e[j].0 != k
    ensures i < |e| ==> e[i].0 == k
  {
    if e == [] then 0 else if e[0].0 == k then 0 else 1 + IndexOfKey(e[1..], k)
  }

  /** The first-occurrence index is determined by the keys alone. */
  lemma IndexOfKeyUnique<V>(e: Entries<V>, k: string, i: nat)
    requires i <= |e|
    requires forall j :: 0 <= j < i ==> e[j].0 != k
    requires i < |e| ==> e[i].0 == k
    ensures IndexOfKey(e, k) == i
  {
  }

  /** `o[k]`, `None` standing for `undefined` on a missing key. */
  function Get<V>(e: Entries<V>, k: string): (r: Option<V>)
    ensures r.Some? <==> HasKey(e, k)
    ensures r.Some? ==> exists i :: 0 <= i < |e| && e[i] == (k, r.value)
  {
    var i := IndexOfKey(e, k);
    if i < |e| then Some(e[i].1) else None
  }

  /** With distinct keys, the entry at index `i` is what `Get` finds for its key. */
  lemma GetAt<V>(e: Entries<V>, i: nat)
    requires DistinctKeys(e) && i < |e|
    ensures Get(e, e[i].0) == Some(e[i].1)
  {
    IndexOfKeyUnique(e, e[i].0, i);
  }

  /** Looking a key up past a first entry with another key. */
  lemma GetTail<V>(e: Entries<V>, k: string)
    requires e != []
    ensures Get(e, k) == if e[0].0 == k then Some(e[0].1) else Get(e[1..], k)
  {
  }

  /** `o[k] = v`: the value is replaced in place, or a new entry is appended. */
  function Put<V>(e: Entries<V>, k: string, v: V): (r: Entries<V>)
    ensures KeysOf(r) == if HasKey(e, k) then KeysOf(e) else KeysOf(e) + [k]
    ensures Get(r, k) == Some(v)
    ensures forall k' :: k' != k ==> Get(r, k') == Get(e, k')
  {
    var i := IndexOfKey(e, k);
    var r := if i < |e| then e[i := (k, v)] else e + [(k, v)];
    assert |r| >= |e| && forall j :: 0 <= j < |e| && j != i ==> r[j] == e[j];
    IndexOfKeyUnique(r, k, i);
    forall k' | k' != k ensures Get(r, k') == Get(e, k') {
      var j := IndexOfKey(e, k');
      IndexOfKeyUnique(r, k', if j < |e| then j else |r|);
    }
    r
  }

  /** Whether a key occurs depends only on the key list. */
  lemma HasKeyViaKeys<V>(e: Entries<V>, k: string)
    ensures HasKey(e, k) <==> k in KeysOf(e)
  {
    if HasKey(e, k) { var i :| 0 <= i < |e| && e[i].0 == k; assert KeysOf(e)[i] == k; }
    if k in KeysOf(e) { var i :| 0 <= i < |KeysOf(e)| && KeysOf(e)[i] == k; assert e[i].0 == k; }
  }

  /** Keys listed without repetition. */
  predicate NoDuplicates(ks: seq<string>)
  {
    forall i, j :: 0 <= i < j < |ks| ==> ks[i] != ks[j]
  }

  lemma DistinctViaKeys<V>(e: Entries<V>)
    ensures DistinctKeys(e) <==> NoDuplicates(KeysOf(e))
  {
  }

  /** `delete o[k]`: the other entries keep their order. */
  function Remove<V>(e: Entries<V>, k: string): (r: Entries<V>)
    ensures !HasKey(r, k)
    ensures forall k' :: k' != k ==> Get(r, k') == Get(e, k')
    ensures |r| <= |e|
  {
    if e == [] then []
    else
      var rest := Remove(e[1..], k);
      var r := if e[0].0 == k then rest else [e[0]] + rest;
      forall k' | k' != k ensures Get(r, k') == Get(e, k') {
        GetTail(e, k');
        if e[0].0 != k { GetTail(r, k'); assert r[1..] == rest; }
      }
      r
  }

  /** `delete` works entry by entry: removing from a concatenation removes
      from each part, so the kept entries stay in their order. */
  lemma {:induction false} RemoveSplits<V>(a: Entries<V>, b: Entries<V>, k: string)
    ensures Remove(a + b, k) == Remove(a, k) + Remove(b, k)
  {
    if a != [] {
      RemoveSplits(a[1..], b, k);
      assert (a + b)[1..] == a[1..] + b;
    } else {
      assert a + b == b;
    }
  }

  /** A single entry is kept exactly when its key is not the removed one. */
  lemma RemoveSingle<V>(x: (string, V), k: string)
    ensures Remove([x], k) == if x.0 == k then [] else [x]
  {
  }
}
