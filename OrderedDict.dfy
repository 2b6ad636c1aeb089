/**
  A Python `dict` from strings to strings, which remembers insertion order: a table of
  values and the list of its keys in the order they were first assigned. Assigning to a
  key that is already present replaces its value and keeps its place; a new key goes at
  the end.
 */
module OrderedDict {

  datatype Option<T> = None | Some(value: T)

  datatype Dict = Dict(keys: seq<string>, values: map<string, string>)

  /** `{}`. */
  const Empty := Dict([], map[])

  predicate Distinct(ks: seq<string>) {
    forall i, j :: 0 <= i < j < |ks| ==> ks[i] != ks[j]
  }

  /** In a list without repeats, the first `n` elements are the first `n - 1` and one
      more that does not occur among them. */
  lemma DistinctLast(ks: seq<string>, n: nat)
    requires Distinct(ks) && 0 < n <= |ks|
    ensures ks[..n] == ks[..n - 1] + [ks[n - 1]]
    ensures ks[n - 1] !in ks[..n - 1]
  {
    assert ks[..n] == ks[..n - 1] + [ks[n - 1]];
    var before := ks[..n - 1];
    forall i | 0 <= i < |before| ensures before[i] != ks[n - 1] {
      assert before[i] == ks[i];
    }
  }

  /** Each key is listed once, and the listed keys are exactly those with a value. */
  ghost predicate Valid(d: Dict) {
    Distinct(d.keys) && forall k :: k in d.keys <==> k in d.values
  }

  /** Assigning the next key of a list without repeats to a dict holding the keys
      before it extends the dict's keys by that one key. */
  lemma PutNext(d: Dict, ks: seq<string>, n: nat, v: string)
    requires Distinct(ks) && 0 < n <= |ks|
    requires Valid(d) && d.keys == ks[..n - 1]
    ensures Valid(Put(d, ks[n - 1], v)) && Put(d, ks[n - 1], v).keys == ks[..n]
  {
    DistinctLast(ks, n);
  }

  /** `d.get(k)`: the value stored under `k`, if any. */
  function Get(d: Dict, k: string): (r: Option<string>)
    ensures Valid(d) ==> (r.None? <==> k !in d.keys)
  {
    if k in d.values then Some(d.values[k]) else None
  }

  /** `d[k] = v`: afterwards `k` holds `v` and every other key what it held before; the
      key order is unchanged, or `k` is appended when it is new, so assignment never
      duplicates a key. */
  function Put(d: Dict, k: string, v: string): (r: Dict)
    ensures Get(r, k) == Some(v)
    ensures forall k' :: k' != k ==> Get(r, k') == Get(d, k')
    ensures Valid(d) ==> Valid(r) && r.keys == if k in d.keys then d.keys else d.keys + [k]
  {
    Dict(if k in d.values then d.keys else d.keys + [k], d.values[k := v])
  }

  /** The entries in insertion order (`list(d.items())`). */
  function Items(d: Dict): (items: seq<(string, string)>)
    requires Valid(d)
    ensures |items| == |d.keys|
    ensures forall i :: 0 <= i < |items| ==> items[i].0 == d.keys[i] && Get(d, d.keys[i]) == Some(items[i].1)
  {
    seq(|d.keys|, i requires 0 <= i < |d.keys| => (d.keys[i], d.values[d.keys[i]]))
  }

  /** Assigning a new key adds one entry at the end and leaves the others as they were. */
  lemma PutItems(d: Dict, k: string, v: string)
    requires Valid(d) && k !in d.keys
    ensures Items(Put(d, k, v)) == Items(d) + [(k, v)]
  {
    var r := Put(d, k, v);
    forall i | 0 <= i < |d.keys| ensures Items(r)[i] == Items(d)[i] {
      assert d.keys[i] != k;
    }
  }

  /** Two assignments to the same key leave the same dict as the last one alone. */
  lemma PutPut(d: Dict, k: string, v1: string, v2: string)
    ensures Put(Put(d, k, v1), k, v2) == Put(d, k, v2)
  {
    assert d.values[k := v1][k := v2] == d.values[k := v2];
  }
}
