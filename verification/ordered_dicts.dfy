/**
  Python's built-in `dict`, as the model needs it: a sequence of key/value
  entries in insertion order. Assigning to an existing key keeps its position
  and replaces its value; assigning to a new key appends; deleting a key keeps
  the relative order of the remaining entries.
 */
module OrderedDicts {
  import opened Results

  type Dict<V> = seq<(string, V)>

  /** The keys of `d`, in insertion order. */
  function Keys<V>(d: Dict<V>): (ks: seq<string>)
    ensures |ks| == |d|
    ensures forall i :: 0 <= i < |d| ==> ks[i] == d[i].0
  {
    if |d| == 0 then [] else [d[0].0] + Keys(d[1..])
  }

  /** No key occurs twice; every dict built by Python satisfies this. */
  predicate Distinct(ks: seq<string>)
  {
    forall i, j :: 0 <= i < j < |ks| ==> ks[i] != ks[j]
  }

  /** Entries agreeing key by key have the same key sequence. */
  lemma KeysAgree<V, W>(a: Dict<V>, b: Dict<W>)
    requires |a| == |b|
    requires forall i :: 0 <= i < |a| ==> a[i].0 == b[i].0
    ensures Keys(a) == Keys(b)
  {
  }

  lemma KeysCons<V>(e: (string, V), d: Dict<V>)
    ensures Keys([e] + d) == [e.0] + Keys(d)
  {
    assert ([e] + d)[1..] == d;
  }

  lemma {:induction false} DistinctTail<V>(d: Dict<V>)
    requires |d| > 0
    requires Distinct(Keys(d))
    ensures Distinct(Keys(d[1..]))
    ensures d[0].0 !in Keys(d[1..])
  {
    var ks, tail := Keys(d), Keys(d[1..]);
    assert ks == [d[0].0] + tail;
    assert tail == ks[1..];
  }

  lemma {:induction false} DistinctInit<V>(d: Dict<V>)
    requires |d| > 0
    requires Distinct(Keys(d))
    ensures Distinct(Keys(d[..|d| - 1]))
    ensures d[|d| - 1].0 !in Keys(d[..|d| - 1])
  {
    var ks, init := Keys(d), Keys(d[..|d| - 1]);
    assert init == ks[..|d| - 1];
  }

  /** `d.get(k)`: the value stored under `k`, if any. */
  function Get<V>(d: Dict<V>, k: string): (r: Option<V>)
    ensures r.Some? <==> k in Keys(d)
  {
    if |d| == 0 then None
    else if d[0].0 == k then Some(d[0].1)
    else Get(d[1..], k)
  }

  /** In a dict with distinct keys, every entry is what a lookup of its key finds. */
  lemma {:induction false} GetEntry<V>(d: Dict<V>, i: int)
    requires Distinct(Keys(d))
    requires 0 <= i < |d|
    ensures Get(d, d[i].0) == Some(d[i].1)
  {
    if i > 0 {
      DistinctTail(d);
      assert Keys(d)[0] != Keys(d)[i];
      GetEntry(d[1..], i - 1);
    }
  }

  /** `d[k] = v`. */
  function Set<V>(d: Dict<V>, k: string, v: V): (r: Dict<V>)
    ensures Keys(r) == if k in Keys(d) then Keys(d) else Keys(d) + [k]
  {
    if |d| == 0 then [(k, v)]
    else if d[0].0 == k then
      KeysCons((k, v), d[1..]);
      [(k, v)] + d[1..]
    else
      var rest := Set(d[1..], k, v);
      KeysCons(d[0], rest);
      [d[0]] + rest
  }

  /** After `d[k] = v`, `k` holds `v` and every other key holds what it held. */
  lemma {:induction false} SetLookup<V>(d: Dict<V>, k: string, v: V)
    ensures Get(Set(d, k, v), k) == Some(v)
    ensures forall k' :: k' != k ==> Get(Set(d, k, v), k') == Get(d, k')
  {
    if |d| > 0 && d[0].0 != k {
      SetLookup(d[1..], k, v);
    }
  }

  /** Assigning to a new key appends exactly one entry. */
  lemma {:induction false} SetAbsentAppends<V>(d: Dict<V>, k: string, v: V)
    requires k !in Keys(d)
    ensures Set(d, k, v) == d + [(k, v)]
  {
    if |d| > 0 {
      var tail := d[1..];
      assert k != d[0].0 && k !in Keys(tail) by {
        assert Keys(d) == [d[0].0] + Keys(tail);
      }
      assert Set(d, k, v) == [d[0]] + Set(tail, k, v);
      SetAbsentAppends(tail, k, v);
      assert d + [(k, v)] == [d[0]] + (tail + [(k, v)]);
    }
  }

  lemma SetKeepsDistinct<V>(d: Dict<V>, k: string, v: V)
    requires Distinct(Keys(d))
    ensures Distinct(Keys(Set(d, k, v)))
  {
  }

  /** `del d[k]`, written for any sequence of entries: every entry under `k` goes. */
  function Remove<V>(d: Dict<V>, k: string): (r: Dict<V>)
    ensures k !in Keys(r)
    ensures forall k' :: k' in Keys(d) && k' != k ==> k' in Keys(r)
    ensures |r| <= |d|
  {
    if |d| == 0 then []
    else if d[0].0 == k then Remove(d[1..], k)
    else
      var rest := Remove(d[1..], k);
      KeysCons(d[0], rest);
      [d[0]] + rest
  }

  /** After `del d[k]`, `k` is absent and every other key holds what it held. */
  lemma {:induction false} RemoveLookup<V>(d: Dict<V>, k: string)
    ensures Get(Remove(d, k), k) == None
    ensures forall k' :: k' != k ==> Get(Remove(d, k), k') == Get(d, k')
  {
    if |d| > 0 {
      RemoveLookup(d[1..], k);
    }
  }

  /** Deleting an absent key changes nothing. */
  lemma {:induction false} RemoveAbsent<V>(d: Dict<V>, k: string)
    requires k !in Keys(d)
    ensures Remove(d, k) == d
  {
    if |d| > 0 {
      assert Keys(d)[0] == d[0].0;
      assert forall i :: 0 <= i < |d| - 1 ==> Keys(d[1..])[i] == Keys(d)[i + 1];
      RemoveAbsent(d[1..], k);
      assert d == [d[0]] + d[1..];
    }
  }

  /** Deleting a key of a dict with distinct keys removes exactly its entry and keeps the order of the rest. */
  lemma {:induction false} RemoveEntry<V>(d: Dict<V>, i: int)
    requires Distinct(Keys(d))
    requires 0 <= i < |d|
    ensures Remove(d, d[i].0) == d[..i] + d[i + 1..]
    decreases |d|, 1
  {
    var tail := d[1..];
    if i == 0 {
      assert d[0].0 !in Keys(tail) by { DistinctTail(d); }
      RemoveAbsent(tail, d[0].0);
    } else {
      RemoveEntryStep(d, i);
    }
  }

  lemma {:induction false} RemoveEntryStep<V>(d: Dict<V>, i: int)
    requires Distinct(Keys(d))
    requires 0 < i < |d|
    ensures Remove(d, d[i].0) == d[..i] + d[i + 1..]
    decreases |d|, 0
  {
    var tail := d[1..];
    assert Keys(d)[0] != Keys(d)[i];
    RemoveKeepsHead(d, d[i].0);
    DistinctTail(d);
    assert tail[i - 1] == d[i];
    RemoveEntry(tail, i - 1);
    SliceAroundTail(d, i);
  }

  lemma RemoveKeepsHead<V>(d: Dict<V>, k: string)
    requires |d| > 0 && d[0].0 != k
    ensures Remove(d, k) == [d[0]] + Remove(d[1..], k)
  {
  }

  lemma SliceAroundTail<X>(d: seq<X>, i: int)
    requires 0 < i < |d|
    ensures [d[0]] + (d[1..][..i - 1] + d[1..][i..]) == d[..i] + d[i + 1..]
  {
    assert d[..i] == [d[0]] + d[1..][..i - 1];
  }
}
