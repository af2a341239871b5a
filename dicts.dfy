/**
 * Python dicts with string keys, as the ordered lists of their items.
 * Insertion order is observable in the source (`str(params)` builds the
 * cache key, and pandas numbers columns in order of first appearance),
 * so a dict is a sequence of pairs rather than a Dafny map.
 */
module Dicts {
  import opened Wrappers

  type Dict<V> = seq<(string, V)>

  function Keys<V>(d: Dict<V>): seq<string> {
    seq(|d|, i requires 0 <= i < |d| => d[i].0)
  }

  predicate HasKey<V>(d: Dict<V>, k: string) {
    k in Keys(d)
  }

  predicate NoDup(s: seq<string>) {
    forall i, j :: 0 <= i < j < |s| ==> s[i] != s[j]
  }

  /** No element of `a` occurs in `b`. */
  predicate Disjoint(a: seq<string>, b: seq<string>) {
    forall x :: x in a ==> x !in b
  }

  /** A concatenation repeats nothing exactly when neither part does and they share nothing. */
  lemma NoDupAppend(a: seq<string>, b: seq<string>)
    ensures NoDup(a + b) <==> NoDup(a) && NoDup(b) && Disjoint(a, b)
  {
    if NoDup(a + b) {
      forall i, j | 0 <= i < j < |a| ensures a[i] != a[j] {
        assert (a + b)[i] != (a + b)[j];
      }
      forall i, j | 0 <= i < j < |b| ensures b[i] != b[j] {
        assert (a + b)[|a| + i] != (a + b)[|a| + j];
      }
      forall x | x in a ensures x !in b {
        var i :| 0 <= i < |a| && a[i] == x;
        forall j | 0 <= j < |b| ensures b[j] != x {
          assert (a + b)[i] != (a + b)[|a| + j];
        }
      }
    }
    if NoDup(a) && NoDup(b) && Disjoint(a, b) {
      forall i, j | 0 <= i < j < |a + b| ensures (a + b)[i] != (a + b)[j] {
        if j < |a| {
          assert (a + b)[i] == a[i] && (a + b)[j] == a[j];
        } else if i >= |a| {
          assert (a + b)[i] == b[i - |a|] && (a + b)[j] == b[j - |a|];
        } else {
          assert (a + b)[i] == a[i] && (a + b)[j] == b[j - |a|];
          assert a[i] in a;
          assert b[j - |a|] in b;
        }
      }
    }
  }

  /** Every dict the source builds has pairwise distinct keys. */
  predicate DistinctKeys<V>(d: Dict<V>) {
    NoDup(Keys(d))
  }

  lemma KeysCons<V>(d: Dict<V>)
    requires d != []
    ensures Keys(d) == [d[0].0] + Keys(d[1..])
  {
  }

  /** Where `k` first occurs in `ks`. */
  function IndexOf(ks: seq<string>, k: string): (i: nat)
    requires k in ks
    ensures i < |ks| && ks[i] == k
    ensures forall j :: 0 <= j < i ==> ks[j] != k
  {
    if ks[0] == k then 0 else 1 + IndexOf(ks[1..], k)
  }

  /** Where a key first occurs in a concatenation: in the first part if it is there, else after it. */
  lemma {:induction false} IndexOfAppend(a: seq<string>, b: seq<string>, k: string)
    requires k in a || k in b
    ensures k in a ==> IndexOf(a + b, k) == IndexOf(a, k)
    ensures k !in a ==> IndexOf(a + b, k) == |a| + IndexOf(b, k)
    decreases |a|
  {
    if a == [] {
      assert a + b == b;
    } else {
      assert (a + b)[0] == a[0];
      if a[0] != k {
        assert (a + b)[1..] == a[1..] + b;
        IndexOfAppend(a[1..], b, k);
      }
    }
  }

  /** `d.get(k)`: the value stored under `k`, if `k` is a key. */
  function Get<V>(d: Dict<V>, k: string): (r: Option<V>)
    ensures r.Some? <==> HasKey(d, k)
    ensures r.Some? ==> (k, r.value) in d
  {
    if HasKey(d, k) then Some(d[IndexOf(Keys(d), k)].1) else None
  }

  lemma GetCons<V>(d: Dict<V>, k: string)
    requires d != []
    ensures Get(d, k) == if d[0].0 == k then Some(d[0].1) else Get(d[1..], k)
  {
    KeysCons(d);
    if d[0].0 != k && HasKey(d, k) {
      var i := IndexOf(Keys(d), k);
      var i' := IndexOf(Keys(d[1..]), k);
      assert Keys(d)[i' + 1] == k;
      assert i == i' + 1;
    }
  }

  /** In a dict with distinct keys, looking up the i-th key finds the i-th value. */
  lemma GetAt<V>(d: Dict<V>, i: nat)
    requires DistinctKeys(d) && i < |d|
    ensures Get(d, d[i].0) == Some(d[i].1)
  {
    assert Keys(d)[i] == d[i].0;
    var j := IndexOf(Keys(d), d[i].0);
    assert j == i;
  }

  /**
   * `d[k] = v`: the value of an existing key is replaced where it stands,
   * a new key is appended at the end.
   */
  function Put<V>(d: Dict<V>, k: string, v: V): (r: Dict<V>)
    ensures Get(r, k) == Some(v)
    ensures forall k' :: k' != k ==> Get(r, k') == Get(d, k')
    ensures Keys(r) == if HasKey(d, k) then Keys(d) else Keys(d) + [k]
    ensures DistinctKeys(d) ==> DistinctKeys(r)
  {
    if HasKey(d, k) then
      var r := d[IndexOf(Keys(d), k) := (k, v)];
      assert Keys(r) == Keys(d);
      r
    else
      var r := d + [(k, v)];
      assert Keys(r) == Keys(d) + [k];
      PutNewGet(d, k, v);
      r
  }

  lemma PutNewGet<V>(d: Dict<V>, k: string, v: V)
    requires !HasKey(d, k)
    ensures Keys(d + [(k, v)]) == Keys(d) + [k]
    ensures forall k' :: k' != k ==> Get(d + [(k, v)], k') == Get(d, k')
  {
    var r := d + [(k, v)];
    assert Keys(r) == Keys(d) + [k];
    forall k' | k' != k ensures Get(r, k') == Get(d, k') {
      if HasKey(d, k') {
        var i := IndexOf(Keys(d), k');
        assert Keys(r)[i] == k';
        assert IndexOf(Keys(r), k') == i;
      }
    }
  }

  /**
   * The keys of `ks` that are not in `seen`, each at its first
   * occurrence, in the order of `ks`: the keys that assigning `ks` in
   * turn adds to a dict whose keys are `seen`.
   */
  function NewKeys(seen: seq<string>, ks: seq<string>): seq<string>
    decreases |ks|
  {
    if ks == [] then []
    else if ks[0] in seen then NewKeys(seen, ks[1..])
    else [ks[0]] + NewKeys(seen + [ks[0]], ks[1..])
  }

  lemma {:induction false} NewKeysMembers(seen: seq<string>, ks: seq<string>)
    ensures forall k :: k in NewKeys(seen, ks) <==> k in ks && k !in seen
    ensures NoDup(NewKeys(seen, ks))
    decreases |ks|
  {
    if ks != [] {
      if ks[0] in seen {
        NewKeysMembers(seen, ks[1..]);
      } else {
        NewKeysMembers(seen + [ks[0]], ks[1..]);
        var rest := NewKeys(seen + [ks[0]], ks[1..]);
        assert ks[0] !in rest;
        assert NewKeys(seen, ks) == [ks[0]] + rest;
      }
    }
  }

  lemma IndexOfTail(ks: seq<string>, k: string)
    requires k in ks && ks[0] != k
    ensures k in ks[1..] && IndexOf(ks, k) == 1 + IndexOf(ks[1..], k)
  {
    assert ks == [ks[0]] + ks[1..];
  }

  /** Every element of `out` occurs in `ks`, and earlier in `out` means first occurring earlier in `ks`. */
  predicate InFirstOccurrenceOrder(out: seq<string>, ks: seq<string>) {
    && (forall k :: k in out ==> k in ks)
    && forall i, j :: 0 <= i < j < |out| && out[i] in ks && out[j] in ks ==>
         IndexOf(ks, out[i]) < IndexOf(ks, out[j])
  }

  /** Such an order goes both ways: earlier in `out` exactly when first occurring earlier in `ks`. */
  lemma OrderIff(out: seq<string>, ks: seq<string>)
    requires InFirstOccurrenceOrder(out, ks)
    ensures forall i, j :: 0 <= i < |out| && 0 <= j < |out| ==>
      out[i] in ks && out[j] in ks && (i < j <==> IndexOf(ks, out[i]) < IndexOf(ks, out[j]))
  {
    forall i, j | 0 <= i < |out| && 0 <= j < |out|
      ensures out[i] in ks && out[j] in ks && (i < j <==> IndexOf(ks, out[i]) < IndexOf(ks, out[j]))
    {
      assert out[i] in out && out[j] in out;
    }
  }

  /** The new keys come out in the order of their first occurrence in `ks`. */
  lemma {:induction false} NewKeysOrder(seen: seq<string>, ks: seq<string>)
    ensures InFirstOccurrenceOrder(NewKeys(seen, ks), ks)
    decreases |ks|
  {
    if ks != [] {
      if ks[0] in seen {
        NewKeysOrder(seen, ks[1..]);
        NewKeysMembers(seen, ks[1..]);
        OrderSkipsHead(ks, NewKeys(seen, ks[1..]));
      } else {
        var rest := NewKeys(seen + [ks[0]], ks[1..]);
        NewKeysOrder(seen + [ks[0]], ks[1..]);
        NewKeysMembers(seen + [ks[0]], ks[1..]);
        OrderSkipsHead(ks, rest);
        OrderWithHead(ks, rest);
      }
    }
  }

  /** An order on the tail of `ks` is an order on `ks` when the head is not involved. */
  lemma OrderSkipsHead(ks: seq<string>, out: seq<string>)
    requires ks != [] && ks[0] !in out
    requires InFirstOccurrenceOrder(out, ks[1..])
    ensures InFirstOccurrenceOrder(out, ks)
  {
    forall k | k in out ensures k in ks {
      assert k in ks[1..];
    }
    forall i, j | 0 <= i < j < |out| ensures IndexOf(ks, out[i]) < IndexOf(ks, out[j]) {
      assert out[i] in out && out[j] in out;
      IndexOfTail(ks, out[i]);
      IndexOfTail(ks, out[j]);
    }
  }

  /** The head of `ks` can be put in front of an order that does not contain it. */
  lemma OrderWithHead(ks: seq<string>, rest: seq<string>)
    requires ks != [] && ks[0] !in rest
    requires InFirstOccurrenceOrder(rest, ks)
    ensures InFirstOccurrenceOrder([ks[0]] + rest, ks)
  {
    var out := [ks[0]] + rest;
    forall i, j | 0 <= i < j < |out| ensures IndexOf(ks, out[i]) < IndexOf(ks, out[j]) {
      assert out[j] == rest[j - 1] && rest[j - 1] in rest;
      if i > 0 {
        assert out[i] == rest[i - 1] && rest[i - 1] in rest;
      } else {
        IndexOfTail(ks, out[j]);
      }
    }
  }

  /** Two orders side by side: the first on `ka`, the second on `kb` and disjoint from `ka`. */
  lemma OrderAppend(a: seq<string>, b: seq<string>, ka: seq<string>, kb: seq<string>)
    requires InFirstOccurrenceOrder(a, ka) && InFirstOccurrenceOrder(b, kb)
    requires forall k :: k in b ==> k !in ka
    ensures InFirstOccurrenceOrder(a + b, ka + kb)
  {
    var out := a + b;
    forall k | k in out ensures k in ka + kb {
      assert k in a || k in b;
    }
    forall i | 0 <= i < |out|
      ensures out[i] in ka + kb
      ensures i < |a| ==> IndexOf(ka + kb, out[i]) == IndexOf(ka, out[i])
      ensures i >= |a| ==> out[i] !in ka && IndexOf(ka + kb, out[i]) == |ka| + IndexOf(kb, out[i])
    {
      if i < |a| {
        assert out[i] == a[i] && a[i] in a;
      } else {
        assert out[i] == b[i - |a|] && b[i - |a|] in b;
      }
      IndexOfAppend(ka, kb, out[i]);
    }
    forall i, j | 0 <= i < j < |out| ensures IndexOf(ka + kb, out[i]) < IndexOf(ka + kb, out[j]) {
      if j < |a| {
        assert out[i] == a[i] && out[j] == a[j];
      } else if i >= |a| {
        assert out[i] == b[i - |a|] && out[j] == b[j - |a|];
      }
    }
  }

  /** Assigning keys that are all present already adds none. */
  lemma {:induction false} NewKeysOfSeen(seen: seq<string>, ks: seq<string>)
    requires forall k :: k in ks ==> k in seen
    ensures NewKeys(seen, ks) == []
    decreases |ks|
  {
    if ks != [] {
      NewKeysOfSeen(seen, ks[1..]);
    }
  }

  /** `d.update(other)`: the items of `other` are assigned in their order. */
  function Update<V>(d: Dict<V>, other: Dict<V>): Dict<V>
    decreases |other|
  {
    if other == [] then d else Update(Put(d, other[0].0, other[0].1), other[1..])
  }

  lemma DistinctTail<V>(d: Dict<V>)
    requires d != [] && DistinctKeys(d)
    ensures DistinctKeys(d[1..]) && !HasKey(d[1..], d[0].0)
  {
    KeysCons(d);
    forall a, b | 0 <= a < b < |d| - 1 ensures Keys(d[1..])[a] != Keys(d[1..])[b] {
      assert Keys(d)[a + 1] != Keys(d)[b + 1];
    }
    forall j | 0 <= j < |d| - 1 ensures Keys(d[1..])[j] != d[0].0 {
      assert Keys(d)[0] != Keys(d)[j + 1];
    }
  }

  /**
   * After `d.update(other)`, the keys of `other` carry other's values
   * and every other key keeps its value in `d`.
   */
  lemma {:induction false} UpdateGet<V>(d: Dict<V>, other: Dict<V>, k: string)
    requires DistinctKeys(other)
    ensures Get(Update(d, other), k) == if HasKey(other, k) then Get(other, k) else Get(d, k)
    decreases |other|
  {
    if other != [] {
      var d' := Put(d, other[0].0, other[0].1);
      DistinctTail(other);
      KeysCons(other);
      GetCons(other, k);
      UpdateGet(d', other[1..], k);
    }
  }

  /**
   * After `d.update(other)`, the keys are those of `d` in their old
   * places, followed by the keys new to `d` in the order `other` has them.
   */
  lemma {:induction false} UpdateKeys<V>(d: Dict<V>, other: Dict<V>)
    ensures Keys(Update(d, other)) == Keys(d) + NewKeys(Keys(d), Keys(other))
    decreases |other|
  {
    if other != [] {
      var k0 := other[0].0;
      var d' := Put(d, k0, other[0].1);
      assert Update(d, other) == Update(d', other[1..]);
      UpdateKeys(d', other[1..]);
      PutKeysStep(d, k0, other[0].1, Keys(other[1..]));
      KeysCons(other);
    }
  }

  lemma PutKeysStep<V>(d: Dict<V>, k: string, v: V, rest: seq<string>)
    ensures Keys(Put(d, k, v)) + NewKeys(Keys(Put(d, k, v)), rest)
         == Keys(d) + NewKeys(Keys(d), [k] + rest)
  {
    var ks := [k] + rest;
    assert ks[0] == k && ks[1..] == rest;
    if !HasKey(d, k) {
      assert NewKeys(Keys(d), ks) == [k] + NewKeys(Keys(d) + [k], rest);
    }
  }

  lemma {:induction false} UpdateDistinct<V>(d: Dict<V>, other: Dict<V>)
    requires DistinctKeys(d)
    ensures DistinctKeys(Update(d, other))
    decreases |other|
  {
    if other != [] {
      UpdateDistinct(Put(d, other[0].0, other[0].1), other[1..]);
    }
  }

  /** Two dicts with distinct keys are equal when they agree on key order and lookups. */
  lemma SameItems<V>(a: Dict<V>, b: Dict<V>)
    requires DistinctKeys(a) && DistinctKeys(b)
    requires Keys(a) == Keys(b)
    requires forall k :: Get(a, k) == Get(b, k)
    ensures a == b
  {
    forall i | 0 <= i < |a| ensures a[i] == b[i] {
      assert Keys(a)[i] == Keys(b)[i];
      GetAt(a, i);
      GetAt(b, i);
      assert Get(a, a[i].0) == Get(b, a[i].0);
    }
  }
}
