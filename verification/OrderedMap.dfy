/** Insertion-ordered maps as association lists: the shared shape of Python
    dicts, JavaScript objects and serde_json maps (which keep insertion order in
    this workspace). Writing to a present key keeps its position. */
module OrderedMap {
  datatype Entry<+K, +V> = Entry(key: K, value: V)

  predicate Distinct<K(==), V>(m: seq<Entry<K, V>>) {
    forall i, j :: 0 <= i < j < |m| ==> m[i].key != m[j].key
  }

  /** The position of a key, or the length if it is absent. */
  function IndexOf<K(==), V>(m: seq<Entry<K, V>>, k: K): (i: nat)
    ensures i <= |m| && (i < |m| ==> m[i].key == k)
    ensures forall j :: 0 <= j < i ==> m[j].key != k
  {
    if m == [] || m[0].key == k then 0 else 1 + IndexOf(m[1..], k)
  }

  function Put<K(==), V>(m: seq<Entry<K, V>>, k: K, v: V): seq<Entry<K, V>> {
    var i := IndexOf(m, k);
    if i < |m| then m[i := Entry(k, v)] else m + [Entry(k, v)]
  }

  /** Insert the pairs one after the other. */
  function PutAll<K(==), V>(m: seq<Entry<K, V>>, pairs: seq<Entry<K, V>>): seq<Entry<K, V>>
    decreases |pairs|
  {
    if pairs == [] then m
    else PutAll(Put(m, pairs[0].key, pairs[0].value), pairs[1..])
  }

  function Keys<K, V>(m: seq<Entry<K, V>>): seq<K> {
    seq(|m|, i requires 0 <= i < |m| => m[i].key)
  }

  /** The mapping a list of pairs denotes: of several pairs with one key, the
      last counts. */
  function ToMap<K, V>(m: seq<Entry<K, V>>): map<K, V> {
    if m == [] then map[]
    else ToMap(m[..|m| - 1])[m[|m| - 1].key := m[|m| - 1].value]
  }

  /** The keys of a list of pairs in order of first occurrence. */
  function FirstKeys<K(==), V>(m: seq<Entry<K, V>>): seq<K> {
    if m == [] then []
    else
      var ks := FirstKeys(m[..|m| - 1]);
      if m[|m| - 1].key in ks then ks else ks + [m[|m| - 1].key]
  }

  lemma {:induction false} ToMapConcat<K, V>(a: seq<Entry<K, V>>, b: seq<Entry<K, V>>)
    ensures ToMap(a + b) == ToMap(a) + ToMap(b)
  {
    if b == [] {
      assert a + b == a;
    } else {
      assert (a + b)[..|a + b| - 1] == a + b[..|b| - 1];
      ToMapConcat(a, b[..|b| - 1]);
    }
  }

  /** Pair `i` is the last one with its key. */
  ghost predicate LastAt<K, V>(m: seq<Entry<K, V>>, k: K, i: int) {
    0 <= i < |m| && m[i].key == k && forall j :: i < j < |m| ==> m[j].key != k
  }

  /** Which keys are present, and with whose value. */
  lemma {:induction false} ToMapLast<K, V>(m: seq<Entry<K, V>>)
    ensures forall i :: 0 <= i < |m| ==> m[i].key in ToMap(m)
    ensures forall k :: k in ToMap(m) ==> exists i :: LastAt(m, k, i) && m[i].value == ToMap(m)[k]
  {
    if m != [] {
      var n := |m| - 1;
      ToMapLast(m[..n]);
      assert forall i :: 0 <= i < n ==> m[..n][i] == m[i];
      forall k | k in ToMap(m) ensures exists i :: LastAt(m, k, i) && m[i].value == ToMap(m)[k] {
        if k == m[n].key {
          assert LastAt(m, k, n);
        } else {
          var i :| LastAt(m[..n], k, i) && m[..n][i].value == ToMap(m[..n])[k];
          assert LastAt(m, k, i);
        }
      }
    }
  }

  lemma Single<K, V>(e: Entry<K, V>)
    ensures ToMap([e]) == map[e.key := e.value]
  {
    assert [e][..0] == [];
  }

  lemma KeysAt<K, V>(m: seq<Entry<K, V>>, k: K)
    ensures k in Keys(m) <==> IndexOf(m, k) < |m|
  {
    if k in Keys(m) {
      var j :| 0 <= j < |m| && Keys(m)[j] == k;
    }
    if IndexOf(m, k) < |m| { assert Keys(m)[IndexOf(m, k)] == k; }
  }

  lemma PutKeys<K, V>(m: seq<Entry<K, V>>, k: K, v: V)
    ensures Keys(Put(m, k, v)) == if k in Keys(m) then Keys(m) else Keys(m) + [k]
    ensures Distinct(m) ==> Distinct(Put(m, k, v))
  {
    KeysAt(m, k);
  }

  lemma Override<K, V>(a: map<K, V>, t: map<K, V>, k: K, old': V, v: V)
    requires k !in t
    ensures (a + map[k := v]) + t == ((a + map[k := old']) + t)[k := v]
  {
  }

  lemma Absent<K, V>(m: seq<Entry<K, V>>, k: K)
    requires forall j :: 0 <= j < |m| ==> m[j].key != k
    ensures k !in ToMap(m)
  {
    ToMapLast(m);
  }

  lemma SplitAt<K, V>(a: seq<Entry<K, V>>, e: Entry<K, V>, t: seq<Entry<K, V>>)
    ensures ToMap((a + [e]) + t) == (ToMap(a) + map[e.key := e.value]) + ToMap(t)
  {
    ToMapConcat(a + [e], t);
    ToMapConcat(a, [e]);
    Single(e);
  }

  lemma PutMap<K, V>(m: seq<Entry<K, V>>, k: K, v: V)
    requires Distinct(m)
    ensures ToMap(Put(m, k, v)) == ToMap(m)[k := v]
  {
    var i, e := IndexOf(m, k), Entry(k, v);
    if i < |m| {
      var tail := m[i + 1..];
      assert m == (m[..i] + [m[i]]) + tail && Put(m, k, v) == (m[..i] + [e]) + tail;
      SplitAt(m[..i], m[i], tail);
      SplitAt(m[..i], e, tail);
      Absent(tail, k);
      Override(ToMap(m[..i]), ToMap(tail), k, m[i].value, v);
    } else {
      Snoc(m, e);
    }
  }

  lemma Snoc<K, V>(m: seq<Entry<K, V>>, e: Entry<K, V>)
    ensures ToMap(m + [e]) == ToMap(m)[e.key := e.value]
    ensures FirstKeys(m + [e]) == if e.key in FirstKeys(m) then FirstKeys(m) else FirstKeys(m) + [e.key]
  {
    assert (m + [e])[..|m|] == m;
  }

  lemma Shift<T>(done: seq<T>, xs: seq<T>)
    requires xs != []
    ensures (done + [xs[0]]) + xs[1..] == done + xs
  {
  }

  /** Inserting pairs one by one: the last value per key wins, and keys stand in
      order of first occurrence. */
  lemma {:induction false} PutAllSpec<K, V>(done: seq<Entry<K, V>>, pairs: seq<Entry<K, V>>, m: seq<Entry<K, V>>)
    requires Builds(m, done)
    ensures Builds(PutAll(m, pairs), done + pairs)
    decreases |pairs|
  {
    if pairs == [] {
      assert done + pairs == done;
    } else {
      var e, more := pairs[0], pairs[1..];
      BuildsStep(m, done, e);
      PutAllSpec(done + [e], more, Put(m, e.key, e.value));
      Shift(done, pairs);
    }
  }

  /** `m` is what inserting the pairs `done` gives. */
  ghost predicate Builds<K, V>(m: seq<Entry<K, V>>, done: seq<Entry<K, V>>) {
    Distinct(m) && ToMap(m) == ToMap(done) && Keys(m) == FirstKeys(done)
  }

  lemma BuildsStep<K, V>(m: seq<Entry<K, V>>, done: seq<Entry<K, V>>, e: Entry<K, V>)
    requires Builds(m, done)
    ensures Builds(Put(m, e.key, e.value), done + [e])
  {
    PutKeys(m, e.key, e.value);
    PutMap(m, e.key, e.value);
    Snoc(done, e);
  }

  lemma FromPairs<K, V>(pairs: seq<Entry<K, V>>)
    ensures Distinct(PutAll([], pairs))
    ensures ToMap(PutAll([], pairs)) == ToMap(pairs)
    ensures Keys(PutAll([], pairs)) == FirstKeys(pairs)
  {
    PutAllSpec([], pairs, []);
    assert [] + pairs == pairs;
  }

  lemma {:induction false} DistinctFirstKeys<K, V>(m: seq<Entry<K, V>>)
    requires Distinct(m)
    ensures FirstKeys(m) == Keys(m)
  {
    if m != [] {
      var n := |m| - 1;
      DistinctFirstKeys(m[..n]);
      assert m == m[..n] + [m[n]];
      assert Keys(m) == Keys(m[..n]) + [m[n].key];
    }
  }

  /** Two duplicate-free lists with the same keys in the same order and the same
      mapping are the same list. */
  lemma DistinctEqual<K, V>(a: seq<Entry<K, V>>, b: seq<Entry<K, V>>)
    requires Distinct(a) && Distinct(b) && Keys(a) == Keys(b) && ToMap(a) == ToMap(b)
    ensures a == b
  {
    assert |a| == |Keys(a)| == |b|;
    forall i | 0 <= i < |a| ensures a[i] == b[i] {
      assert Keys(a)[i] == a[i].key && Keys(b)[i] == b[i].key;
      AtKey(a, i);
      AtKey(b, i);
    }
  }

  lemma AtKey<K, V>(m: seq<Entry<K, V>>, i: nat)
    requires Distinct(m) && i < |m|
    ensures m[i].key in ToMap(m) && ToMap(m)[m[i].key] == m[i].value
  {
    ToMapLast(m);
  }

  /** Inserting a duplicate-free list into the empty map rebuilds it. */
  lemma FromDistinct<K, V>(pairs: seq<Entry<K, V>>)
    requires Distinct(pairs)
    ensures PutAll([], pairs) == pairs
  {
    FromPairs(pairs);
    DistinctFirstKeys(pairs);
    DistinctEqual(PutAll([], pairs), pairs);
  }
}
