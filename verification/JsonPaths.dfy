/** What `py_to_serde` accepts, said about the Python heap alone: every node
    reachable from the argument is convertible and no path to it is longer than
    the depth limit. In particular a reference cycle is never accepted. */
module JsonPaths {
  import opened Wrappers
  import opened JsonBridge

  predicate Child(h: Heap, a: Ref, b: Ref) {
    match At(h, a)
    case PyList(items) => b in items
    case PyDict(pairs) => exists i :: 0 <= i < |pairs| && pairs[i].1 == b
    case _ => false
  }

  /** A non-empty chain of containment. */
  predicate Path(h: Heap, p: seq<Ref>) {
    |p| > 0 && forall i :: 0 <= i < |p| - 1 ==> Child(h, p[i], p[i + 1])
  }

  /** A node that is not itself in the way: string keys only, a leaf that has a
      JSON form. */
  predicate NodeOk(h: Heap, n: Node) {
    match n
    case PyList(_) => true
    case PyDict(pairs) => forall i :: 0 <= i < |pairs| ==> At(h, pairs[i].0).PyStr?
    case PyInt(i) => I64_MIN <= i <= U64_MAX
    case PyFloat(f) => f.Finite?
    case PySurrogates => false
    case PyOther(_) => false
    case _ => true
  }

  ghost predicate Acceptable(h: Heap, r: Ref, depth: nat) {
    forall p :: Path(h, p) && p[0] == r ==> depth + |p| - 1 <= MAX_DEPTH && NodeOk(h, At(h, p[|p| - 1]))
  }

  lemma {:induction false} UnfoldsOnce(libs: Libs, h: Heap, r: Ref, t: Json, t': Json)
    requires Unfolds(libs, h, r, t) && Unfolds(libs, h, r, t')
    ensures t == t'
    decreases t
  {
    match At(h, r)
    case PyList(items) =>
      forall i | 0 <= i < |items| ensures t.items[i] == t'.items[i] {
        UnfoldsOnce(libs, h, items[i], t.items[i], t'.items[i]);
      }
    case PyDict(pairs) =>
      forall i | 0 <= i < |pairs| ensures t.entries[i] == t'.entries[i] {
        UnfoldsOnce(libs, h, pairs[i].1, t.entries[i].value, t'.entries[i].value);
      }
    case _ =>
  }

  /** Following one reference goes one level down in the unfolding. */
  lemma ChildUnfolds(libs: Libs, h: Heap, a: Ref, b: Ref, t: Json) returns (t': Json)
    requires Unfolds(libs, h, a, t) && Child(h, a, b)
    ensures Unfolds(libs, h, b, t') && 1 + Depth(t') <= Depth(t)
  {
    match At(h, a)
    case PyList(items) =>
      var i :| 0 <= i < |items| && items[i] == b;
      t' := t.items[i];
      DepthListBound(t.items, Depth(t));
    case PyDict(pairs) =>
      var i :| 0 <= i < |pairs| && pairs[i].1 == b;
      t' := t.entries[i].value;
      DepthEntriesBound(t.entries, Depth(t));
  }

  lemma {:induction false} PathUnfolds(libs: Libs, h: Heap, p: seq<Ref>, t: Json) returns (t': Json)
    requires Path(h, p) && Unfolds(libs, h, p[0], t)
    ensures Unfolds(libs, h, p[|p| - 1], t') && |p| - 1 + Depth(t') <= Depth(t)
    decreases |p|
  {
    if |p| == 1 {
      t' := t;
    } else {
      assert Child(h, p[0], p[1]);
      var mid := ChildUnfolds(libs, h, p[0], p[1], t);
      forall i | 0 <= i < |p[1..]| - 1 ensures Child(h, p[1..][i], p[1..][i + 1]) {
        assert Child(h, p[i + 1], p[i + 2]);
      }
      t' := PathUnfolds(libs, h, p[1..], mid);
    }
  }

  lemma UnfoldsNodeOk(libs: Libs, h: Heap, r: Ref, t: Json)
    requires Unfolds(libs, h, r, t)
    ensures NodeOk(h, At(h, r))
  {
  }

  lemma AcceptedIsAcceptable(libs: Libs, h: Heap, r: Ref, depth: nat)
    requires PythonHeap(h) && Convert(libs, h, r, depth).Ok?
    ensures Acceptable(h, r, depth)
  {
    var t := Convert(libs, h, r, depth).value;
    ConvertIffUnfolds(libs, h, r, depth, t);
    forall p | Path(h, p) && p[0] == r
      ensures depth + |p| - 1 <= MAX_DEPTH && NodeOk(h, At(h, p[|p| - 1]))
    {
      var t' := PathUnfolds(libs, h, p, t);
      UnfoldsNodeOk(libs, h, p[|p| - 1], t');
    }
  }

  lemma AcceptableChild(h: Heap, r: Ref, c: Ref, depth: nat)
    requires Acceptable(h, r, depth) && Child(h, r, c)
    ensures Acceptable(h, c, depth + 1)
  {
    forall p | Path(h, p) && p[0] == c
      ensures depth + 1 + |p| - 1 <= MAX_DEPTH && NodeOk(h, At(h, p[|p| - 1]))
    {
      var q := [r] + p;
      assert forall i :: 0 <= i < |q| - 1 ==> Child(h, q[i], q[i + 1]);
      assert Path(h, q) && q[0] == r && q[|q| - 1] == p[|p| - 1];
    }
  }

  lemma AcceptableChildren(h: Heap, r: Ref, depth: nat)
    requires Acceptable(h, r, depth)
    ensures At(h, r).PyList? ==> forall c :: c in At(h, r).items ==> Acceptable(h, c, depth + 1)
    ensures At(h, r).PyDict? ==>
              forall i :: 0 <= i < |At(h, r).pairs| ==> Acceptable(h, At(h, r).pairs[i].1, depth + 1)
  {
    forall c | Child(h, r, c) ensures Acceptable(h, c, depth + 1) { AcceptableChild(h, r, c, depth); }
    if At(h, r).PyList? {
      forall c | c in At(h, r).items ensures Acceptable(h, c, depth + 1) { assert Child(h, r, c); }
    } else if At(h, r).PyDict? {
      forall i | 0 <= i < |At(h, r).pairs| ensures Acceptable(h, At(h, r).pairs[i].1, depth + 1) {
        assert Child(h, r, At(h, r).pairs[i].1);
      }
    }
  }

  lemma {:induction false} AcceptableIsAccepted(libs: Libs, h: Heap, r: Ref, depth: nat)
    requires Acceptable(h, r, depth)
    ensures Convert(libs, h, r, depth).Ok?
    decreases if depth > MAX_DEPTH then 0 else MAX_DEPTH + 1 - depth, 1, 0
  {
    assert Path(h, [r]);
    assert depth <= MAX_DEPTH && NodeOk(h, At(h, r));
    match At(h, r)
    case PyList(items) =>
      AcceptableChildren(h, r, depth);
      AllItemsAccepted(libs, h, items, depth + 1);
    case PyDict(pairs) =>
      AcceptableChildren(h, r, depth);
      AllPairsAccepted(libs, h, pairs, depth + 1);
    case _ =>
  }

  lemma {:induction false} AllItemsAccepted(libs: Libs, h: Heap, items: seq<Ref>, depth: nat)
    requires forall c :: c in items ==> Acceptable(h, c, depth)
    ensures ConvertList(libs, h, items, depth).Ok?
    decreases if depth > MAX_DEPTH then 0 else MAX_DEPTH + 1 - depth, 2, |items|
  {
    if items != [] {
      AcceptableIsAccepted(libs, h, items[0], depth);
      AllItemsAccepted(libs, h, items[1..], depth);
    }
  }

  lemma {:induction false} AllPairsAccepted(libs: Libs, h: Heap, pairs: seq<(Ref, Ref)>, depth: nat)
    requires forall i :: 0 <= i < |pairs| ==> Acceptable(h, pairs[i].1, depth) && At(h, pairs[i].0).PyStr?
    ensures ConvertPairs(libs, h, pairs, depth).Ok?
    decreases if depth > MAX_DEPTH then 0 else MAX_DEPTH + 1 - depth, 2, |pairs|
  {
    if pairs != [] {
      AcceptableIsAccepted(libs, h, pairs[0].1, depth);
      AllPairsAccepted(libs, h, pairs[1..], depth);
    }
  }

  /** The argument is converted if and only if every reachable node is
      convertible and sits at most 128 references away. */
  lemma AcceptedIff(libs: Libs, h: Heap, r: Ref)
    requires PythonHeap(h)
    ensures Convert(libs, h, r, 0).Ok? <==> Acceptable(h, r, 0)
  {
    if Convert(libs, h, r, 0).Ok? { AcceptedIsAcceptable(libs, h, r, 0); }
    if Acceptable(h, r, 0) { AcceptableIsAccepted(libs, h, r, 0); }
  }

  /** A heap in which a cycle can be reached from the argument is never
      converted, however shallow everything else is. */
  lemma CycleRejected(libs: Libs, h: Heap, p: seq<Ref>, cycle: seq<Ref>)
    requires PythonHeap(h) && Path(h, p) && Path(h, cycle)
    requires |cycle| > 1 && cycle[0] == cycle[|cycle| - 1] == p[|p| - 1]
    ensures Convert(libs, h, p[0], 0).Err?
  {
    if Convert(libs, h, p[0], 0).Ok? {
      var t := Convert(libs, h, p[0], 0).value;
      ConvertIffUnfolds(libs, h, p[0], 0, t);
      var t1 := PathUnfolds(libs, h, p, t);
      var t2 := PathUnfolds(libs, h, cycle, t1);
      UnfoldsOnce(libs, h, cycle[0], t1, t2);
    }
  }
}
