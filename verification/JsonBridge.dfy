/** The Python <-> JSON bridge. Python values live in a heap (reference -> node),
    so they may share structure and form cycles; JSON values are trees. */
module JsonBridge {
  import opened Wrappers
  import opened OrderedMap

  const MAX_DEPTH: nat := 128
  const I64_MAX: int := 0x7fff_ffff_ffff_ffff
  const I64_MIN: int := -0x8000_0000_0000_0000
  const U64_MAX: int := 0xffff_ffff_ffff_ffff

  /** 64-bit floats, opaque except for finiteness. */
  datatype F64 = Finite(id: int) | NonFinite(id: int)

  type Ref = nat

  /** What a reference points to. A `str` with a lone surrogate has no UTF-8
      form and cannot be extracted. */
  datatype Node =
    | PyNone
    | PyBool(b: bool)
    | PyInt(n: int)
    | PyFloat(f: F64)
    | PyStr(s: string)
    | PySurrogates
    | PyBytes(bytes: seq<nat>)
    | PyList(items: seq<Ref>)
    | PyDict(pairs: seq<(Ref, Ref)>)
    | PyOther(typeName: string)

  type Heap = map<Ref, Node>

  function At(h: Heap, r: Ref): Node {
    if r in h then h[r] else PyOther("unallocated")
  }

  /** serde_json numbers: the unsigned and negative integers it can hold, and
      finite floats. */
  datatype Num = PosInt(u: nat) | NegInt(i: int) | Float(f: F64)

  datatype Json =
    | Null
    | Bool(b: bool)
    | Number(n: Num)
    | Str(s: string)
    | Arr(items: seq<Json>)
    | Obj(entries: seq<Entry<string, Json>>)

  datatype Error = ValueError | TypeError

  /** The base64 encoder and the u64 -> f64 rounding are library code. */
  datatype Libs = Libs(base64: seq<nat> -> string, round: nat -> int)

  function NumOfI64(n: int): Num {
    if n >= 0 then PosInt(n) else NegInt(n)
  }

  // ------------------------------------------------- py_to_serde, as a function

  /** The conversion of a node that is not a container. */
  function Leaf(libs: Libs, n: Node): Result<Json, Error>
    requires !n.PyList? && !n.PyDict?
  {
    match n
    case PyNone => Ok(Null)
    case PyBool(b) => Ok(Bool(b))
    case PyInt(i) =>
      if I64_MIN <= i <= I64_MAX then Ok(Number(NumOfI64(i)))
      else if 0 <= i <= U64_MAX then Ok(Number(PosInt(i)))
      else Err(ValueError)
    case PyFloat(f) => if f.Finite? then Ok(Number(Float(f))) else Err(ValueError)
    case PyStr(s) => Ok(Str(s))
    case PySurrogates => Err(ValueError)
    case PyBytes(bs) => Ok(Str(libs.base64(bs)))
    case PyOther(_) => Err(TypeError)
  }

  function Convert(libs: Libs, h: Heap, r: Ref, depth: nat): Result<Json, Error>
    decreases if depth > MAX_DEPTH then 0 else MAX_DEPTH + 1 - depth, 1, 0
  {
    if depth > MAX_DEPTH then Err(ValueError)
    else match At(h, r)
      case PyList(items) =>
        (match ConvertList(libs, h, items, depth + 1)
         case Err(e) => Err(e)
         case Ok(ts) => Ok(Arr(ts)))
      case PyDict(pairs) =>
        (match ConvertPairs(libs, h, pairs, depth + 1)
         case Err(e) => Err(e)
         case Ok(es) => Ok(Obj(PutAll([], es))))
      case leaf => Leaf(libs, leaf)
  }

  function ConvertList(libs: Libs, h: Heap, items: seq<Ref>, depth: nat): Result<seq<Json>, Error>
    decreases if depth > MAX_DEPTH then 0 else MAX_DEPTH + 1 - depth, 2, |items|
  {
    if items == [] then Ok([])
    else match Convert(libs, h, items[0], depth)
      case Err(e) => Err(e)
      case Ok(t) =>
        match ConvertList(libs, h, items[1..], depth)
        case Err(e) => Err(e)
        case Ok(ts) => Ok([t] + ts)
  }

  /** The key is looked at before the value. */
  function ConvertPairs(libs: Libs, h: Heap, pairs: seq<(Ref, Ref)>, depth: nat)
    : Result<seq<Entry<string, Json>>, Error>
    decreases if depth > MAX_DEPTH then 0 else MAX_DEPTH + 1 - depth, 2, |pairs|
  {
    if pairs == [] then Ok([])
    else if !At(h, pairs[0].0).PyStr? then Err(TypeError)
    else match Convert(libs, h, pairs[0].1, depth)
      case Err(e) => Err(e)
      case Ok(t) =>
        match ConvertPairs(libs, h, pairs[1..], depth)
        case Err(e) => Err(e)
        case Ok(es) => Ok([Entry(At(h, pairs[0].0).s, t)] + es)
  }

  // ------------------------------------------------ py_to_serde, as the program

  method PyToSerde(libs: Libs, h: Heap, val: Ref) returns (r: Result<Json, Error>)
    ensures r == Convert(libs, h, val, 0)
  {
    r := PyToSerdeInner(libs, h, val, 0);
  }

  method PyToSerdeInner(libs: Libs, h: Heap, val: Ref, depth: nat) returns (r: Result<Json, Error>)
    ensures r == Convert(libs, h, val, depth)
    decreases if depth > MAX_DEPTH then 0 else MAX_DEPTH + 1 - depth
  {
    if depth > MAX_DEPTH {
      return Err(ValueError);
    }
    var node := At(h, val);
    if node.PyList? {
      var arr := [];
      var i := 0;
      assert node.items[0..] == node.items;
      PrependNothing(ConvertList(libs, h, node.items, depth + 1));
      while i < |node.items|
        invariant 0 <= i <= |node.items|
        invariant ConvertList(libs, h, node.items, depth + 1)
               == Prepend(arr, ConvertList(libs, h, node.items[i..], depth + 1))
      {
        assert node.items[i..][1..] == node.items[i + 1..];
        var item := PyToSerdeInner(libs, h, node.items[i], depth + 1);
        if item.Err? {
          return Err(item.error);
        }
        PrependSnoc(arr, item.value, ConvertList(libs, h, node.items[i + 1..], depth + 1));
        arr := arr + [item.value];
        i := i + 1;
      }
      assert node.items[i..] == [] && arr + [] == arr;
      return Ok(Arr(arr));
    }
    if node.PyDict? {
      var map_ := [];
      var i := 0;
      ghost var done := [];
      assert node.pairs[0..] == node.pairs;
      PrependNothing(ConvertPairs(libs, h, node.pairs, depth + 1));
      while i < |node.pairs|
        invariant 0 <= i <= |node.pairs|
        invariant map_ == PutAll([], done)
        invariant ConvertPairs(libs, h, node.pairs, depth + 1)
               == Prepend(done, ConvertPairs(libs, h, node.pairs[i..], depth + 1))
      {
        assert node.pairs[i..][1..] == node.pairs[i + 1..];
        var key := At(h, node.pairs[i].0);
        if !key.PyStr? {
          return Err(TypeError);
        }
        var value := PyToSerdeInner(libs, h, node.pairs[i].1, depth + 1);
        if value.Err? {
          return Err(value.error);
        }
        PutAllSnoc([], done, Entry(key.s, value.value));
        PrependSnoc(done, Entry(key.s, value.value), ConvertPairs(libs, h, node.pairs[i + 1..], depth + 1));
        map_ := Put(map_, key.s, value.value);
        done := done + [Entry(key.s, value.value)];
        i := i + 1;
      }
      assert node.pairs[i..] == [] && done + [] == done;
      return Ok(Obj(map_));
    }
    r := Leaf(libs, node);
  }

  /** Add what a loop has collected to what is still to come. */
  function Prepend<T>(done: seq<T>, rest: Result<seq<T>, Error>): Result<seq<T>, Error> {
    match rest case Err(e) => Err(e) case Ok(ts) => Ok(done + ts)
  }

  lemma PrependSnoc<T>(done: seq<T>, x: T, rest: Result<seq<T>, Error>)
    ensures Prepend(done + [x], rest)
         == Prepend(done, match rest case Err(e) => Err(e) case Ok(ts) => Ok([x] + ts))
  {
    match rest
    case Err(_) =>
    case Ok(ts) => assert (done + [x]) + ts == done + ([x] + ts);
  }

  lemma PrependNothing<T>(rest: Result<seq<T>, Error>)
    ensures Prepend([], rest) == rest
  {
    if rest.Ok? { assert [] + rest.value == rest.value; }
  }

  lemma {:induction false} PutAllSnoc<K, V>(m: seq<Entry<K, V>>, ps: seq<Entry<K, V>>, e: Entry<K, V>)
    ensures PutAll(m, ps + [e]) == Put(PutAll(m, ps), e.key, e.value)
    decreases |ps|
  {
    if ps == [] {
      assert [] + [e] == [e] && [e][1..] == [];
    } else {
      assert (ps + [e])[0] == ps[0] && (ps + [e])[1..] == ps[1..] + [e];
      PutAllSnoc(Put(m, ps[0].key, ps[0].value), ps[1..], e);
    }
  }

  // --------------------------------------------------------- what it converts to

  /** `t` is the JSON tree one gets by following references from `r`. */
  predicate Unfolds(libs: Libs, h: Heap, r: Ref, t: Json)
    decreases t
  {
    match At(h, r)
    case PyList(items) =>
      t.Arr? && |t.items| == |items| && forall i :: 0 <= i < |items| ==> Unfolds(libs, h, items[i], t.items[i])
    case PyDict(pairs) =>
      && t.Obj? && |t.entries| == |pairs|
      && forall i :: 0 <= i < |pairs| ==>
           && At(h, pairs[i].0) == PyStr(t.entries[i].key)
           && Unfolds(libs, h, pairs[i].1, t.entries[i].value)
    case leaf => Leaf(libs, leaf) == Ok(t)
  }

  /** Container nesting: 0 for leaves and empty containers. */
  function Depth(t: Json): nat
    decreases t, 0
  {
    match t
    case Arr(items) => DepthList(items)
    case Obj(es) => DepthEntries(es)
    case _ => 0
  }

  function DepthList(ts: seq<Json>): nat
    decreases ts, 1
  {
    if ts == [] then 0 else Max(1 + Depth(ts[0]), DepthList(ts[1..]))
  }

  function DepthEntries(es: seq<Entry<string, Json>>): nat
    decreases es, 1
  {
    if es == [] then 0
    else
      assert (es decreases to es[0]);
      Max(1 + Depth(es[0].value), DepthEntries(es[1..]))
  }

  function Max(a: nat, b: nat): nat { if a < b then b else a }

  lemma {:induction false} DepthListBound(ts: seq<Json>, n: nat)
    ensures DepthList(ts) <= n <==> forall i :: 0 <= i < |ts| ==> 1 + Depth(ts[i]) <= n
  {
    if ts != [] {
      DepthListBound(ts[1..], n);
      assert forall i :: 0 < i < |ts| ==> ts[i] == ts[1..][i - 1];
    }
  }

  lemma {:induction false} DepthEntriesBound(es: seq<Entry<string, Json>>, n: nat)
    ensures DepthEntries(es) <= n <==> forall i :: 0 <= i < |es| ==> 1 + Depth(es[i].value) <= n
  {
    if es != [] {
      DepthEntriesBound(es[1..], n);
      assert forall i :: 0 < i < |es| ==> es[i] == es[1..][i - 1];
    }
  }

  /** A Python dict never holds two equal string keys. */
  predicate KeysDiffer(h: Heap, pairs: seq<(Ref, Ref)>) {
    forall i, j :: 0 <= i < j < |pairs| && At(h, pairs[i].0).PyStr? ==> At(h, pairs[i].0) != At(h, pairs[j].0)
  }

  predicate PythonHeap(h: Heap) {
    forall r :: r in h && h[r].PyDict? ==> KeysDiffer(h, h[r].pairs)
  }

  /** `py_to_serde` accepts exactly the references that unfold to a JSON tree
      nested at most 128 deep, and returns that tree. */
  lemma {:induction false} ConvertIffUnfolds(libs: Libs, h: Heap, r: Ref, depth: nat, t: Json)
    requires PythonHeap(h)
    ensures Convert(libs, h, r, depth) == Ok(t) <==> Unfolds(libs, h, r, t) && depth + Depth(t) <= MAX_DEPTH
    decreases if depth > MAX_DEPTH then 0 else MAX_DEPTH + 1 - depth, 1, 0
  {
    if depth <= MAX_DEPTH {
      match At(h, r)
      case PyList(items) =>
        if t.Arr? {
          ConvertListIff(libs, h, items, depth + 1, t.items);
          FitsBelow(t, depth);
        }
      case PyDict(pairs) =>
        if t.Obj? {
          ConvertPairsIff(libs, h, pairs, depth + 1, t.entries);
          ConvertPairsDistinct(libs, h, pairs, depth + 1);
          UnfoldedKeysDiffer(libs, h, pairs, t.entries);
          FitsBelow(t, depth);
        }
      case _ =>
        LeafFlat(libs, At(h, r));
    }
  }

  lemma FitsBelow(t: Json, depth: nat)
    requires depth <= MAX_DEPTH
    ensures t.Arr? ==> (depth + Depth(t) <= MAX_DEPTH <==>
              forall i :: 0 <= i < |t.items| ==> depth + 1 + Depth(t.items[i]) <= MAX_DEPTH)
    ensures t.Obj? ==> (depth + Depth(t) <= MAX_DEPTH <==>
              forall i :: 0 <= i < |t.entries| ==> depth + 1 + Depth(t.entries[i].value) <= MAX_DEPTH)
  {
    if t.Arr? { DepthListBound(t.items, MAX_DEPTH - depth); }
    if t.Obj? { DepthEntriesBound(t.entries, MAX_DEPTH - depth); }
  }

  lemma LeafFlat(libs: Libs, n: Node)
    requires !n.PyList? && !n.PyDict?
    ensures Leaf(libs, n).Ok? ==> Depth(Leaf(libs, n).value) == 0
  {
  }

  predicate UnfoldsList(libs: Libs, h: Heap, items: seq<Ref>, ts: seq<Json>) {
    |ts| == |items| && forall i :: 0 <= i < |items| ==> Unfolds(libs, h, items[i], ts[i])
  }

  predicate UnfoldsPairs(libs: Libs, h: Heap, pairs: seq<(Ref, Ref)>, es: seq<Entry<string, Json>>) {
    && |es| == |pairs|
    && forall i :: 0 <= i < |pairs| ==>
         At(h, pairs[i].0) == PyStr(es[i].key) && Unfolds(libs, h, pairs[i].1, es[i].value)
  }

  lemma {:induction false} ConvertListIff(libs: Libs, h: Heap, items: seq<Ref>, depth: nat, ts: seq<Json>)
    requires PythonHeap(h)
    ensures ConvertList(libs, h, items, depth) == Ok(ts) <==>
              UnfoldsList(libs, h, items, ts) && forall i :: 0 <= i < |ts| ==> depth + Depth(ts[i]) <= MAX_DEPTH
    decreases if depth > MAX_DEPTH then 0 else MAX_DEPTH + 1 - depth, 2, |items|
  {
    if items != [] {
      if ts != [] {
        ConvertIffUnfolds(libs, h, items[0], depth, ts[0]);
        ConvertListIff(libs, h, items[1..], depth, ts[1..]);
        assert ts == [ts[0]] + ts[1..];
        assert forall i :: 0 < i < |ts| ==> ts[i] == ts[1..][i - 1];
        assert forall i :: 0 < i < |items| ==> items[i] == items[1..][i - 1];
      }
    }
  }

  lemma {:induction false} ConvertPairsIff(libs: Libs, h: Heap, pairs: seq<(Ref, Ref)>, depth: nat,
                                           es: seq<Entry<string, Json>>)
    requires PythonHeap(h)
    ensures ConvertPairs(libs, h, pairs, depth) == Ok(es) <==>
              UnfoldsPairs(libs, h, pairs, es) && forall i :: 0 <= i < |es| ==> depth + Depth(es[i].value) <= MAX_DEPTH
    decreases if depth > MAX_DEPTH then 0 else MAX_DEPTH + 1 - depth, 2, |pairs|
  {
    if pairs != [] {
      if es != [] {
        ConvertIffUnfolds(libs, h, pairs[0].1, depth, es[0].value);
        ConvertPairsIff(libs, h, pairs[1..], depth, es[1..]);
        assert es == [es[0]] + es[1..];
        assert forall i :: 0 < i < |es| ==> es[i] == es[1..][i - 1];
        assert forall i :: 0 < i < |pairs| ==> pairs[i] == pairs[1..][i - 1];
      }
    }
  }

  lemma UnfoldedKeysDiffer(libs: Libs, h: Heap, pairs: seq<(Ref, Ref)>, es: seq<Entry<string, Json>>)
    requires KeysDiffer(h, pairs)
    ensures UnfoldsPairs(libs, h, pairs, es) ==> PutAll([], es) == es
  {
    if UnfoldsPairs(libs, h, pairs, es) { FromDistinct(es); }
  }

  /** The pairs collected from a Python dict have distinct keys, so inserting
      them into the JSON map loses none. */
  lemma ConvertPairsDistinct(libs: Libs, h: Heap, pairs: seq<(Ref, Ref)>, depth: nat)
    requires PythonHeap(h) && KeysDiffer(h, pairs)
    ensures ConvertPairs(libs, h, pairs, depth).Ok? ==>
              PutAll([], ConvertPairs(libs, h, pairs, depth).value) == ConvertPairs(libs, h, pairs, depth).value
    decreases if depth > MAX_DEPTH then 0 else MAX_DEPTH + 1 - depth, 3, |pairs|
  {
    if ConvertPairs(libs, h, pairs, depth).Ok? {
      var es := ConvertPairs(libs, h, pairs, depth).value;
      ConvertPairsIff(libs, h, pairs, depth, es);
      UnfoldedKeysDiffer(libs, h, pairs, es);
    }
  }
}
