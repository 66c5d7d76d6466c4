/** The inverse conversion, which allocates a Python object tree in place, and
    the two round trips. */
module JsonRoundTrip {
  import opened Wrappers
  import opened OrderedMap
  import opened JsonBridge

  // ------------------------------------------------------------- serde_to_py

  /** The Python number a JSON number becomes: an `int` when it fits an i64, and
      a float otherwise. */
  function NumToPy(libs: Libs, n: Num): Node {
    match n
    case PosInt(u) => if u <= I64_MAX then PyInt(u) else PyFloat(Finite(libs.round(u)))
    case NegInt(i) => PyInt(i)
    case Float(f) => PyFloat(f)
  }

  /** Reference `r`, using only cells from `lo` on, holds a fresh object tree for
      `v`. */
  predicate Holds(libs: Libs, h: Heap, lo: nat, r: Ref, v: Json)
    decreases v
  {
    && r in h && lo <= r
    && match v
       case Null => h[r] == PyNone
       case Bool(b) => h[r] == PyBool(b)
       case Number(n) => h[r] == NumToPy(libs, n)
       case Str(s) => h[r] == PyStr(s)
       case Arr(items) =>
         h[r].PyList? && |h[r].items| == |items|
         && forall i :: 0 <= i < |items| ==> Holds(libs, h, lo, h[r].items[i], items[i])
       case Obj(es) =>
         h[r].PyDict? && |h[r].pairs| == |es|
         && forall i :: 0 <= i < |es| ==>
              && h[r].pairs[i].0 in h && lo <= h[r].pairs[i].0
              && h[h[r].pairs[i].0] == PyStr(es[i].key)
              && Holds(libs, h, lo, h[r].pairs[i].1, es[i].value)
  }

  /** Cells from `lo` on are the same in `h'`. */
  predicate Extends(h: Heap, h': Heap, lo: nat) {
    forall x :: x in h && lo <= x ==> x in h' && h'[x] == h[x]
  }

  lemma {:induction false} HoldsFrame(libs: Libs, h: Heap, h': Heap, lo: nat, lo': nat, r: Ref, v: Json)
    requires Holds(libs, h, lo, r, v) && Extends(h, h', lo) && lo' <= lo
    ensures Holds(libs, h', lo', r, v)
    decreases v
  {
    match v
    case Arr(items) =>
      forall i | 0 <= i < |items| ensures Holds(libs, h', lo', h[r].items[i], items[i]) {
        HoldsFrame(libs, h, h', lo, lo', h[r].items[i], items[i]);
      }
    case Obj(es) =>
      forall i | 0 <= i < |es| ensures Holds(libs, h', lo', h[r].pairs[i].1, es[i].value) {
        HoldsFrame(libs, h, h', lo, lo', h[r].pairs[i].1, es[i].value);
      }
    case _ =>
  }

  predicate HoldsPair(libs: Libs, h: Heap, lo: nat, p: (Ref, Ref), e: Entry<string, Json>) {
    p.0 in h && lo <= p.0 && h[p.0] == PyStr(e.key) && Holds(libs, h, lo, p.1, e.value)
  }

  /** The list at `r` holds the first items of `items`, built above `r`. */
  predicate ListSoFar(libs: Libs, h: Heap, r: Ref, items: seq<Json>, i: nat) {
    && i <= |items| && r in h && h[r].PyList? && |h[r].items| == i
    && forall k :: 0 <= k < i ==> Holds(libs, h, r + 1, h[r].items[k], items[k])
  }

  predicate DictSoFar(libs: Libs, h: Heap, r: Ref, es: seq<Entry<string, Json>>, i: nat) {
    && i <= |es| && r in h && h[r].PyDict? && |h[r].pairs| == i
    && forall k :: 0 <= k < i ==> HoldsPair(libs, h, r + 1, h[r].pairs[k], es[k])
  }

  lemma ListAppend(libs: Libs, h: Heap, mid: Heap, r: Ref, item: Ref, items: seq<Json>, i: nat)
    requires ListSoFar(libs, h, r, items, i) && i < |items|
    requires Extends(h, mid, 0) && Holds(libs, mid, r + 1, item, items[i])
    ensures ListSoFar(libs, mid[r := PyList(mid[r].items + [item])], r, items, i + 1)
  {
    var h' := mid[r := PyList(mid[r].items + [item])];
    forall k | 0 <= k < i + 1 ensures Holds(libs, h', r + 1, h'[r].items[k], items[k]) {
      if k < i { HoldsFrame(libs, h, h', r + 1, r + 1, h[r].items[k], items[k]); }
      else { HoldsFrame(libs, mid, h', r + 1, r + 1, item, items[i]); }
    }
  }

  lemma DictAppend(libs: Libs, h: Heap, mid: Heap, r: Ref, p: (Ref, Ref), es: seq<Entry<string, Json>>, i: nat)
    requires DictSoFar(libs, h, r, es, i) && i < |es|
    requires Extends(h, mid, 0) && HoldsPair(libs, mid, r + 1, p, es[i])
    ensures DictSoFar(libs, mid[r := PyDict(mid[r].pairs + [p])], r, es, i + 1)
  {
    var h' := mid[r := PyDict(mid[r].pairs + [p])];
    forall k | 0 <= k < i + 1 ensures HoldsPair(libs, h', r + 1, h'[r].pairs[k], es[k]) {
      if k < i { HoldsFrame(libs, h, h', r + 1, r + 1, h[r].pairs[k].1, es[k].value); }
      else { HoldsFrame(libs, mid, h', r + 1, r + 1, p.1, es[i].value); }
    }
  }

  lemma ListDone(libs: Libs, h: Heap, r: Ref, items: seq<Json>)
    requires ListSoFar(libs, h, r, items, |items|)
    ensures Holds(libs, h, r, r, Arr(items))
  {
    forall k | 0 <= k < |items| ensures Holds(libs, h, r, h[r].items[k], items[k]) {
      HoldsFrame(libs, h, h, r + 1, r, h[r].items[k], items[k]);
    }
  }

  lemma DictDone(libs: Libs, h: Heap, r: Ref, es: seq<Entry<string, Json>>)
    requires DictSoFar(libs, h, r, es, |es|)
    ensures Holds(libs, h, r, r, Obj(es))
  {
    forall k | 0 <= k < |es| ensures HoldsPair(libs, h, r, h[r].pairs[k], es[k]) {
      HoldsFrame(libs, h, h, r + 1, r, h[r].pairs[k].1, es[k].value);
    }
  }

  /** The interpreter's heap as the converter uses it: fresh cells come from
      `next` on. */
  class Interpreter {
    var cells: Heap
    var next: nat

    predicate Valid()
      reads this
    {
      forall r :: r in cells ==> r < next
    }

    constructor (h: Heap, free: nat)
      requires forall r :: r in h ==> r < free
      ensures Valid() && cells == h && next == free
    {
      cells, next := h, free;
    }

    method New(n: Node) returns (r: Ref)
      requires Valid()
      modifies this
      ensures Valid() && r == old(next) && next == r + 1
      ensures cells == old(cells)[r := n]
    {
      r := next;
      cells := cells[r := n];
      next := next + 1;
    }

    /** Builds a new object tree for `v` and leaves every existing cell alone. */
    method SerdeToPy(libs: Libs, v: Json) returns (r: Ref)
      requires Valid()
      modifies this
      ensures Valid() && Extends(old(cells), cells, 0) && old(next) < next
      ensures Holds(libs, cells, old(next), r, v)
      decreases v
    {
      match v
      case Null => r := New(PyNone);
      case Bool(b) => r := New(PyBool(b));
      case Number(n) => r := New(NumToPy(libs, n));
      case Str(s) => r := New(PyStr(s));
      case Arr(items) => r := FillList(libs, v);
      case Obj(es) => r := FillDict(libs, v);
    }

    /** The list is allocated empty and appended to in place. */
    method FillList(libs: Libs, v: Json) returns (r: Ref)
      requires Valid() && v.Arr?
      modifies this
      ensures Valid() && Extends(old(cells), cells, 0) && old(next) < next
      ensures Holds(libs, cells, old(next), r, v)
      decreases v, 0
    {
      r := New(PyList([]));
      for i := 0 to |v.items|
        invariant Valid() && r == old(next) < next && Extends(old(cells), cells, 0)
        invariant ListSoFar(libs, cells, r, v.items, i)
      {
        ghost var before, free := cells, next;
        var item := SerdeToPy(libs, v.items[i]);
        HoldsFrame(libs, cells, cells, free, r + 1, item, v.items[i]);
        ListAppend(libs, before, cells, r, item, v.items, i);
        cells := cells[r := PyList(cells[r].items + [item])];
      }
      ListDone(libs, cells, r, v.items);
    }

    /** JSON objects have distinct keys, so `set_item` always adds a pair. */
    method FillDict(libs: Libs, v: Json) returns (r: Ref)
      requires Valid() && v.Obj?
      modifies this
      ensures Valid() && Extends(old(cells), cells, 0) && old(next) < next
      ensures Holds(libs, cells, old(next), r, v)
      decreases v, 0
    {
      r := New(PyDict([]));
      for i := 0 to |v.entries|
        invariant Valid() && r == old(next) < next && Extends(old(cells), cells, 0)
        invariant DictSoFar(libs, cells, r, v.entries, i)
      {
        ghost var before, free := cells, next;
        var value := SerdeToPy(libs, v.entries[i].value);
        ghost var mid := cells;
        var key := New(PyStr(v.entries[i].key));
        HoldsFrame(libs, mid, cells, free, r + 1, value, v.entries[i].value);
        DictAppend(libs, before, cells, r, (key, value), v.entries, i);
        cells := cells[r := PyDict(cells[r].pairs + [(key, value)])];
      }
      DictDone(libs, cells, r, v.entries);
    }
  }

  // ------------------------------------------------------ JSON -> Python -> JSON

  /** What serde_json's types guarantee of a value. */
  predicate WellFormed(v: Json)
    decreases v
  {
    match v
    case Number(PosInt(u)) => u <= U64_MAX
    case Number(NegInt(i)) => I64_MIN <= i < 0
    case Number(Float(f)) => f.Finite?
    case Arr(items) => forall i :: 0 <= i < |items| ==> WellFormed(items[i])
    case Obj(es) => Distinct(es) && forall i :: 0 <= i < |es| ==> WellFormed(es[i].value)
    case _ => true
  }

  /** No integer beyond the i64 range. */
  predicate SmallInts(v: Json)
    decreases v
  {
    match v
    case Number(PosInt(u)) => u <= I64_MAX
    case Arr(items) => forall i :: 0 <= i < |items| ==> SmallInts(items[i])
    case Obj(es) => forall i :: 0 <= i < |es| ==> SmallInts(es[i].value)
    case _ => true
  }

  /** The value with its large integers turned into floats. */
  function Rounded(libs: Libs, v: Json): Json
    decreases v
  {
    match v
    case Number(PosInt(u)) => if u <= I64_MAX then v else Number(Float(Finite(libs.round(u))))
    case Arr(items) => Arr(seq(|items|, i requires 0 <= i < |items| => Rounded(libs, items[i])))
    case Obj(es) =>
      Obj(seq(|es|, i requires 0 <= i < |es| => Entry(es[i].key, Rounded(libs, es[i].value))))
    case _ => v
  }

  lemma {:induction false} RoundedSame(libs: Libs, v: Json)
    ensures Rounded(libs, v) == v <==> SmallInts(v)
    decreases v
  {
    match v
    case Arr(items) =>
      forall i | 0 <= i < |items| ensures Rounded(libs, items[i]) == items[i] <==> SmallInts(items[i]) {
        RoundedSame(libs, items[i]);
      }
      if Rounded(libs, v) == v {
        forall i | 0 <= i < |items| ensures Rounded(libs, items[i]) == items[i] {
          assert Rounded(libs, v).items[i] == v.items[i];
        }
      }
    case Obj(es) =>
      forall i | 0 <= i < |es| ensures Rounded(libs, es[i].value) == es[i].value <==> SmallInts(es[i].value) {
        RoundedSame(libs, es[i].value);
      }
      if Rounded(libs, v) == v {
        forall i | 0 <= i < |es| ensures Rounded(libs, es[i].value) == es[i].value {
          assert Rounded(libs, v).entries[i] == v.entries[i];
        }
      }
    case _ =>
  }

  /** All of these fit below the depth limit, one level down being `depth`. */
  predicate Fits(vs: seq<Json>, depth: nat) {
    forall i :: 0 <= i < |vs| ==> depth + Depth(vs[i]) <= MAX_DEPTH
  }

  predicate EntriesFit(es: seq<Entry<string, Json>>, depth: nat) {
    forall i :: 0 <= i < |es| ==> depth + Depth(es[i].value) <= MAX_DEPTH
  }

  /** What converting back gives at this depth. */
  function Returned(libs: Libs, v: Json, depth: nat): Result<Json, Error> {
    if depth + Depth(v) <= MAX_DEPTH then Ok(Rounded(libs, v)) else Err(ValueError)
  }

  lemma HoldsLeafConverts(libs: Libs, h: Heap, lo: nat, r: Ref, v: Json, depth: nat)
    requires Holds(libs, h, lo, r, v) && WellFormed(v) && !v.Arr? && !v.Obj?
    ensures Convert(libs, h, r, depth) == Returned(libs, v, depth)
  {
  }

  lemma {:induction false} HoldsConverts(libs: Libs, h: Heap, lo: nat, r: Ref, v: Json, depth: nat)
    requires Holds(libs, h, lo, r, v) && WellFormed(v)
    ensures Convert(libs, h, r, depth) == Returned(libs, v, depth)
    decreases v, 1
  {
    match v
    case Arr(items) =>
      HoldsListConverts(libs, h, lo, h[r].items, items, depth + 1);
      if depth <= MAX_DEPTH { DepthListBound(items, MAX_DEPTH - depth); }
    case Obj(es) =>
      HoldsPairsConvert(libs, h, lo, h[r].pairs, es, depth + 1);
      if depth <= MAX_DEPTH { DepthEntriesBound(es, MAX_DEPTH - depth); }
      RoundedInserts(libs, es);
    case _ =>
      HoldsLeafConverts(libs, h, lo, r, v, depth);
  }

  lemma RoundedInserts(libs: Libs, es: seq<Entry<string, Json>>)
    requires Distinct(es)
    ensures PutAll([], Rounded(libs, Obj(es)).entries) == Rounded(libs, Obj(es)).entries
  {
    FromDistinct(Rounded(libs, Obj(es)).entries);
  }

  lemma {:induction false} HoldsListConverts(libs: Libs, h: Heap, lo: nat, rs: seq<Ref>, vs: seq<Json>, depth: nat)
    requires |rs| == |vs|
    requires forall i :: 0 <= i < |vs| ==> Holds(libs, h, lo, rs[i], vs[i]) && WellFormed(vs[i])
    ensures ConvertList(libs, h, rs, depth)
         == if Fits(vs, depth) then Ok(Rounded(libs, Arr(vs)).items) else Err(ValueError)
    decreases vs, 0
  {
    if vs != [] {
      HoldsConverts(libs, h, lo, rs[0], vs[0], depth);
      HoldsListConverts(libs, h, lo, rs[1..], vs[1..], depth);
      assert Rounded(libs, Arr(vs)).items == [Rounded(libs, vs[0])] + Rounded(libs, Arr(vs[1..])).items;
      assert forall i :: 0 < i < |vs| ==> vs[i] == vs[1..][i - 1];
      assert Fits(vs, depth) <==> depth + Depth(vs[0]) <= MAX_DEPTH && Fits(vs[1..], depth);
    }
  }

  lemma {:induction false} HoldsPairsConvert(libs: Libs, h: Heap, lo: nat, ps: seq<(Ref, Ref)>,
                                             es: seq<Entry<string, Json>>, depth: nat)
    requires |ps| == |es|
    requires forall i :: 0 <= i < |es| ==> HoldsPair(libs, h, lo, ps[i], es[i]) && WellFormed(es[i].value)
    ensures ConvertPairs(libs, h, ps, depth)
         == if EntriesFit(es, depth) then Ok(Rounded(libs, Obj(es)).entries) else Err(ValueError)
    decreases es, 0
  {
    if es != [] {
      assert (es decreases to es[0]);
      HoldsConverts(libs, h, lo, ps[0].1, es[0].value, depth);
      HoldsPairsConvert(libs, h, lo, ps[1..], es[1..], depth);
      assert Rounded(libs, Obj(es)).entries
          == [Entry(es[0].key, Rounded(libs, es[0].value))] + Rounded(libs, Obj(es[1..])).entries;
      assert forall i :: 0 < i < |es| ==> es[i] == es[1..][i - 1];
      assert EntriesFit(es, depth) <==> depth + Depth(es[0].value) <= MAX_DEPTH && EntriesFit(es[1..], depth);
    }
  }

  /** A JSON value comes back from Python unchanged if and only if it is nested
      at most 128 deep and has no integer beyond i64; such integers come back as
      floats, and deeper values not at all. */
  lemma JsonRoundTrip(libs: Libs, h: Heap, lo: nat, r: Ref, v: Json)
    requires Holds(libs, h, lo, r, v) && WellFormed(v)
    ensures Convert(libs, h, r, 0) == Ok(v) <==> Depth(v) <= MAX_DEPTH && SmallInts(v)
    ensures Depth(v) <= MAX_DEPTH ==> Convert(libs, h, r, 0) == Ok(Rounded(libs, v))
    ensures Depth(v) > MAX_DEPTH ==> Convert(libs, h, r, 0) == Err(ValueError)
  {
    HoldsConverts(libs, h, lo, r, v, 0);
    RoundedSame(libs, v);
  }

  // ---------------------------------------------------- Python -> JSON -> Python

  /** A Python value as a typed tree. It tells `1` from `1.0`, which Python's `==`
      does not. */
  datatype PyTree =
    | TNone
    | TBool(b: bool)
    | TInt(n: int)
    | TFloat(f: F64)
    | TStr(s: string)
    | TBytes(bytes: seq<nat>)
    | TList(items: seq<PyTree>)
    | TDict(entries: seq<Entry<string, PyTree>>)

  predicate Shape(h: Heap, r: Ref, p: PyTree)
    decreases p
  {
    match At(h, r)
    case PyNone => p == TNone
    case PyBool(b) => p == TBool(b)
    case PyInt(n) => p == TInt(n)
    case PyFloat(f) => p == TFloat(f)
    case PyStr(s) => p == TStr(s)
    case PyBytes(bs) => p == TBytes(bs)
    case PyList(items) =>
      p.TList? && |p.items| == |items| && forall i :: 0 <= i < |items| ==> Shape(h, items[i], p.items[i])
    case PyDict(pairs) =>
      && p.TDict? && |p.entries| == |pairs|
      && forall i :: 0 <= i < |pairs| ==>
           At(h, pairs[i].0) == PyStr(p.entries[i].key) && Shape(h, pairs[i].1, p.entries[i].value)
    case _ => false
  }

  /** No bytes, and no integer beyond i64. */
  predicate Plain(p: PyTree)
    decreases p
  {
    match p
    case TInt(n) => n <= I64_MAX
    case TBytes(_) => false
    case TList(items) => forall i :: 0 <= i < |items| ==> Plain(items[i])
    case TDict(es) => forall i :: 0 <= i < |es| ==> Plain(es[i].value)
    case _ => true
  }

  /** If `t` is the JSON form of the object at `r`, and `r'` holds a Python
      object made from `t`, then the two are the same typed tree exactly
      when the original is plain. */
  lemma {:induction false} ShapesAgree(libs: Libs, h: Heap, r: Ref, t: Json, p: PyTree, h': Heap, lo: nat, r': Ref)
    requires Unfolds(libs, h, r, t) && Shape(h, r, p) && Holds(libs, h', lo, r', t)
    ensures Shape(h', r', p) <==> Plain(p)
    decreases t
  {
    match t
    case Arr(items) =>
      forall i | 0 <= i < |items| ensures Shape(h', h'[r'].items[i], p.items[i]) <==> Plain(p.items[i]) {
        ShapesAgree(libs, h, At(h, r).items[i], items[i], p.items[i], h', lo, h'[r'].items[i]);
      }
    case Obj(es) =>
      forall i | 0 <= i < |es| ensures Shape(h', h'[r'].pairs[i].1, p.entries[i].value) <==> Plain(p.entries[i].value) {
        ShapesAgree(libs, h, At(h, r).pairs[i].1, es[i].value, p.entries[i].value, h', lo, h'[r'].pairs[i].1);
      }
    case _ =>
  }

  /** A Python value that is accepted comes back from JSON as the same typed tree if
      and only if it holds no bytes and no integer beyond i64. */
  lemma PythonRoundTrip(libs: Libs, h: Heap, r: Ref, p: PyTree, h': Heap, lo: nat, r': Ref)
    requires PythonHeap(h) && Shape(h, r, p) && Convert(libs, h, r, 0).Ok?
    requires Holds(libs, h', lo, r', Convert(libs, h, r, 0).value)
    ensures Shape(h', r', p) <==> Plain(p)
  {
    var t := Convert(libs, h, r, 0).value;
    ConvertIffUnfolds(libs, h, r, 0, t);
    ShapesAgree(libs, h, r, t, p, h', lo, r');
  }
}
