/** What `py_to_serde` means, said without its conversion of leaves: which JSON value
    stands for which Python value, and which of its two errors is raised. */
module JsonMeaning {
  import opened Wrappers
  import opened OrderedMap
  import opened JsonBridge
  import opened JsonRoundTrip

  // ------------------------------------------------------------------- the values

  /** `t` is the JSON value for the Python value `p`. */
  predicate Encodes(libs: Libs, p: PyTree, t: Json)
    decreases p
  {
    match p
    case TNone => t == Null
    case TBool(b) => t == Bool(b)
    case TInt(n) =>
      && -0x8000_0000_0000_0000 <= n <= 0xffff_ffff_ffff_ffff
      && t == Number(if n < 0 then NegInt(n) else PosInt(n))
    case TFloat(f) => f.Finite? && t == Number(Float(f))
    case TStr(s) => t == Str(s)
    case TBytes(bs) => t == Str(libs.base64(bs))
    case TList(items) =>
      t.Arr? && |t.items| == |items| && forall i :: 0 <= i < |items| ==> Encodes(libs, items[i], t.items[i])
    case TDict(es) =>
      && t.Obj? && |t.entries| == |es|
      && forall i :: 0 <= i < |es| ==>
           t.entries[i].key == es[i].key && Encodes(libs, es[i].value, t.entries[i].value)
  }

  lemma {:induction false} EncodedUnfolds(libs: Libs, h: Heap, r: Ref, p: PyTree, t: Json)
    requires Shape(h, r, p) && Encodes(libs, p, t)
    ensures Unfolds(libs, h, r, t)
    decreases p
  {
    match p
    case TList(items) =>
      forall i | 0 <= i < |items| ensures Unfolds(libs, h, At(h, r).items[i], t.items[i]) {
        EncodedUnfolds(libs, h, At(h, r).items[i], items[i], t.items[i]);
      }
    case TDict(es) =>
      forall i | 0 <= i < |es| ensures Unfolds(libs, h, At(h, r).pairs[i].1, t.entries[i].value) {
        EncodedUnfolds(libs, h, At(h, r).pairs[i].1, es[i].value, t.entries[i].value);
      }
    case _ =>
  }

  lemma {:induction false} UnfoldedHasTree(libs: Libs, h: Heap, r: Ref, t: Json) returns (p: PyTree)
    requires Unfolds(libs, h, r, t)
    ensures Shape(h, r, p) && Encodes(libs, p, t)
    decreases t, 1
  {
    match At(h, r)
    case PyNone => p := TNone;
    case PyBool(b) => p := TBool(b);
    case PyInt(n) => p := TInt(n);
    case PyFloat(f) => p := TFloat(f);
    case PyStr(s) => p := TStr(s);
    case PyBytes(bs) => p := TBytes(bs);
    case PyList(items) =>
      var ps := ItemsHaveTrees(libs, h, items, t.items);
      p := TList(ps);
    case PyDict(pairs) =>
      var es := PairsHaveTrees(libs, h, pairs, t.entries);
      p := TDict(es);
  }

  lemma {:induction false} ItemsHaveTrees(libs: Libs, h: Heap, items: seq<Ref>, ts: seq<Json>) returns (ps: seq<PyTree>)
    requires UnfoldsList(libs, h, items, ts)
    ensures |ps| == |items|
    ensures forall i :: 0 <= i < |ps| ==> Shape(h, items[i], ps[i]) && Encodes(libs, ps[i], ts[i])
    decreases ts, 0
  {
    ps := [];
    if items != [] {
      assert UnfoldsList(libs, h, items[1..], ts[1..]);
      var p := UnfoldedHasTree(libs, h, items[0], ts[0]);
      var more := ItemsHaveTrees(libs, h, items[1..], ts[1..]);
      ps := [p] + more;
    }
  }

  lemma {:induction false} PairsHaveTrees(libs: Libs, h: Heap, pairs: seq<(Ref, Ref)>, es: seq<Entry<string, Json>>)
    returns (ps: seq<Entry<string, PyTree>>)
    requires UnfoldsPairs(libs, h, pairs, es)
    ensures |ps| == |pairs|
    ensures forall i :: 0 <= i < |ps| ==>
              && At(h, pairs[i].0) == PyStr(ps[i].key) && ps[i].key == es[i].key
              && Shape(h, pairs[i].1, ps[i].value) && Encodes(libs, ps[i].value, es[i].value)
    decreases es, 0
  {
    ps := [];
    if pairs != [] {
      assert (es decreases to es[0]);
      assert UnfoldsPairs(libs, h, pairs[1..], es[1..]);
      var p := UnfoldedHasTree(libs, h, pairs[0].1, es[0].value);
      var more := PairsHaveTrees(libs, h, pairs[1..], es[1..]);
      ps := [Entry(es[0].key, p)] + more;
    }
  }

  /** `t` stands for the Python value at `r`, which is a finite tree. */
  ghost predicate StandsFor(libs: Libs, h: Heap, r: Ref, t: Json) {
    exists p :: Shape(h, r, p) && Encodes(libs, p, t)
  }

  lemma StandsForIff(libs: Libs, h: Heap, r: Ref, t: Json)
    ensures StandsFor(libs, h, r, t) <==> Unfolds(libs, h, r, t)
  {
    if p :| Shape(h, r, p) && Encodes(libs, p, t) { EncodedUnfolds(libs, h, r, p, t); }
    if Unfolds(libs, h, r, t) {
      var p := UnfoldedHasTree(libs, h, r, t);
      assert Shape(h, r, p) && Encodes(libs, p, t);
    }
  }

  /** The conversion succeeds with `t` if and only if `t` stands for the argument and
      nests at most 128 deep. */
  lemma ConvertMeans(libs: Libs, h: Heap, r: Ref, t: Json)
    requires PythonHeap(h)
    ensures Convert(libs, h, r, 0) == Ok(t) <==> StandsFor(libs, h, r, t) && Depth(t) <= 128
  {
    ConvertIffUnfolds(libs, h, r, 0, t);
    StandsForIff(libs, h, r, t);
  }

  // ------------------------------------------------------------------- the errors

  /** What the conversion looks at: a value at a depth, or a dict key. */
  datatype Visit = Value(r: Ref, depth: nat) | Key(k: Ref)

  /** Everything there is to look at, in order: a container before its contents, a key
      before its value, nothing below the depth limit. */
  function Visits(h: Heap, r: Ref, depth: nat): seq<Visit>
    decreases if depth > 128 then 0 else 129 - depth, 1, 0
  {
    [Value(r, depth)] +
    if depth > 128 then []
    else match At(h, r)
      case PyList(items) => ItemVisits(h, items, depth + 1)
      case PyDict(pairs) => PairVisits(h, pairs, depth + 1)
      case _ => []
  }

  function ItemVisits(h: Heap, items: seq<Ref>, depth: nat): seq<Visit>
    decreases if depth > 128 then 0 else 129 - depth, 2, |items|
  {
    if items == [] then [] else Visits(h, items[0], depth) + ItemVisits(h, items[1..], depth)
  }

  function PairVisits(h: Heap, pairs: seq<(Ref, Ref)>, depth: nat): seq<Visit>
    decreases if depth > 128 then 0 else 129 - depth, 2, |pairs|
  {
    if pairs == [] then []
    else [Key(pairs[0].0)] + (Visits(h, pairs[0].1, depth) + PairVisits(h, pairs[1..], depth))
  }

  /** What is wrong with a visited value or key, if anything: too deep, an integer or
      float JSON cannot hold, a text that is no Unicode, a type JSON does not have, a
      key that is no text. */
  function Trouble(h: Heap, v: Visit): Option<Error> {
    match v
    case Key(k) => if At(h, k).PyStr? then None else Some(TypeError)
    case Value(r, depth) =>
      if depth > 128 then Some(ValueError)
      else match At(h, r)
        case PyInt(n) =>
          if -0x8000_0000_0000_0000 <= n <= 0xffff_ffff_ffff_ffff then None else Some(ValueError)
        case PyFloat(f) => if f.Finite? then None else Some(ValueError)
        case PySurrogates => Some(ValueError)
        case PyOther(_) => Some(TypeError)
        case _ => None
  }

  /** The first trouble met. */
  function FirstTrouble(h: Heap, vs: seq<Visit>): Option<Error> {
    if vs == [] then None
    else if Trouble(h, vs[0]).Some? then Trouble(h, vs[0])
    else FirstTrouble(h, vs[1..])
  }

  lemma {:induction false} TroubleConcat(h: Heap, a: seq<Visit>, b: seq<Visit>)
    ensures FirstTrouble(h, a + b) == if FirstTrouble(h, a).Some? then FirstTrouble(h, a) else FirstTrouble(h, b)
  {
    if a == [] {
      assert a + b == b;
    } else {
      assert (a + b)[0] == a[0] && (a + b)[1..] == a[1..] + b;
      TroubleConcat(h, a[1..], b);
    }
  }

  lemma TroubleCons(h: Heap, v: Visit, vs: seq<Visit>)
    ensures FirstTrouble(h, [v] + vs) == if Trouble(h, v).Some? then Trouble(h, v) else FirstTrouble(h, vs)
  {
    assert ([v] + vs)[1..] == vs;
  }

  function ErrorOf<T>(r: Result<T, Error>): Option<Error> {
    match r case Ok(_) => None case Err(e) => Some(e)
  }

  lemma {:induction false} ErrorIsFirst(libs: Libs, h: Heap, r: Ref, depth: nat)
    ensures ErrorOf(Convert(libs, h, r, depth)) == FirstTrouble(h, Visits(h, r, depth))
    decreases if depth > 128 then 0 else 129 - depth, 1, 0
  {
    if depth > 128 {
      TroubleCons(h, Value(r, depth), []);
      assert [Value(r, depth)] + [] == Visits(h, r, depth);
    } else {
      match At(h, r)
      case PyList(items) =>
        TroubleCons(h, Value(r, depth), ItemVisits(h, items, depth + 1));
        ItemErrorIsFirst(libs, h, items, depth + 1);
      case PyDict(pairs) =>
        TroubleCons(h, Value(r, depth), PairVisits(h, pairs, depth + 1));
        PairErrorIsFirst(libs, h, pairs, depth + 1);
      case _ =>
        TroubleCons(h, Value(r, depth), []);
    }
  }

  lemma {:induction false} ItemErrorIsFirst(libs: Libs, h: Heap, items: seq<Ref>, depth: nat)
    ensures ErrorOf(ConvertList(libs, h, items, depth)) == FirstTrouble(h, ItemVisits(h, items, depth))
    decreases if depth > 128 then 0 else 129 - depth, 2, |items|
  {
    if items != [] {
      ErrorIsFirst(libs, h, items[0], depth);
      ItemErrorIsFirst(libs, h, items[1..], depth);
      TroubleConcat(h, Visits(h, items[0], depth), ItemVisits(h, items[1..], depth));
    }
  }

  lemma {:induction false} PairErrorIsFirst(libs: Libs, h: Heap, pairs: seq<(Ref, Ref)>, depth: nat)
    ensures ErrorOf(ConvertPairs(libs, h, pairs, depth)) == FirstTrouble(h, PairVisits(h, pairs, depth))
    decreases if depth > 128 then 0 else 129 - depth, 2, |pairs|
  {
    if pairs != [] {
      var value, more := Visits(h, pairs[0].1, depth), PairVisits(h, pairs[1..], depth);
      TroubleCons(h, Key(pairs[0].0), value + more);
      TroubleConcat(h, value, more);
      ErrorIsFirst(libs, h, pairs[0].1, depth);
      PairErrorIsFirst(libs, h, pairs[1..], depth);
    }
  }

  /** Visit `i` is the first in trouble. */
  ghost predicate FirstAt(h: Heap, vs: seq<Visit>, i: int, e: Error) {
    0 <= i < |vs| && Trouble(h, vs[i]) == Some(e) && forall j :: 0 <= j < i ==> Trouble(h, vs[j]) == None
  }

  lemma {:induction false} FirstTroubleAt(h: Heap, vs: seq<Visit>, e: Error)
    ensures FirstTrouble(h, vs) == Some(e) <==> exists i :: FirstAt(h, vs, i, e)
  {
    if vs != [] {
      var rest := vs[1..];
      FirstTroubleAt(h, rest, e);
      assert forall j :: 0 < j < |vs| ==> vs[j] == rest[j - 1];
      if i :| FirstAt(h, rest, i, e) && Trouble(h, vs[0]) == None { assert FirstAt(h, vs, i + 1, e); }
      if i :| FirstAt(h, vs, i, e) && Trouble(h, vs[0]) == None { RestFirst(h, vs, i, e); }
      if Trouble(h, vs[0]) == Some(e) { assert FirstAt(h, vs, 0, e); }
    }
  }

  lemma RestFirst(h: Heap, vs: seq<Visit>, i: int, e: Error)
    requires FirstAt(h, vs, i, e) && Trouble(h, vs[0]) == None
    ensures FirstAt(h, vs[1..], i - 1, e)
  {
    assert forall j :: 0 <= j < |vs| - 1 ==> vs[1..][j] == vs[j + 1];
  }

  /** The conversion fails if and only if something it looks at is in trouble, and its
      error is that of the first such thing. */
  lemma ConvertFailsWith(libs: Libs, h: Heap, r: Ref, e: Error)
    ensures Convert(libs, h, r, 0) == Err(e) <==> exists i :: FirstAt(h, Visits(h, r, 0), i, e)
  {
    ErrorIsFirst(libs, h, r, 0);
    FirstTroubleAt(h, Visits(h, r, 0), e);
  }
}
