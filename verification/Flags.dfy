/** The flag loop of the harness's `search` command, and the printer of its
    argument list. */
module Flags {
  import opened Wrappers
  import opened PyText

  /** What the loop has read so far. */
  datatype State = State(queryType: string, dataset: Option<string>, topK: int)

  /** What the generated script searches for. */
  datatype Query = Query(text: string, queryType: string, dataset: Option<string>, topK: int)

  /** `args[1]` on a list that is too short, and `int` on text that is no number. */
  datatype Failure = IndexError | ValueError(text: string)

  const DEFAULTS := State("GRAPH_COMPLETION", None, 10)

  predicate IsType(a: string) { a == "-t" || a == "--query-type" }
  predicate IsDataset(a: string) { a == "-d" || a == "--datasets" }
  predicate IsTopK(a: string) { a == "-k" || a == "--top-k" }
  predicate IsFlag(a: string) { IsType(a) || IsDataset(a) || IsTopK(a) }

  /** An empty dataset name counts as none. */
  function Named(dataset: Option<string>): Option<string> {
    if dataset == Some("") then None else dataset
  }

  function Finish(text: string, st: State): Query {
    Query(text, st.queryType, Named(st.dataset), st.topK)
  }

  /** The state after one flag and its value. */
  function Apply(flag: string, value: string, st: State): Result<State, Failure>
    requires IsFlag(flag)
  {
    if IsType(flag) then Ok(st.(queryType := value))
    else if IsDataset(flag) then Ok(st.(dataset := Some(value)))
    else if PyInt(value).None? then Err(ValueError(value))
    else Ok(st.(topK := PyInt(value).value))
  }

  /** The state after the remaining arguments. */
  function Rest(args: seq<string>, st: State): Result<State, Failure>
    decreases |args|
  {
    if args == [] then Ok(st)
    else if IsFlag(args[0]) && |args| > 1 then
      var next := Apply(args[0], args[1], st);
      if next.Err? then next else Rest(args[2..], next.value)
    else Rest(args[1..], st)
  }

  function Search(args: seq<string>): Result<Query, Failure> {
    if |args| < 2 then Err(IndexError)
    else
      var st := Rest(args[2..], DEFAULTS);
      if st.Err? then Err(st.error) else Ok(Finish(args[1], st.value))
  }

  method ParseSearch(args: seq<string>) returns (r: Result<Query, Failure>)
    ensures r == Search(args)
  {
    if |args| < 2 {
      return Err(IndexError);
    }
    var queryText, queryType, topK := args[1], "GRAPH_COMPLETION", 10;
    var datasetName: Option<string> := None;
    var i := 2;
    while i < |args|
      invariant 2 <= i <= |args|
      invariant Rest(args[i..], State(queryType, datasetName, topK)) == Rest(args[2..], DEFAULTS)
    {
      assert args[i..][1..] == args[i + 1..];
      if i + 1 < |args| { assert args[i..][2..] == args[i + 2..]; }
      if IsType(args[i]) && i + 1 < |args| {
        queryType := args[i + 1];
        i := i + 2;
      } else if IsDataset(args[i]) && i + 1 < |args| {
        datasetName := Some(args[i + 1]);
        i := i + 2;
      } else if IsTopK(args[i]) && i + 1 < |args| {
        var k := PyInt(args[i + 1]);
        if k.None? {
          return Err(ValueError(args[i + 1]));
        }
        topK := k.value;
        i := i + 2;
      } else {
        i := i + 1;
      }
    }
    return Ok(Finish(queryText, State(queryType, datasetName, topK)));
  }

  function DatasetArgs(dataset: Option<string>): seq<string> {
    if dataset.Some? then ["-d", dataset.value] else []
  }

  /** The argument list of `run_python_search`. */
  function Print(query: string, queryType: string, dataset: Option<string>, topK: int): seq<string> {
    ["search", query, "-t", queryType, "-k", PyStr(topK)] + DatasetArgs(Named(dataset))
  }

  lemma RestOfDataset(dataset: Option<string>, st: State)
    requires st.dataset == None
    ensures Rest(DatasetArgs(dataset), st) == Ok(st.(dataset := dataset))
  {
    if dataset.Some? {
      RestPair("-d", dataset.value, [], st);
      assert ["-d", dataset.value] + [] == DatasetArgs(dataset);
    }
  }

  lemma RestOfNumber(number: string, topK: int, more: seq<string>, st: State)
    requires PyInt(number) == Some(topK)
    ensures Rest(["-k", number] + more, st) == Rest(more, st.(topK := topK))
  {
    RestPair("-k", number, more, st);
  }

  /** The loop reads back exactly what was printed, whatever the strings look like;
      an empty dataset reads as none. */
  lemma SearchOfPrint(query: string, queryType: string, dataset: Option<string>, topK: int)
    ensures var r := Search(Print(query, queryType, dataset, topK));
            && (dataset == None || dataset == Some("") ==> r == Ok(Query(query, queryType, None, topK)))
            && (forall d :: dataset == Some(d) && d != "" ==> r == Ok(Query(query, queryType, Some(d), topK)))
  {
    var args, tail, number := Print(query, queryType, dataset, topK), DatasetArgs(Named(dataset)), PyStr(topK);
    assert args[2..] == ["-t", queryType] + (["-k", number] + tail);
    RestPair("-t", queryType, ["-k", number] + tail, DEFAULTS);
    PyIntOfStr(topK);
    RestOfNumber(number, topK, tail, DEFAULTS.(queryType := queryType));
    RestOfDataset(Named(dataset), DEFAULTS.(queryType := queryType, topK := topK));
  }

  /** Without any flag the defaults hold, and without a query there is no search. */
  lemma SearchWithoutFlags(query: string)
    ensures Search(["search", query]) == Ok(Query(query, "GRAPH_COMPLETION", None, 10))
    ensures Search(["search"]) == Err(IndexError)
  {
    assert ["search", query][2..] == [];
  }

  lemma SearchRest(query: string, more: seq<string>, st: State)
    requires Rest(more, DEFAULTS) == Ok(st)
    ensures Search(["search", query] + more) == Ok(Finish(query, st))
  {
    assert (["search", query] + more)[2..] == more;
  }

  /** The long spellings say the same as the short ones. */
  lemma SearchOfLongFlags(query: string, queryType: string, dataset: string, topK: int)
    requires dataset != ""
    ensures Search(["search", query]
                   + (["--query-type", queryType] + (["--datasets", dataset] + (["--top-k", PyStr(topK)] + []))))
            == Ok(Query(query, queryType, Some(dataset), topK))
  {
    var number, typed := PyStr(topK), DEFAULTS.(queryType := queryType);
    var third := ["--top-k", number] + [];
    var second := ["--datasets", dataset] + third;
    PyIntOfStr(topK);
    RestPair("--query-type", queryType, second, DEFAULTS);
    RestPair("--datasets", dataset, third, typed);
    RestPair("--top-k", number, [], typed.(dataset := Some(dataset)));
    SearchRest(query, ["--query-type", queryType] + second, State(queryType, Some(dataset), topK));
  }

  lemma RestPair(flag: string, value: string, more: seq<string>, st: State)
    requires IsFlag(flag)
    ensures var next := Apply(flag, value, st);
            Rest([flag, value] + more, st) == if next.Err? then next else Rest(more, next.value)
  {
    assert ([flag, value] + more)[2..] == more;
  }

  // --------------------------------------------------------- any argument list

  /** What the loop takes at once: a flag with its value, or a word it skips. */
  datatype Item = Pair(flag: string, value: string) | Word(word: string)

  function Flatten(items: seq<Item>): seq<string> {
    if items == [] then []
    else (match items[0] case Pair(f, v) => [f, v] case Word(w) => [w]) + Flatten(items[1..])
  }

  /** Only the last word of a list may be a flag: it lacks a value. */
  predicate WellFormed(items: seq<Item>) {
    forall i :: 0 <= i < |items| ==>
      match items[i]
      case Pair(f, _) => IsFlag(f)
      case Word(w) => !IsFlag(w) || i == |items| - 1
  }

  /** Every argument list reads as such a list of items. */
  lemma {:induction false} ItemsOf(args: seq<string>) returns (items: seq<Item>)
    ensures WellFormed(items) && Flatten(items) == args
    ensures args != [] ==> items != []
    decreases |args|
  {
    items := [];
    if args != [] {
      if IsFlag(args[0]) && |args| > 1 {
        var more := ItemsOf(args[2..]);
        items := [Pair(args[0], args[1])] + more;
        assert args == [args[0], args[1]] + args[2..];
      } else {
        var more := ItemsOf(args[1..]);
        items := [Word(args[0])] + more;
        assert args == [args[0]] + args[1..];
      }
    }
  }

  datatype Kind = TypeFlag | DatasetFlag | TopKFlag

  predicate OfKind(x: Item, kind: Kind) {
    && x.Pair?
    && match kind
       case TypeFlag => IsType(x.flag)
       case DatasetFlag => IsDataset(x.flag)
       case TopKFlag => IsTopK(x.flag)
  }

  /** The value of the last flag of a kind. */
  function Last(items: seq<Item>, kind: Kind): Option<string> {
    if items == [] then None
    else if OfKind(items[|items| - 1], kind) then Some(items[|items| - 1].value)
    else Last(items[..|items| - 1], kind)
  }

  function Or<T>(o: Option<T>, default: T): T {
    if o.Some? then o.value else default
  }

  lemma {:induction false} LastCons(x: Item, items: seq<Item>, kind: Kind)
    ensures Last([x] + items, kind) ==
            if Last(items, kind).None? && OfKind(x, kind) then Some(x.value) else Last(items, kind)
  {
    var all := [x] + items;
    if items == [] {
      assert all[..0] == [];
    } else {
      assert all[..|all| - 1] == [x] + items[..|items| - 1];
      LastCons(x, items[..|items| - 1], kind);
    }
  }

  /** A `--top-k` value that is no integer. */
  predicate BadNumber(x: Item) {
    OfKind(x, TopKFlag) && PyInt(x.value).None?
  }

  /** The first such item: the loop stops there. */
  ghost predicate FirstBad(items: seq<Item>, i: int) {
    0 <= i < |items| && BadNumber(items[i]) && forall j :: 0 <= j < i ==> !BadNumber(items[j])
  }

  predicate NumbersFine(items: seq<Item>) {
    forall i :: 0 <= i < |items| ==> !BadNumber(items[i])
  }

  /** The last value of each flag, and what `st` has where there is none. */
  function LastState(items: seq<Item>, st: State): State {
    var dataset, number := Last(items, DatasetFlag), Last(items, TopKFlag);
    State(Or(Last(items, TypeFlag), st.queryType),
          if dataset.Some? then dataset else st.dataset,
          if number.Some? then Or(PyInt(number.value), st.topK) else st.topK)
  }

  lemma RestOfItem(x: Item, items: seq<Item>, st: State)
    requires WellFormed([x] + items)
    ensures Rest(Flatten([x] + items), st) ==
            if BadNumber(x) then Err(ValueError(x.value)) else Rest(Flatten(items), AfterItem(x, st))
  {
    assert ([x] + items)[0] == x && ([x] + items)[1..] == items;
    match x
    case Pair(f, v) => RestPair(f, v, Flatten(items), st);
    case Word(w) =>
      assert ([w] + Flatten(items))[1..] == Flatten(items);
      assert items == [] ==> Flatten(items) == [];
      assert ([x] + items)[0] == Word(w);
  }

  function AfterItem(x: Item, st: State): State
    requires x.Pair? ==> IsFlag(x.flag)
    requires !BadNumber(x)
  {
    if x.Pair? then Apply(x.flag, x.value, st).value else st
  }

  lemma LastStateCons(x: Item, items: seq<Item>, st: State)
    requires (x.Pair? ==> IsFlag(x.flag)) && !BadNumber(x) && NumbersFine(items)
    ensures LastState([x] + items, st) == LastState(items, AfterItem(x, st))
  {
    LastCons(x, items, TypeFlag);
    LastCons(x, items, DatasetFlag);
    LastCons(x, items, TopKFlag);
    LastIsFine(items);
  }

  lemma {:induction false} LastIsFine(items: seq<Item>)
    requires NumbersFine(items)
    ensures Last(items, TopKFlag).Some? ==> PyInt(Last(items, TopKFlag).value).Some?
  {
    if items != [] { LastIsFine(items[..|items| - 1]); }
  }

  lemma {:induction false} RestOfItems(items: seq<Item>, st: State)
    requires WellFormed(items)
    ensures NumbersFine(items) ==> Rest(Flatten(items), st) == Ok(LastState(items, st))
    ensures forall i :: FirstBad(items, i) ==> Rest(Flatten(items), st) == Err(ValueError(items[i].value))
  {
    if items != [] {
      var x, more := items[0], items[1..];
      assert items == [x] + more;
      assert forall i :: 0 <= i < |more| ==> more[i] == items[i + 1];
      RestOfItem(x, more, st);
      if !BadNumber(x) {
        RestOfItems(more, AfterItem(x, st));
        if NumbersFine(items) { LastStateCons(x, more, st); }
        forall i | FirstBad(items, i) ensures FirstBad(more, i - 1) {
          assert forall j :: 0 <= j < i - 1 ==> more[j] == items[j + 1];
        }
      }
    }
  }

  /** On any argument list, read as flags with values and words to skip: the first
      `--top-k` value that is no integer is the error, and if there is none, the
      search uses the last value of each flag and the default where it has none. */
  lemma {:induction false} LastFlagWins(command: string, text: string, items: seq<Item>)
    requires WellFormed(items)
    ensures var r := Search([command, text] + Flatten(items));
            && (NumbersFine(items) ==> r == Ok(Finish(text, LastState(items, DEFAULTS))))
            && (forall i :: FirstBad(items, i) ==> r == Err(ValueError(items[i].value)))
  {
    var args := [command, text] + Flatten(items);
    assert args[2..] == Flatten(items);
    RestOfItems(items, DEFAULTS);
  }
}
