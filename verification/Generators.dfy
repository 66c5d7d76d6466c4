/** The two ways a Python generator becomes a task: collected eagerly (sync), and
    polled lazily through an unfolded stream (async). */
module Generators {
  import opened Wrappers

  datatype Error<E> = StopAsyncIteration | Raised(error: E) | CannotAttach

  /** What one `__next__` or one awaited `__anext__` gives. `Unawaitable` is an
      exception raised before there is anything to await. */
  datatype Answer<V, E> = Item(value: V) | Stopped | Threw(error: E) | Unawaitable(failure: Error<E>)

  /** A generator by its behaviour: it yields some items, then it returns or
      raises, and from then on it only stops. */
  datatype Script<V, E> = Script(items: seq<V>, failure: Option<E>)

  function AnswerAt<V, E>(s: Script<V, E>, call: nat): Answer<V, E> {
    if call < |s.items| then Item(s.items[call])
    else if call == |s.items| && s.failure.Some? then Threw(s.failure.value)
    else Stopped
  }

  // ----------------------------------------------------------- eager collection

  class Generator<V, E> {
    const script: Script<V, E>
    var calls: nat

    constructor (s: Script<V, E>)
      ensures script == s && calls == 0
    {
      script := s;
      calls := 0;
    }

    method Next() returns (a: Answer<V, E>)
      modifies this
      ensures calls == old(calls) + 1 && a == AnswerAt(script, old(calls))
    {
      calls := calls + 1;
      a := AnswerAt(script, calls - 1);
    }
  }

  /** `make_sync_iter_task` once the callable was called: `made` is the generator,
      or the error of attaching, of calling, or of asking for an iterator. */
  method CollectEagerly<V, E>(made: Result<Generator<V, E>, Error<E>>) returns (r: Result<seq<V>, Error<E>>)
    requires made.Ok? ==> made.value.calls == 0
    modifies if made.Ok? then {made.value} else {}
    ensures made.Err? ==> r == Err(made.error)
    ensures made.Ok? ==> r == Eager(made.value.script) && made.value.calls == |made.value.script.items| + 1
  {
    if made.Err? {
      return Err(made.error);
    }
    var generator := made.value;
    var items := [];
    var done := false;
    while !done
      invariant generator.calls == if done then |generator.script.items| + 1 else |items|
      invariant |items| <= |generator.script.items| && items == generator.script.items[..|items|]
      invariant done ==> |items| == |generator.script.items| && generator.script.failure.None?
      decreases |generator.script.items| - |items|, if done then 0 else 1
    {
      var a := generator.Next();
      match a
      case Item(v) => items := items + [v];
      case Stopped => done := true;
      case Threw(e) => return Err(Raised(e));
    }
    assert items == generator.script.items;
    return Ok(items);
  }

  /** All items, or only the error. */
  function Eager<V, E>(s: Script<V, E>): Result<seq<V>, Error<E>> {
    if s.failure.Some? then Err(Raised(s.failure.value)) else Ok(s.items)
  }

  // --------------------------------------------------------------- lazy stream

  /** Whether the interpreter can be attached to at the call and at the
      classification of each poll. */
  datatype Interpreter = Interpreter(atCall: nat -> bool, atClassification: nat -> bool)

  /** `calls` counts the `__anext__` calls. An ended stream must not be polled. */
  datatype Position = Position(polls: nat, calls: nat, ended: bool)

  type Polled<V, E> = Option<Result<V, Error<E>>>

  /** `drive_async_gen_next` on the answer to the call. */
  function Drive<V, E>(a: Answer<V, E>, canClassify: bool): Polled<V, E> {
    match a
    case Item(v) => Some(Ok(v))
    case Stopped => if canClassify then None else Some(Err(StopAsyncIteration))
    case Threw(e) => Some(Err(Raised(e)))
    case Unawaitable(e) => Some(Err(e))
  }

  /** What a poll gives, from any source of answers. */
  function Outcome<V, E>(answers: nat -> Answer<V, E>, py: Interpreter, p: Position): Polled<V, E> {
    if py.atCall(p.polls) then Drive(answers(p.calls), py.atClassification(p.polls)) else Some(Err(CannotAttach))
  }

  function After<V, E>(answers: nat -> Answer<V, E>, py: Interpreter, p: Position): Position {
    Position(p.polls + 1,
             if py.atCall(p.polls) then p.calls + 1 else p.calls,
             Outcome(answers, py, p).None?)
  }

  class Stream<V, E> {
    const answers: nat -> Answer<V, E>
    const py: Interpreter
    var at: Position

    constructor (answers: nat -> Answer<V, E>, py: Interpreter)
      ensures this.answers == answers && this.py == py && at == Position(0, 0, false)
    {
      this.answers := answers;
      this.py := py;
      at := Position(0, 0, false);
    }

    /** `__anext__`. */
    method CallAnext() returns (a: Answer<V, E>)
      modifies this
      ensures a == answers(old(at).calls) && at == old(at).(calls := old(at).calls + 1)
    {
      a := answers(at.calls);
      at := at.(calls := at.calls + 1);
    }

    /** One poll of the unfolded stream. */
    method Poll() returns (r: Polled<V, E>)
      requires !at.ended
      modifies this
      ensures r == Outcome(answers, py, old(at)) && at == After(answers, py, old(at))
    {
      var poll := at.polls;
      at := at.(polls := poll + 1);
      if !py.atCall(poll) {
        return Some(Err(CannotAttach));
      }
      var a := CallAnext();
      match a
      case Unawaitable(e) => r := Some(Err(e));
      case Item(v) => r := Some(Ok(v));
      case Threw(e) => r := Some(Err(Raised(e)));
      case Stopped =>
        if py.atClassification(poll) {
          r := None;
          at := at.(ended := true);
        } else {
          r := Some(Err(StopAsyncIteration));
        }
    }
  }

  /** The position after `n` polls; an ended stream is left alone. */
  function PositionAfter<V, E>(answers: nat -> Answer<V, E>, py: Interpreter, n: nat): Position {
    if n == 0 then Position(0, 0, false)
    else
      var p := PositionAfter(answers, py, n - 1);
      if p.ended then p else After(answers, py, p)
  }

  // -------------------------------------------------------------- main results

  /** How many of the first `n` polls could attach for the call. */
  function Attached(py: Interpreter, n: nat): nat {
    if n == 0 then 0 else Attached(py, n - 1) + if py.atCall(n - 1) then 1 else 0
  }

  /** Until the stream ends, every poll that can attach makes exactly one
      `__anext__` call; with the interpreter attachable, `n` polls make `n`. */
  lemma {:induction false} CallsMade<V, E>(answers: nat -> Answer<V, E>, py: Interpreter, n: nat)
    requires n == 0 || !PositionAfter(answers, py, n - 1).ended
    ensures PositionAfter(answers, py, n).polls == n
    ensures PositionAfter(answers, py, n).calls == Attached(py, n) <= n
    ensures (forall i: nat :: i < n ==> py.atCall(i)) <==> PositionAfter(answers, py, n).calls == n
  {
    if n > 0 {
      NotEndedBefore(answers, py, n - 1);
      CallsMade(answers, py, n - 1);
      assert (forall i: nat :: i < n ==> py.atCall(i))
        <==> (forall i: nat :: i < n - 1 ==> py.atCall(i)) && py.atCall(n - 1);
    }
  }

  lemma NotEndedBefore<V, E>(answers: nat -> Answer<V, E>, py: Interpreter, n: nat)
    requires !PositionAfter(answers, py, n).ended
    ensures n == 0 || !PositionAfter(answers, py, n - 1).ended
  {
  }

  /** The stream ends at a poll if and only if the generator was called there, it
      stopped, and the interpreter was there to tell. */
  lemma EndsOnlyOnStop<V, E>(answers: nat -> Answer<V, E>, py: Interpreter, p: Position)
    ensures Outcome(answers, py, p) == None <==>
              py.atCall(p.polls) && answers(p.calls) == Stopped && py.atClassification(p.polls)
  {
  }

  /** Nothing is swallowed or mixed up: a poll's answer tells what happened. It is an
      item exactly when the generator yielded that item; it is an error exactly when the
      interpreter was not there for the call, the generator raised that error, the call
      itself failed with it, or the generator stopped with no interpreter to tell. */
  lemma PollTells<V, E>(answers: nat -> Answer<V, E>, py: Interpreter, p: Position, v: V, e: Error<E>)
    ensures Outcome(answers, py, p) == Some(Ok(v)) <==> py.atCall(p.polls) && answers(p.calls) == Item(v)
    ensures Outcome(answers, py, p) == Some(Err(e)) <==>
              || (!py.atCall(p.polls) && e == CannotAttach)
              || (py.atCall(p.polls) && answers(p.calls) == Unawaitable(e))
              || (py.atCall(p.polls) && answers(p.calls).Threw? && e == Raised(answers(p.calls).error))
              || (py.atCall(p.polls) && answers(p.calls) == Stopped && !py.atClassification(p.polls)
                  && e == StopAsyncIteration)
  {
  }

  /** Poll `k` is the one that ends the stream. */
  ghost predicate EndsAt<V, E>(answers: nat -> Answer<V, E>, py: Interpreter, k: nat) {
    var p := PositionAfter(answers, py, k);
    !p.ended && py.atCall(k) && answers(p.calls) == Stopped && py.atClassification(k)
  }

  /** After `n` polls the stream has ended if and only if the generator stopped at
      one of them with the interpreter there to tell. No error ends it. */
  lemma {:induction false} EndedIff<V, E>(answers: nat -> Answer<V, E>, py: Interpreter, n: nat)
    ensures PositionAfter(answers, py, n).ended <==> exists k: nat :: k < n && EndsAt(answers, py, k)
  {
    if n > 0 {
      EndedIff(answers, py, n - 1);
      var p := PositionAfter(answers, py, n - 1);
      if !p.ended {
        CallsMade(answers, py, n - 1) by { if n > 1 { NotEndedBefore(answers, py, n - 1); } }
        EndsOnlyOnStop(answers, py, p);
        assert p.polls == n - 1;
        assert PositionAfter(answers, py, n).ended <==> EndsAt(answers, py, n - 1);
      }
    }
  }

  function ScriptAnswers<V, E>(s: Script<V, E>): nat -> Answer<V, E> {
    (call: nat) => AnswerAt(s, call)
  }

  ghost predicate Attachable(py: Interpreter) {
    forall i: nat :: py.atCall(i) && py.atClassification(i)
  }

  /** The interpreter can be attached to for every call. */
  ghost predicate Callable(py: Interpreter) {
    forall i: nat :: py.atCall(i)
  }

  lemma {:induction false} PrefixPositions<V, E>(s: Script<V, E>, py: Interpreter, n: nat)
    requires Callable(py) && n <= |s.items|
    ensures PositionAfter(ScriptAnswers(s), py, n) == Position(n, n, false)
  {
    if n > 0 {
      PrefixPositions(s, py, n - 1);
      assert py.atCall(n - 1);
    }
  }

  /** The answer to poll `n`. */
  function PollAt<V, E>(s: Script<V, E>, py: Interpreter, n: nat): Polled<V, E> {
    Outcome(ScriptAnswers(s), py, PositionAfter(ScriptAnswers(s), py, n))
  }

  /** The stream gives the generator's items in order. Then a generator that raised
      gives its error, never a silent end; one that returned ends the stream, or
      gives an error when the interpreter is gone. */
  lemma PollsFollowScript<V, E>(s: Script<V, E>, py: Interpreter, n: nat)
    requires Callable(py) && n <= |s.items|
    ensures PollAt(s, py, n) == if n < |s.items| then Some(Ok(s.items[n])) else LastPoll(s, py)
  {
    PrefixPositions(s, py, n);
    assert py.atCall(n);
  }

  function LastPoll<V, E>(s: Script<V, E>, py: Interpreter): (r: Polled<V, E>)
    ensures r.Some? ==> r.value.Err?
  {
    if s.failure.Some? then Some(Err(Raised(s.failure.value)))
    else if py.atClassification(|s.items|) then None
    else Some(Err(StopAsyncIteration))
  }

  /** What a consumer that polls up to the first error or the end has from poll `n`
      on. */
  function Drained<V, E>(s: Script<V, E>, py: Interpreter, n: nat): (seq<V>, Option<Error<E>>)
    requires n <= |s.items|
    decreases |s.items| - n
  {
    match PollAt(s, py, n)
    case None => ([], None)
    case Some(Err(e)) => ([], Some(e))
    case Some(Ok(v)) =>
      if n == |s.items| then ([v], None)
      else var (more, error) := Drained(s, py, n + 1); ([v] + more, error)
  }

  lemma {:induction false} DrainedFrom<V, E>(s: Script<V, E>, py: Interpreter, n: nat)
    requires Callable(py) && n <= |s.items|
    ensures Drained(s, py, n).0 == s.items[n..]
    ensures Drained(s, py, n).1 == if LastPoll(s, py).None? then None else Some(LastPoll(s, py).value.error)
    decreases |s.items| - n
  {
    PollsFollowScript(s, py, n);
    if n < |s.items| { DrainedFrom(s, py, n + 1); }
  }

  /** With the interpreter attachable, draining the stream and collecting eagerly
      agree: the same list, and if the generator raises, the same error, which
      the stream gives after the items and the eager task gives alone. */
  lemma LazyAgreesWithEager<V, E>(s: Script<V, E>, py: Interpreter)
    requires Attachable(py)
    ensures Drained(s, py, 0).0 == s.items
    ensures Eager(s) == if Drained(s, py, 0).1.Some? then Err(Drained(s, py, 0).1.value) else Ok(Drained(s, py, 0).0)
  {
    assert Callable(py) by {
      forall i: nat ensures py.atCall(i) { }
    }
    DrainedFrom(s, py, 0);
  }
}
