/** The state of the Python machine read off the calls that led to it: what the
    builders have written, and what a run finds at launch. */
module PyHistory {
  import opened Wrappers
  import opened PipelineModel
  import opened PyPipeline

  /** The arguments a builder accepts. */
  predicate Accepted(b: Build) {
    match b
    case AddTask(_, _, batchSize, _) => batchSize != Some(0)
    case Retry(n, _) => n > 0
    case RetryExponential(n, _, _) => n > 0
    case Name(_) => true
    case BatchSize(_) => true
    case Concurrency(_) => true
  }

  /** Label `j` is a builder call on `o` that takes effect: its argument is accepted
      and no `execute_sync` run borrows the object. */
  ghost predicate Takes(ls: seq<PyLabel>, j: int, o: nat) {
    && 0 <= j < |ls| && ls[j].PBuild? && ls[j].o == o && Accepted(ls[j].b)
    && o in PyExec(ls[..j]).objs && forall r :: !Borrows(PyExec(ls[..j]), r, o)
  }

  lemma TakesPrefix(ls: seq<PyLabel>, n: nat, j: int, o: nat)
    requires j < n <= |ls|
    ensures Takes(ls[..n], j, o) <==> Takes(ls, j, o)
  {
    if 0 <= j { assert ls[..n][..j] == ls[..j]; }
  }

  /** The entry a builder adds: its arguments, and the defaults of a new entry. */
  predicate EntryOf(info: TaskInfo, b: Build) {
    && b.AddTask? && info.task == b.task && info.name == b.taskName && info.batchSize == b.batchSize
    && info.weight == b.weight && info.summary == None && !info.enriches && info.limiter == None
  }

  /** The positions of the calls on `o` that added a task, in order. */
  ghost function Additions(ls: seq<PyLabel>, o: nat): seq<nat> {
    if ls == [] then []
    else
      var n := |ls| - 1;
      Additions(ls[..n], o) + (if Takes(ls, n, o) && ls[n].b.AddTask? then [n] else [])
  }

  lemma {:induction false} AdditionsIff(ls: seq<PyLabel>, o: nat, j: nat)
    ensures j in Additions(ls, o) <==> Takes(ls, j, o) && ls[j].b.AddTask?
  {
    if ls != [] {
      var n := |ls| - 1;
      AdditionsIff(ls[..n], o, j);
      if j < n { TakesPrefix(ls, n, j, o); }
    }
  }

  lemma {:induction false} AdditionsInOrder(ls: seq<PyLabel>, o: nat)
    ensures forall i :: 0 <= i < |Additions(ls, o)| ==> Additions(ls, o)[i] < |ls|
    ensures forall i, j :: 0 <= i < j < |Additions(ls, o)| ==> Additions(ls, o)[i] < Additions(ls, o)[j]
  {
    if ls != [] { AdditionsInOrder(ls[..|ls| - 1], o); }
  }

  datatype Field = FName | FBatchSize | FConcurrency | FRetry

  predicate Sets(b: Build, f: Field) {
    match f
    case FName => b.Name?
    case FBatchSize => b.BatchSize?
    case FConcurrency => b.Concurrency?
    case FRetry => b.Retry? || b.RetryExponential?
  }

  /** The record has what the call asked for. */
  predicate Agrees(b: Build, p: Pipeline) {
    match b
    case Name(s) => p.name == Some(s)
    case AddTask(_, _, _, _) => true
    case Retry(n, ms) => p.retry == Limited(n, Constant(ms))
    case RetryExponential(n, ms, factor) => p.retry == Limited(n, Exponential(ms, factor))
    case BatchSize(n) => p.batchSize == n
    case Concurrency(n) => p.concurrency == n
  }

  predicate Untouched(p: Pipeline, f: Field) {
    match f
    case FName => p.name == None
    case FBatchSize => p.batchSize == 32
    case FConcurrency => p.concurrency == 1
    case FRetry => p.retry == NoRetry
  }

  predicate SameField(a: Pipeline, b: Pipeline, f: Field) {
    match f
    case FName => a.name == b.name
    case FBatchSize => a.batchSize == b.batchSize
    case FConcurrency => a.concurrency == b.concurrency
    case FRetry => a.retry == b.retry
  }

  /** What no builder can set. */
  predicate Plain(p: Pipeline) {
    p.dataId == None && p.telemetry == None && p.limiter == None && p.recoveryLock == None
  }

  predicate Written(a: Pipeline, b: Build, c: Pipeline) {
    && Agrees(b, c) && (forall f :: !Sets(b, f) ==> SameField(a, c, f)) && (Plain(a) ==> Plain(c))
    && (b.AddTask? ==> |c.tasks| == |a.tasks| + 1 && c.tasks[..|a.tasks|] == a.tasks && EntryOf(c.tasks[|a.tasks|], b))
    && (!b.AddTask? ==> c.tasks == a.tasks)
  }

  lemma BuiltWritten(p: Pipeline, b: Build)
    requires Accepted(b)
    ensures Written(p, b, Built(p, b)) && BuildReply(b) == Done
  {
  }

  /** A builder whose argument is not accepted changes nothing and says why. */
  lemma RefusedChangesNothing(p: Pipeline, b: Build)
    requires !Accepted(b)
    ensures Built(p, b) == p && BuildReply(b) == if b.AddTask? then Panicked else NotPositive
  {
  }

  /** What the last label did to the record. */
  lemma LastLabel(ls: seq<PyLabel>, o: nat)
    requires ls != [] && o in PyExec(ls).objs
    ensures var s, n := PyExec(ls[..|ls| - 1]), |ls| - 1;
            var inner := PyExec(ls).objs[o];
            && (o !in s.objs ==> (forall f :: Untouched(inner, f)) && inner.tasks == [] && Plain(inner))
            && (o in s.objs && Takes(ls, n, o) ==> Written(s.objs[o], ls[n].b, inner))
            && (o in s.objs && !Takes(ls, n, o) ==> inner == s.objs[o])
  {
    var n := |ls| - 1;
    if ls[n].PBuild? && ls[n].o == o && o in PyExec(ls[..n]).objs {
      if Accepted(ls[n].b) {
        BuiltWritten(PyExec(ls[..n]).objs[o], ls[n].b);
      } else {
        RefusedChangesNothing(PyExec(ls[..n]).objs[o], ls[n].b);
      }
    }
  }

  lemma ObjectsStay(s: PyState, l: PyLabel, o: nat)
    requires o in s.objs
    ensures o in PyNext(s, l).objs
  {
    match l case _ =>
  }

  lemma {:induction false} NothingBeforeBirth(ls: seq<PyLabel>, o: nat)
    requires o !in PyExec(ls).objs
    ensures Additions(ls, o) == [] && forall j :: !Takes(ls, j, o)
  {
    if ls != [] {
      var n := |ls| - 1;
      if o in PyExec(ls[..n]).objs { ObjectsStay(PyExec(ls[..n]), ls[n], o); }
      NothingBeforeBirth(ls[..n], o);
      forall j ensures !Takes(ls, j, o) {
        if j < n { TakesPrefix(ls, n, j, o); }
      }
    }
  }

  /** The entries are those of the calls at `at`, in that order. */
  ghost predicate EntriesOf(ls: seq<PyLabel>, at: seq<nat>, tasks: seq<TaskInfo>) {
    && |tasks| == |at|
    && forall i :: 0 <= i < |at| ==> at[i] < |ls| && ls[at[i]].PBuild? && EntryOf(tasks[i], ls[at[i]].b)
  }

  /** The task list of an object has one entry for each call that added a task, in the
      order of the calls. */
  lemma {:induction false} TaskHistory(ls: seq<PyLabel>, o: nat)
    requires o in PyExec(ls).objs
    ensures EntriesOf(ls, Additions(ls, o), PyExec(ls).objs[o].tasks) && Plain(PyExec(ls).objs[o])
  {
    var n, tasks := |ls| - 1, PyExec(ls).objs[o].tasks;
    LastLabel(ls, o);
    if o in PyExec(ls[..n]).objs {
      TaskHistory(ls[..n], o);
      var before := PyExec(ls[..n]).objs[o].tasks;
      if Takes(ls, n, o) && ls[n].b.AddTask? {
        EntryAdded(ls, Additions(ls[..n], o), before, tasks);
      } else {
        EntriesKept(ls, Additions(ls[..n], o), before);
      }
    } else {
      NothingBeforeBirth(ls[..n], o);
    }
  }

  lemma EntriesKept(ls: seq<PyLabel>, at: seq<nat>, tasks: seq<TaskInfo>)
    requires ls != [] && EntriesOf(ls[..|ls| - 1], at, tasks)
    ensures EntriesOf(ls, at, tasks)
  {
  }

  lemma EntryAdded(ls: seq<PyLabel>, at: seq<nat>, tasks: seq<TaskInfo>, tasks': seq<TaskInfo>)
    requires ls != [] && EntriesOf(ls[..|ls| - 1], at, tasks) && ls[|ls| - 1].PBuild?
    requires |tasks'| == |tasks| + 1 && tasks'[..|tasks|] == tasks && EntryOf(tasks'[|tasks|], ls[|ls| - 1].b)
    ensures EntriesOf(ls, at + [|ls| - 1], tasks')
  {
    EntriesKept(ls, at, tasks);
    assert forall i :: 0 <= i < |tasks| ==> tasks'[i] == tasks'[..|tasks|][i];
  }

  ghost predicate Writes(ls: seq<PyLabel>, j: int, o: nat, f: Field) {
    Takes(ls, j, o) && Sets(ls[j].b, f)
  }

  ghost predicate LastWrite(ls: seq<PyLabel>, j: int, o: nat, f: Field) {
    Writes(ls, j, o, f) && forall k :: j < k ==> !Writes(ls, k, o, f)
  }

  /** The field has the argument of the last call that wrote it, or the default. */
  ghost predicate FieldFrom(ls: seq<PyLabel>, o: nat, f: Field, p: Pipeline) {
    || (exists j :: LastWrite(ls, j, o, f) && Agrees(ls[j].b, p))
    || ((forall j :: !Writes(ls, j, o, f)) && Untouched(p, f))
  }

  lemma AgreesKept(b: Build, f: Field, a: Pipeline, c: Pipeline)
    requires Sets(b, f) && SameField(a, c, f) && Agrees(b, a)
    ensures Agrees(b, c)
  {
  }

  lemma FieldKept(ls: seq<PyLabel>, o: nat, f: Field, a: Pipeline, b: Pipeline)
    requires ls != [] && !Writes(ls, |ls| - 1, o, f)
    requires FieldFrom(ls[..|ls| - 1], o, f, a) && SameField(a, b, f)
    ensures FieldFrom(ls, o, f, b)
  {
    var n := |ls| - 1;
    forall k ensures Writes(ls, k, o, f) <==> Writes(ls[..n], k, o, f) {
      if k < n { TakesPrefix(ls, n, k, o); }
    }
    if j :| LastWrite(ls[..n], j, o, f) && Agrees(ls[..n][j].b, a) {
      assert Writes(ls, j, o, f);
      AgreesKept(ls[j].b, f, a, b);
      assert LastWrite(ls, j, o, f);
    }
  }

  lemma FieldNew(ls: seq<PyLabel>, o: nat, f: Field, p: Pipeline)
    requires ls != [] && o !in PyExec(ls[..|ls| - 1]).objs && Untouched(p, f)
    ensures FieldFrom(ls, o, f, p)
  {
    var n := |ls| - 1;
    NothingBeforeBirth(ls[..n], o);
    forall j ensures !Writes(ls, j, o, f) {
      if j < n { TakesPrefix(ls, n, j, o); }
    }
  }

  /** Each setting of an object is the argument of the last call that set it, or the
      default of a new pipeline. */
  lemma {:induction false} FieldHistory(ls: seq<PyLabel>, o: nat, f: Field)
    requires o in PyExec(ls).objs
    ensures FieldFrom(ls, o, f, PyExec(ls).objs[o])
  {
    var n, p := |ls| - 1, PyExec(ls).objs[o];
    LastLabel(ls, o);
    if o !in PyExec(ls[..n]).objs {
      FieldNew(ls, o, f, p);
    } else if Writes(ls, n, o, f) {
      assert LastWrite(ls, n, o, f);
    } else {
      FieldHistory(ls[..n], o, f);
      FieldKept(ls, o, f, PyExec(ls[..n]).objs[o], p);
    }
  }

  /** A run on a bad record reads nothing. */
  lemma {:induction false} BadRecordReadsNothing(ls: seq<PyLabel>, r: nat)
    requires r in PyExec(ls).runs && Bad(PyExec(ls).runs[r].launched)
    ensures PyExec(ls).runs[r].seen == []
  {
    var n := |ls| - 1;
    PyInvReachable(ls[..n]);
    if r in PyExec(ls[..n]).runs { BadRecordReadsNothing(ls[..n], r); }
  }

  /** A read appends the task at that index of the launch record. */
  lemma ReadAppends(ls: seq<PyLabel>, r: nat, i: nat)
    requires r in PyExec(ls).runs && !PyExec(ls).runs[r].over
    requires !Bad(PyExec(ls).runs[r].launched) && i < |PyExec(ls).runs[r].launched.tasks|
    ensures r in PyExec(ls + [PRead(r, i)]).runs
    ensures var run, run' := PyExec(ls).runs[r], PyExec(ls + [PRead(r, i)]).runs[r];
            && |run'.seen| == |run.seen| + 1 && run'.seen[..|run.seen|] == run.seen
            && ObsOf(run.launched, run'.seen[|run.seen|]) && run'.seen[|run.seen|].index == i
  {
    PyInvReachable(ls);
    assert (ls + [PRead(r, i)])[..|ls|] == ls;
  }
}
