/** The protocol state read off the interleaving that led to it: what the setters
    have written, which calls have been made, and what a run finds at launch. Nothing
    here is said in terms of how a step is computed. */
module ProtocolHistory {
  import opened Wrappers
  import opened PipelineModel
  import opened Protocol
  import opened ProtocolInvariant
  import opened ProtocolTheorems

  // ------------------------------------------------------------------- the calls

  /** Label `j` was a step that could be taken. */
  ghost predicate Happens(ls: seq<Label>, j: int) {
    0 <= j < |ls| && Enabled(Exec(ls[..j]), ls[j])
  }

  lemma HappensPrefix(ls: seq<Label>, n: nat, j: int)
    requires j < n <= |ls|
    ensures Happens(ls[..n], j) <==> Happens(ls, j)
  {
    if 0 <= j { assert ls[..n][..j] == ls[..j]; }
  }

  /** The calls and steps that have been taken. */
  ghost function Calls(ls: seq<Label>): iset<Label> {
    if ls == [] then iset{}
    else
      var n := |ls| - 1;
      Calls(ls[..n]) + (if Enabled(Exec(ls[..n]), ls[n]) then iset{ls[n]} else iset{})
  }

  lemma {:induction false} CallsContain(ls: seq<Label>, j: int)
    requires Happens(ls, j)
    ensures ls[j] in Calls(ls)
  {
    var n := |ls| - 1;
    if j < n {
      HappensPrefix(ls, n, j);
      CallsContain(ls[..n], j);
    }
  }

  lemma {:induction false} CallsCome(ls: seq<Label>, l: Label) returns (j: int)
    requires l in Calls(ls)
    ensures Happens(ls, j) && ls[j] == l
  {
    var n := |ls| - 1;
    if l in Calls(ls[..n]) {
      j := CallsCome(ls[..n], l);
      HappensPrefix(ls, n, j);
    } else {
      j := n;
    }
  }

  /** They are the labels that could be taken when their turn came. */
  lemma CallsIff(ls: seq<Label>, l: Label)
    ensures l in Calls(ls) <==> exists j :: Happens(ls, j) && ls[j] == l
  {
    if l in Calls(ls) { var j := CallsCome(ls, l); }
    if j :| Happens(ls, j) && ls[j] == l { CallsContain(ls, j); }
  }

  // ------------------------------------------------------------------ the setters

  /** The arguments a setter accepts. */
  predicate Acceptable(op: Setter) {
    match op
    case SetName(c) => c.Utf8?
    case AddTask(info) => info.Some?
    case SetBatchSize(size) => size > 0
    case SetConcurrency(n) => n > 0
    case SetRetryNone => true
    case SetRetryLimited(n, _) => n > 0
    case SetDataId(_) => true
  }

  /** Label `j` is a setter call on `p` that takes effect: its argument is acceptable
      and no run holds the pipeline. */
  ghost predicate Takes(ls: seq<Label>, j: int, p: nat) {
    && Happens(ls, j) && ls[j].Set? && ls[j].p == p && Acceptable(ls[j].op)
    && forall r :: !HoldsPipe(Exec(ls[..j]), r, p)
  }

  lemma TakesPrefix(ls: seq<Label>, n: nat, j: int, p: nat)
    requires j < n <= |ls|
    ensures Takes(ls[..n], j, p) <==> Takes(ls, j, p)
  {
    HappensPrefix(ls, n, j);
    if 0 <= j { assert ls[..n][..j] == ls[..j]; }
  }

  /** The tasks of the `AddTask` calls on `p` that took effect, in the order of the
      calls. */
  ghost function AddedTasks(ls: seq<Label>, p: nat): seq<TaskInfo> {
    if ls == [] then []
    else
      var n := |ls| - 1;
      AddedTasks(ls[..n], p) + (if Takes(ls, n, p) && ls[n].op.AddTask? then [ls[n].op.info.value] else [])
  }

  datatype Field = FName | FBatchSize | FConcurrency | FRetry | FDataId

  predicate Sets(op: Setter, f: Field) {
    match f
    case FName => op.SetName?
    case FBatchSize => op.SetBatchSize?
    case FConcurrency => op.SetConcurrency?
    case FRetry => op.SetRetryNone? || op.SetRetryLimited?
    case FDataId => op.SetDataId?
  }

  /** The record has what the call asked for. */
  predicate Agrees(op: Setter, p: Pipeline) {
    match op
    case SetName(c) => c.Utf8? && p.name == Some(c.text)
    case AddTask(_) => true
    case SetBatchSize(size) => p.batchSize == size
    case SetConcurrency(n) => p.concurrency == n
    case SetRetryNone => p.retry == NoRetry
    case SetRetryLimited(n, delay) => p.retry == Limited(n, delay)
    case SetDataId(ud) => p.dataId == Some(ud)
  }

  /** The field is as in a new pipeline. */
  predicate Untouched(p: Pipeline, f: Field) {
    match f
    case FName => p.name == None
    case FBatchSize => p.batchSize == 32
    case FConcurrency => p.concurrency == 1
    case FRetry => p.retry == NoRetry
    case FDataId => p.dataId == None
  }

  predicate SameField(a: Pipeline, b: Pipeline, f: Field) {
    match f
    case FName => a.name == b.name
    case FBatchSize => a.batchSize == b.batchSize
    case FConcurrency => a.concurrency == b.concurrency
    case FRetry => a.retry == b.retry
    case FDataId => a.dataId == b.dataId
  }

  /** `b` differs from `a` at most in the field (or the task list) the call is about. */
  predicate Written(a: Pipeline, op: Setter, b: Pipeline) {
    && Agrees(op, b)
    && (forall f :: !Sets(op, f) ==> SameField(a, b, f))
    && b.tasks == (if op.AddTask? && op.info.Some? then a.tasks + [op.info.value] else a.tasks)
    && b.id == a.id && b.description == a.description
    && b.telemetry == a.telemetry && b.limiter == a.limiter && b.recoveryLock == a.recoveryLock
  }

  /** What a label does to the record of `p`: it makes a new one, a setter that takes
      effect writes it, and nothing else touches it. */
  lemma RecordStep(s: State, l: Label, p: nat)
    requires Enabled(s, l) && p in Effect(s, l).pipes
    ensures p !in s.pipes ==>
              && l.NewPipe? && l.p == p && (forall f :: Untouched(Effect(s, l).pipes[p].inner, f))
              && Effect(s, l).pipes[p].inner.tasks == []
    ensures p in s.pipes ==>
              if l.Set? && l.p == p && Acceptable(l.op) && forall r :: !HoldsPipe(s, r, p)
              then Written(s.pipes[p].inner, l.op, Effect(s, l).pipes[p].inner)
              else Effect(s, l).pipes[p].inner == s.pipes[p].inner
  {
    if p in s.pipes && l.Set? && l.p == p {
      AcceptableIsApplied(s, p, l.op);
    }
  }

  lemma AcceptableIsApplied(s: State, p: nat, op: Setter)
    requires p in s.pipes
    ensures SetVerdict(s, p, op) == Applied <==> Acceptable(op) && forall r :: !HoldsPipe(s, r, p)
  {
  }

  lemma {:induction false} NothingBeforeBirth(ls: seq<Label>, p: nat)
    requires p !in Exec(ls).pipes
    ensures AddedTasks(ls, p) == [] && forall j :: !Takes(ls, j, p)
  {
    if ls != [] {
      var n := |ls| - 1;
      if Enabled(Exec(ls[..n]), ls[n]) { StepFrame(Exec(ls[..n]), ls[n]); }
      NothingBeforeBirth(ls[..n], p);
      forall j ensures !Takes(ls, j, p) {
        if j < n { TakesPrefix(ls, n, j, p); }
      }
    }
  }

  ghost predicate Writes(ls: seq<Label>, j: int, p: nat, f: Field) {
    Takes(ls, j, p) && Sets(ls[j].op, f)
  }

  ghost predicate LastWrite(ls: seq<Label>, j: int, p: nat, f: Field) {
    Writes(ls, j, p, f) && forall k :: j < k ==> !Writes(ls, k, p, f)
  }

  /** The field has the argument of the last call that wrote it, or the default. */
  ghost predicate FieldFrom(ls: seq<Label>, p: nat, f: Field, inner: Pipeline) {
    || (exists j :: LastWrite(ls, j, p, f) && Agrees(ls[j].op, inner))
    || ((forall j :: !Writes(ls, j, p, f)) && Untouched(inner, f))
  }

  lemma WritesPrefix(ls: seq<Label>, n: nat, j: int, p: nat, f: Field)
    requires j < n <= |ls|
    ensures Writes(ls[..n], j, p, f) <==> Writes(ls, j, p, f)
  {
    TakesPrefix(ls, n, j, p);
  }

  lemma AgreesKept(op: Setter, f: Field, a: Pipeline, b: Pipeline)
    requires Sets(op, f) && SameField(a, b, f) && Agrees(op, a)
    ensures Agrees(op, b)
  {
  }

  /** A field that the last label does not write keeps its history. */
  lemma FieldKept(ls: seq<Label>, p: nat, f: Field, a: Pipeline, b: Pipeline)
    requires ls != [] && !Writes(ls, |ls| - 1, p, f)
    requires FieldFrom(ls[..|ls| - 1], p, f, a) && SameField(a, b, f)
    ensures FieldFrom(ls, p, f, b)
  {
    var n := |ls| - 1;
    forall k ensures Writes(ls, k, p, f) <==> Writes(ls[..n], k, p, f) {
      if k < n { WritesPrefix(ls, n, k, p, f); }
    }
    if j :| LastWrite(ls[..n], j, p, f) && Agrees(ls[..n][j].op, a) {
      assert Writes(ls, j, p, f);
      AgreesKept(ls[j].op, f, a, b);
      assert LastWrite(ls, j, p, f);
    }
  }

  lemma FieldNew(ls: seq<Label>, p: nat, f: Field, inner: Pipeline)
    requires ls != [] && p !in Exec(ls[..|ls| - 1]).pipes && Untouched(inner, f)
    ensures FieldFrom(ls, p, f, inner)
  {
    var n := |ls| - 1;
    NothingBeforeBirth(ls[..n], p);
    forall j ensures !Writes(ls, j, p, f) {
      if j < n { WritesPrefix(ls, n, j, p, f); }
    }
  }

  lemma FieldWritten(ls: seq<Label>, p: nat, f: Field, inner: Pipeline)
    requires ls != [] && Writes(ls, |ls| - 1, p, f) && Agrees(ls[|ls| - 1].op, inner)
    ensures FieldFrom(ls, p, f, inner)
  {
    assert LastWrite(ls, |ls| - 1, p, f);
  }

  /** What the last label did to the record. */
  lemma LastLabel(ls: seq<Label>, p: nat)
    requires ls != [] && p in Exec(ls).pipes
    ensures var s, n := Exec(ls[..|ls| - 1]), |ls| - 1;
            var inner := Exec(ls).pipes[p].inner;
            && (p !in s.pipes ==> (forall f :: Untouched(inner, f)) && inner.tasks == [])
            && (p in s.pipes && Takes(ls, n, p) ==> Written(s.pipes[p].inner, ls[n].op, inner))
            && (p in s.pipes && !Takes(ls, n, p) ==> inner == s.pipes[p].inner)
  {
    var s, n := Exec(ls[..|ls| - 1]), |ls| - 1;
    if Enabled(s, ls[n]) { RecordStep(s, ls[n], p); }
  }

  /** The task list of a record is the list of the tasks added to it, in the order in
      which they were added. */
  lemma {:induction false} TaskHistory(ls: seq<Label>, p: nat)
    requires p in Exec(ls).pipes
    ensures Exec(ls).pipes[p].inner.tasks == AddedTasks(ls, p)
  {
    var n := |ls| - 1;
    LastLabel(ls, p);
    if p in Exec(ls[..n]).pipes { TaskHistory(ls[..n], p); } else { NothingBeforeBirth(ls[..n], p); }
  }

  /** Each setting of a record is the argument of the last call that set it, or the
      default of a new pipeline. */
  lemma {:induction false} FieldHistory(ls: seq<Label>, p: nat, f: Field)
    requires p in Exec(ls).pipes
    ensures FieldFrom(ls, p, f, Exec(ls).pipes[p].inner)
  {
    var n, inner := |ls| - 1, Exec(ls).pipes[p].inner;
    LastLabel(ls, p);
    if p !in Exec(ls[..n]).pipes {
      FieldNew(ls, p, f, inner);
    } else if Writes(ls, n, p, f) {
      FieldWritten(ls, p, f, inner);
    } else {
      FieldHistory(ls[..n], p, f);
      FieldKept(ls, p, f, Exec(ls[..n]).pipes[p].inner, inner);
    }
  }

  // ---------------------------------------------------------------------- the runs

  /** A run's fate from the calls about it: who launched it and how, whether it was
      aborted or detached, how it ended, and what it has released. */
  ghost predicate RunFrom(calls: iset<Label>, r: nat, run: Run) {
    && Launch(r, run.mode, run.pipe, run.watcher) in calls
    && (run.aborted <==> Abort(r) in calls)
    && (run.ticket == Detached <==> DestroyRunHandle(r) in calls)
    && (run.ticket == Held <==> run.mode == Background && Wait(r) !in calls && DestroyRunHandle(r) !in calls)
    && (forall out :: run.outcome == Some(out) <==> End(r, out) in calls)
    && (run.holdsPipe <==> ReleasePipe(r) !in calls)
    && (run.holdsWatcher <==> run.watcher.Some? && ReleaseWatcher(r) !in calls)
    && (run.reported <==> Complete(r) in calls)
  }

  /** Steps about one run. */
  predicate About(l: Label, r: nat) {
    Actor(l) == Some(r) || l == ReadDataId(r) || l == Emit(r)
  }

  lemma {:induction false} NothingBeforeLaunch(ls: seq<Label>, r: nat, l: Label)
    requires r !in Exec(ls).runs && About(l, r)
    ensures l !in Calls(ls)
  {
    if ls != [] {
      var n := |ls| - 1;
      if Enabled(Exec(ls[..n]), ls[n]) { StepFrame(Exec(ls[..n]), ls[n]); }
      NothingBeforeLaunch(ls[..n], r, l);
    }
  }

  /** What a step makes of a run. */
  predicate Moved(run: Run, l: Label, r: nat, run': Run) {
    && run'.mode == run.mode && run'.pipe == run.pipe && run'.watcher == run.watcher
    && run'.aborted == (run.aborted || l == Abort(r))
    && run'.ticket == (if l == Wait(r) then Awaited else if l == DestroyRunHandle(r) then Detached else run.ticket)
    && run'.outcome == (if l.End? && l.r == r then Some(l.outcome) else run.outcome)
    && run'.holdsPipe == (run.holdsPipe && l != ReleasePipe(r))
    && run'.holdsWatcher == (run.holdsWatcher && l != ReleaseWatcher(r))
    && run'.reported == (run.reported || l == Complete(r))
  }

  lemma RunMoves(s: State, l: Label, r: nat)
    requires Enabled(s, l) && r in s.runs
    ensures r in Effect(s, l).runs && Moved(s.runs[r], l, r, Effect(s, l).runs[r])
  {
    if Actor(l) != Some(r) { StepFrame(s, l); } else { OwnMove(s, l, r); }
  }

  lemma OwnMove(s: State, l: Label, r: nat)
    requires Enabled(s, l) && r in s.runs && Actor(l) == Some(r)
    ensures r in Effect(s, l).runs && Moved(s.runs[r], l, r, Effect(s, l).runs[r])
  {
  }

  lemma RunBegins(s: State, l: Label, r: nat)
    requires Enabled(s, l) && r !in s.runs && r in Effect(s, l).runs
    ensures var run := Effect(s, l).runs[r];
            && l == Launch(r, run.mode, run.pipe, run.watcher)
            && !run.aborted && run.outcome == None && run.holdsPipe && run.holdsWatcher == run.watcher.Some?
            && !run.reported && run.ticket == if run.mode == Background then Held else Awaited
  {
  }

  /** What such a step needs of the run it is about. */
  predicate Open(run: Run, l: Label, r: nat) {
    && (l == Wait(r) || l == DestroyRunHandle(r) ==> run.ticket == Held)
    && (l.End? && l.r == r ==> run.outcome == None)
    && (l == ReleaseWatcher(r) ==> run.watcher.Some?)
  }

  lemma StepOpen(s: State, l: Label, r: nat)
    requires Inv(s) && Enabled(s, l) && r in s.runs
    ensures Open(s.runs[r], l, r)
  {
    assert RunWell(s.runs[r], s.pipes.Keys, s.watchers.Keys);
  }

  lemma RunFromStep(calls: iset<Label>, l: Label, r: nat, run: Run, run': Run)
    requires RunFrom(calls, r, run) && Moved(run, l, r, run') && Open(run, l, r)
    ensures RunFrom(calls + iset{l}, r, run')
  {
  }

  lemma RunFromLaunch(calls: iset<Label>, r: nat, run: Run)
    requires forall l :: About(l, r) ==> l !in calls
    requires !run.aborted && run.outcome == None && run.holdsPipe && run.holdsWatcher == run.watcher.Some?
    requires !run.reported && run.ticket == if run.mode == Background then Held else Awaited
    ensures RunFrom(calls + iset{Launch(r, run.mode, run.pipe, run.watcher)}, r, run)
  {
  }

  /** Every flag of a run is decided by the calls and steps that have been taken. */
  lemma {:induction false} RunHistory(ls: seq<Label>, r: nat)
    requires r in Exec(ls).runs
    ensures RunFrom(Calls(ls), r, Exec(ls).runs[r])
  {
    var n := |ls| - 1;
    var s, l := Exec(ls[..n]), ls[n];
    if r !in s.runs {
      RunBegins(s, l, r);
      forall x | About(x, r) ensures x !in Calls(ls[..n]) { NothingBeforeLaunch(ls[..n], r, x); }
      RunFromLaunch(Calls(ls[..n]), r, Exec(ls).runs[r]);
    } else {
      RunHistory(ls[..n], r);
      if Enabled(s, l) {
        InvReachable(ls[..n]);
        StepOpen(s, l, r);
        RunMoves(s, l, r);
        RunFromStep(Calls(ls[..n]), l, r, s.runs[r], Exec(ls).runs[r]);
      }
    }
  }

  // ------------------------------------------------------------------- the handles

  ghost predicate PipeFrom(calls: iset<Label>, p: nat, s: State) {
    && (p in s.pipes <==> exists d :: NewPipe(p, d) in calls)
    && (if p in s.pipes then s.pipes[p].handle <==> DestroyPipe(p) !in calls else DestroyPipe(p) !in calls)
  }

  ghost predicate WatcherFrom(calls: iset<Label>, w: nat, s: State) {
    && (w in s.watchers <==> NewWatcher(w) in calls)
    && (if w in s.watchers then s.watchers[w] <==> DestroyWatcher(w) !in calls else DestroyWatcher(w) !in calls)
  }

  lemma HandleStep(s: State, l: Label, p: nat, w: nat)
    requires Enabled(s, l)
    ensures var s' := Effect(s, l);
            && (p in s'.pipes <==> p in s.pipes || (l.NewPipe? && l.p == p))
            && (l == DestroyPipe(p) ==> p in s.pipes) && (l == DestroyWatcher(w) ==> w in s.watchers)
            && (p in s'.pipes ==> s'.pipes[p].handle == ((p in s.pipes ==> s.pipes[p].handle) && l != DestroyPipe(p)))
            && (w in s'.watchers <==> w in s.watchers || l == NewWatcher(w))
            && (w in s'.watchers ==> s'.watchers[w] == ((w in s.watchers ==> s.watchers[w]) && l != DestroyWatcher(w)))
  {
  }

  /** An object exists once it was made, and its handle is good until it is destroyed. */
  lemma {:induction false} HandleHistory(ls: seq<Label>, p: nat, w: nat)
    ensures PipeFrom(Calls(ls), p, Exec(ls)) && WatcherFrom(Calls(ls), w, Exec(ls))
  {
    if ls != [] {
      var n := |ls| - 1;
      HandleHistory(ls[..n], p, w);
      if Enabled(Exec(ls[..n]), ls[n]) { HandleStep(Exec(ls[..n]), ls[n], p, w); }
    }
  }

  // ---------------------------------------------------------------- what a run reads

  /** Launch isolation in terms of the calls: the task a run finds at an index is the
      one of the call that added it there before the launch, and each setting is that
      of the last call before the launch that set it, or the default. */
  lemma RunReadsHistory(ls: seq<Label>, i: nat, k: nat)
    requires i < |ls| && Happens(ls, i) && ls[i].Launch?
    requires ls[i].r in Exec(ls).runs && k < |Exec(ls).runs[ls[i].r].seen|
    ensures var o, p := Exec(ls).runs[ls[i].r].seen[k], ls[i].p;
            var tasks := AddedTasks(ls[..i], p);
            && o.index < |tasks| && o.info == tasks[o.index] && o.taskCount == |tasks|
            && exists inner :: ObsOf(inner, o) && forall f :: FieldFrom(ls[..i], p, f, inner)
  {
    var p := ls[i].p;
    var inner := Exec(ls[..i]).pipes[p].inner;
    RunReadsOnlyItsLaunchRecord(ls, i, k);
    TaskHistory(ls[..i], p);
    forall f { FieldHistory(ls[..i], p, f); }
    assert ObsOf(inner, Exec(ls).runs[ls[i].r].seen[k]);
  }

  /** Whatever a run calls into is of its own: the task it reads and the data-id
      function are those of its launch record, the watcher is the one it was launched
      with. Each such step is one event, and reading appends one observation. */
  lemma ExecutorCalls(ls: seq<Label>, l: Label, r: nat)
    requires Enabled(Exec(ls), l) && ((l.Read? && l.r == r) || l == ReadDataId(r) || l == Emit(r))
    ensures r in Exec(ls).runs && r in Exec(ls + [l]).runs
    ensures var run, run', log, log' := Exec(ls).runs[r], Exec(ls + [l]).runs[r], Exec(ls).log, Exec(ls + [l]).log;
            match l
            case Read(_, i) =>
              && i < |run.launched.tasks| && log' == log + [Used(run.launched.tasks[i].task.f, r)]
              && |run'.seen| == |run.seen| + 1 && run'.seen[..|run.seen|] == run.seen
              && ObsOf(run.launched, run'.seen[|run.seen|]) && run'.seen[|run.seen|].index == i
            case ReadDataId(_) =>
              run.launched.dataId.Some? && log' == log + [Used(run.launched.dataId.value, r)] && run' == run
            case _ =>
              run.watcher.Some? && log' == log + [WatcherCall(run.watcher.value, r)] && run' == run
  {
    ExecStep(ls, l);
    InvReachable(ls);
    var s := Exec(ls);
    assert RunWell(s.runs[r], s.pipes.Keys, s.watchers.Keys);
    assert s.pipes[s.runs[r].pipe].inner == s.runs[r].launched;
  }
}
