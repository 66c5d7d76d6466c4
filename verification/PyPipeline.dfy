/** The Python twin: a pipeline object mutated through its builders, and runs
    that either borrow it (`execute_sync`) or walk a private copy of it made at
    launch (`execute`, `execute_in_background`). */
module PyPipeline {
  import opened Wrappers
  import opened PipelineModel

  // ------------------------------------------------------------------ copying

  function CloneTask(t: Task): Task {
    match t
    case Sync(f) => Sync(f)
    case Async(f) => Async(f)
    case SyncIter(f) => SyncIter(f)
    case AsyncStream(f) => AsyncStream(f)
    case SyncBatch(f) => SyncBatch(f)
    case AsyncBatch(f) => AsyncBatch(f)
    case SyncIterBatch(f) => SyncIterBatch(f)
    case AsyncStreamBatch(f) => AsyncStreamBatch(f)
  }

  /** `TaskInfo::with_batch_size` panics on zero; `None` is that panic. */
  function WithBatchSize(info: TaskInfo, n: nat): Option<TaskInfo> {
    if n == 0 then None else Some(info.(batchSize := Some(n)))
  }

  /** Rebuilds a task entry through the builder, field by field. */
  function CloneTaskInfo(ti: TaskInfo): Option<TaskInfo> {
    var info := NewTaskInfo(CloneTask(ti.task));
    var named := if ti.name.Some? then info.(name := ti.name) else info;
    var sized := if ti.batchSize.Some? then WithBatchSize(named, ti.batchSize.value) else Some(named);
    match sized
    case None => None
    case Some(i) =>
      var told := if ti.summary.Some? then i.(summary := ti.summary) else i;
      Some(told.(weight := ti.weight))
  }

  function CloneTasks(tis: seq<TaskInfo>): Option<seq<TaskInfo>> {
    if tis == [] then Some([])
    else match CloneTaskInfo(tis[0])
      case None => None
      case Some(head) =>
        match CloneTasks(tis[1..])
        case None => None
        case Some(rest) => Some([head] + rest)
  }

  function ClonePipeline(p: Pipeline): Option<Pipeline> {
    match CloneTasks(p.tasks)
    case None => None
    case Some(tasks) =>
      Some(Pipeline(p.id, p.name, p.description, tasks, p.retry, p.batchSize, p.dataId,
                    p.concurrency, p.telemetry, p.limiter, p.recoveryLock))
  }

  /** The builder does not carry `enriches` or a per-task limiter over. */
  predicate Portable(ti: TaskInfo) {
    ti.batchSize != Some(0) && !ti.enriches && ti.limiter == None
  }

  lemma CloneTaskInfoExact(ti: TaskInfo)
    ensures CloneTaskInfo(ti) == Some(ti) <==> Portable(ti)
    ensures CloneTaskInfo(ti) == None <==> ti.batchSize == Some(0)
  {
    assert CloneTask(ti.task) == ti.task;
  }

  lemma {:induction false} CloneTasksExact(tis: seq<TaskInfo>)
    ensures CloneTasks(tis) == Some(tis) <==> forall i :: 0 <= i < |tis| ==> Portable(tis[i])
    ensures CloneTasks(tis) == None <==> exists i :: 0 <= i < |tis| && tis[i].batchSize == Some(0)
  {
    if tis != [] {
      CloneTaskInfoExact(tis[0]);
      CloneTasksExact(tis[1..]);
      assert tis == [tis[0]] + tis[1..];
      assert forall i :: 0 < i < |tis| ==> tis[i] == tis[1..][i - 1];
    }
  }

  /** The copy equals the original exactly when no task uses the two fields the
      copy forgets (and none trips the zero-size panic). */
  lemma ClonePipelineExact(p: Pipeline)
    ensures ClonePipeline(p) == Some(p) <==> forall i :: 0 <= i < |p.tasks| ==> Portable(p.tasks[i])
  {
    CloneTasksExact(p.tasks);
  }

  /** A task that enriches comes out of the copy as one that does not. */
  lemma CloneForgets(p: Pipeline)
    requires p.tasks == [NewTaskInfo(Sync(0)).(enriches := true)]
    ensures ClonePipeline(p) == Some(p.(tasks := [NewTaskInfo(Sync(0))])) != Some(p)
  {
    var plain := NewTaskInfo(Sync(0));
    assert CloneTaskInfo(p.tasks[0]) == Some(plain);
    assert p.tasks[1..] == [] && CloneTasks(p.tasks[1..]) == Some([]);
    assert [plain] + [] == [plain] && p.tasks[0] != [plain][0];
  }

  // ----------------------------------------------------------------- builders

  datatype Build =
    | Name(name: string)
    | AddTask(task: Task, taskName: Option<string>, batchSize: Option<nat>, weight: nat)
    | Retry(maxAttempts: nat, delayMs: nat)
    | RetryExponential(maxAttempts: nat, baseMs: nat, factor: nat)
    | BatchSize(size: nat)
    | Concurrency(n: nat)

  /** `Panicked` reaches Python as an exception too, but by another route. */
  datatype Reply = Done | AlreadyBorrowed | NotPositive | Panicked

  function TaskEntry(b: Build): Option<TaskInfo>
    requires b.AddTask?
  {
    var info := NewTaskInfo(b.task);
    var named := if b.taskName.Some? then info.(name := b.taskName) else info;
    var sized := if b.batchSize.Some? then WithBatchSize(named, b.batchSize.value) else Some(named);
    match sized
    case None => None
    case Some(i) => Some(i.(weight := b.weight))
  }

  function BuildReply(b: Build): Reply {
    match b
    case AddTask(_, _, _, _) => if TaskEntry(b) == None then Panicked else Done
    case Retry(n, _) => if n == 0 then NotPositive else Done
    case RetryExponential(n, _, _) => if n == 0 then NotPositive else Done
    case _ => Done
  }

  function Built(p: Pipeline, b: Build): Pipeline {
    if BuildReply(b) != Done then p
    else match b
      case Name(s) => p.(name := Some(s))
      case AddTask(_, _, _, _) => p.(tasks := p.tasks + [TaskEntry(b).value])
      case Retry(n, ms) => p.(retry := Limited(n, Constant(ms)))
      case RetryExponential(n, ms, factor) => p.(retry := Limited(n, Exponential(ms, factor)))
      case BatchSize(n) => p.(batchSize := n)
      case Concurrency(n) => p.(concurrency := n)
  }

  predicate AllPortable(p: Pipeline) {
    forall i :: 0 <= i < |p.tasks| ==> Portable(p.tasks[i])
  }

  lemma BuiltPortable(p: Pipeline, b: Build)
    requires AllPortable(p)
    ensures AllPortable(Built(p, b))
  {
  }

  // ------------------------------------------------------------------ machine

  datatype PyMode = ExecuteSync | Execute | ExecuteInBackground

  /** Where a run reads its tasks from. */
  datatype Source = Borrowed | Snapshot(copy: Pipeline)

  datatype PyRun = PyRun(obj: nat, source: Source, launched: Pipeline, seen: seq<Obs>, over: bool)

  datatype PyState = PyState(objs: map<nat, Pipeline>, runs: map<nat, PyRun>)

  const PyInit := PyState(map[], map[])

  datatype PyLabel =
    | PNew(o: nat, description: string)
    | PBuild(o: nat, b: Build)
    | PLaunch(r: nat, mode: PyMode, o: nat)
    | PRead(r: nat, i: nat)
    | PEnd(r: nat)

  predicate Borrows(s: PyState, r: nat, o: nat) {
    r in s.runs && !s.runs[r].over && s.runs[r].obj == o && s.runs[r].source == Borrowed
  }

  ghost predicate BorrowedNow(s: PyState, o: nat) {
    exists r :: Borrows(s, r, o)
  }

  /** The record a run reads at this moment. */
  function Record(s: PyState, r: nat): Option<Pipeline>
    requires r in s.runs
  {
    match s.runs[r].source
    case Snapshot(copy) => Some(copy)
    case Borrowed => if s.runs[r].obj in s.objs then Some(s.objs[s.runs[r].obj]) else None
  }

  function LaunchSource(mode: PyMode, p: Pipeline): Option<Source> {
    if mode == ExecuteSync then Some(Borrowed)
    else match ClonePipeline(p) case None => None case Some(copy) => Some(Snapshot(copy))
  }

  /** A builder call on a borrowed object raises and changes nothing; a launch
      whose copy panics starts no run. */
  ghost function PyNext(s: PyState, l: PyLabel): PyState {
    match l
    case PNew(o, d) => if o in s.objs then s else s.(objs := s.objs[o := PipelineModel.NewPipeline(o, d)])
    case PBuild(o, b) =>
      if o !in s.objs || BorrowedNow(s, o) then s else s.(objs := s.objs[o := Built(s.objs[o], b)])
    case PLaunch(r, mode, o) =>
      if r in s.runs || o !in s.objs || LaunchSource(mode, s.objs[o]) == None then s
      else s.(runs := s.runs[r := PyRun(o, LaunchSource(mode, s.objs[o]).value, s.objs[o], [], false)])
    case PRead(r, i) =>
      if r in s.runs && !s.runs[r].over && Record(s, r).Some?
         && Preflight(Record(s, r).value) == None && i < |Record(s, r).value.tasks|
      then s.(runs := s.runs[r := s.runs[r].(seen := s.runs[r].seen + [Observe(Record(s, r).value, i)])])
      else s
    case PEnd(r) => if r in s.runs then s.(runs := s.runs[r := s.runs[r].(over := true)]) else s
  }

  ghost function PyExec(ls: seq<PyLabel>): PyState {
    if ls == [] then PyInit else PyNext(PyExec(ls[..|ls| - 1]), ls[|ls| - 1])
  }

  /** Every object is made of portable tasks, and every run in flight reads the
      record of its launch. */
  ghost predicate PyInv(s: PyState) {
    && (forall o :: o in s.objs ==> AllPortable(s.objs[o]))
    && (forall r :: r in s.runs && !s.runs[r].over ==> Record(s, r) == Some(s.runs[r].launched))
  }

  lemma PyInvStep(s: PyState, l: PyLabel)
    requires PyInv(s)
    ensures PyInv(PyNext(s, l))
  {
    var s' := PyNext(s, l);
    match l
    case PBuild(o, b) =>
      if o in s.objs { BuiltPortable(s.objs[o], b); }
      forall r | r in s'.runs && !s'.runs[r].over ensures Record(s', r) == Some(s'.runs[r].launched) {
        assert Record(s, r) == Some(s.runs[r].launched);
        assert s.runs[r].source == Borrowed && s.runs[r].obj == o ==> Borrows(s, r, o);
      }
    case PLaunch(r, mode, o) =>
      if o in s.objs { ClonePipelineExact(s.objs[o]); }
    case _ =>
  }

  lemma {:induction false} PyInvReachable(ls: seq<PyLabel>)
    ensures PyInv(PyExec(ls))
  {
    if ls != [] {
      PyInvReachable(ls[..|ls| - 1]);
      PyInvStep(PyExec(ls[..|ls| - 1]), ls[|ls| - 1]);
    }
  }

  /** The copy made at launch never panics, and equals the object copied: the
      builders refuse a zero per-task batch size and cannot set what the copy
      forgets. */
  lemma LaunchCopiesExactly(ls: seq<PyLabel>, mode: PyMode, o: nat)
    requires o in PyExec(ls).objs && mode != ExecuteSync
    ensures LaunchSource(mode, PyExec(ls).objs[o]) == Some(Snapshot(PyExec(ls).objs[o]))
  {
    PyInvReachable(ls);
    ClonePipelineExact(PyExec(ls).objs[o]);
  }

  /** Builders keep working on an object whose async and background runs are in
      flight, and are refused exactly while an `execute_sync` run borrows it. */
  lemma BuildRefusedIffBorrowed(ls: seq<PyLabel>, o: nat, b: Build)
    requires o in PyExec(ls).objs
    ensures (exists r :: Borrows(PyExec(ls), r, o)) ==> PyNext(PyExec(ls), PBuild(o, b)) == PyExec(ls)
    ensures !(exists r :: Borrows(PyExec(ls), r, o)) ==>
              PyNext(PyExec(ls), PBuild(o, b)).objs[o] == Built(PyExec(ls).objs[o], b)
    ensures forall r :: r in PyExec(ls).runs && !PyExec(ls).runs[r].over ==>
              Record(PyNext(PyExec(ls), PBuild(o, b)), r) == Record(PyExec(ls), r)
  {
    PyInvReachable(ls);
    PyInvStep(PyExec(ls), PBuild(o, b));
  }

  /** A run's object, source and launch record are fixed at launch. */
  lemma {:induction false} RunKept(ls: seq<PyLabel>, ms: seq<PyLabel>, r: nat)
    requires r in PyExec(ls).runs
    ensures r in PyExec(ls + ms).runs
    ensures var a, b := PyExec(ls).runs[r], PyExec(ls + ms).runs[r];
            b.obj == a.obj && b.source == a.source && b.launched == a.launched && (a.over ==> b.over)
    decreases |ms|
  {
    if ms == [] {
      assert ls + ms == ls;
    } else {
      var n := |ms| - 1;
      RunKept(ls, ms[..n], r);
      assert (ls + ms)[..|ls + ms| - 1] == ls + ms[..n];
    }
  }

  /** As long as an `execute_sync` run is in flight its object does not change, over
      any number of steps of anyone; and no run in flight ever sees its record
      change. */
  lemma RecordFrozenInFlight(ls: seq<PyLabel>, ms: seq<PyLabel>, r: nat)
    requires r in PyExec(ls).runs && r in PyExec(ls + ms).runs && !PyExec(ls + ms).runs[r].over
    ensures Record(PyExec(ls + ms), r) == Record(PyExec(ls), r) == Some(PyExec(ls).runs[r].launched)
    ensures PyExec(ls).runs[r].source == Borrowed ==>
              var o := PyExec(ls).runs[r].obj;
              && o in PyExec(ls).objs && o in PyExec(ls + ms).objs
              && PyExec(ls + ms).objs[o] == PyExec(ls).objs[o]
  {
    RunKept(ls, ms, r);
    PyInvReachable(ls);
    PyInvReachable(ls + ms);
  }

  // ----------------------------------------------------------------- the object

  ghost function Borrowers(s: PyState, o: nat): set<nat> {
    set r | r in s.runs && Borrows(s, r, o)
  }

  /** What a builder call on object `o` answers. */
  ghost function PyReply(s: PyState, o: nat, b: Build): Reply {
    if BorrowedNow(s, o) then AlreadyBorrowed else BuildReply(b)
  }

  lemma BorrowedIffCounted(s: PyState, o: nat)
    ensures BorrowedNow(s, o) <==> |Borrowers(s, o)| > 0
  {
    if r :| Borrows(s, r, o) { assert r in Borrowers(s, o); }
    if |Borrowers(s, o)| > 0 {
      var r :| r in Borrowers(s, o);
      assert Borrows(s, r, o);
    }
  }

  lemma BuildKeepsBorrowers(s: PyState, o: nat, b: Build)
    requires o in s.objs
    ensures Borrowers(PyNext(s, PBuild(o, b)), o) == Borrowers(s, o)
    ensures PyNext(s, PBuild(o, b)).objs[o] == if BorrowedNow(s, o) then s.objs[o] else Built(s.objs[o], b)
  {
  }

  lemma NobodyBorrowsTheUnborn(s: PyState, o: nat, description: string)
    requires PyInv(s) && o !in s.objs
    ensures Borrowers(PyNext(s, PNew(o, description)), o) == {}
  {
    forall r | r in s.runs ensures !Borrows(s, r, o) { }
  }

  lemma BorrowBegins(s: PyState, r: nat, o: nat)
    requires o in s.objs && r !in s.runs
    ensures |Borrowers(PyNext(s, PLaunch(r, ExecuteSync, o)), o)| == |Borrowers(s, o)| + 1
  {
    assert Borrowers(PyNext(s, PLaunch(r, ExecuteSync, o)), o) == Borrowers(s, o) + {r};
  }

  lemma BorrowEnds(s: PyState, r: nat, o: nat)
    requires Borrows(s, r, o)
    ensures |Borrowers(s, o)| == |Borrowers(PyNext(s, PEnd(r)), o)| + 1
  {
    assert Borrowers(s, o) == Borrowers(PyNext(s, PEnd(r)), o) + {r};
  }

  /** Steps that are no builder call on `o` and neither begin nor end a borrow of
      it. */
  predicate Elsewhere(s: PyState, l: PyLabel, o: nat) {
    match l
    case PNew(_, _) => true
    case PBuild(p, _) => p != o
    case PLaunch(_, mode, p) => mode != ExecuteSync || p != o
    case PRead(_, _) => true
    case PEnd(r) => !Borrows(s, r, o)
  }

  lemma ElsewhereKeeps(s: PyState, l: PyLabel, o: nat)
    requires o in s.objs && Elsewhere(s, l, o)
    ensures o in PyNext(s, l).objs && PyNext(s, l).objs[o] == s.objs[o]
    ensures Borrowers(PyNext(s, l), o) == Borrowers(s, o)
  {
  }

  /** The object behind a Python `Pipeline`. `borrows` counts the shared borrows
      that running `execute_sync` calls hold on the cell; a builder needs the cell
      to itself. Each method is proved to be the step of the machine above on this
      object, and `Shows` is what all of them keep. */
  class PyPipelineCell {
    var inner: Pipeline
    var borrows: nat

    /** The cell is object `o` of the machine in state `s`. */
    ghost predicate Shows(s: PyState, o: nat)
      reads this
    {
      o in s.objs && s.objs[o] == inner && borrows == |Borrowers(s, o)|
    }

    constructor (ghost s: PyState, o: nat, description: string)
      requires PyInv(s) && o !in s.objs
      ensures Shows(PyNext(s, PNew(o, description)), o)
    {
      inner := PipelineModel.NewPipeline(o, description);
      borrows := 0;
      NobodyBorrowsTheUnborn(s, o, description);
    }

    /** Whatever happens elsewhere, the cell stays the object. */
    lemma StillShows(s: PyState, l: PyLabel, o: nat)
      requires Shows(s, o) && Elsewhere(s, l, o)
      ensures Shows(PyNext(s, l), o)
    {
      ElsewhereKeeps(s, l, o);
    }

    /** A builder's way to the cell. */
    method TryBorrowMut(ghost s: PyState, ghost o: nat) returns (granted: bool)
      requires Shows(s, o)
      ensures granted <==> !BorrowedNow(s, o)
    {
      granted := borrows == 0;
      BorrowedIffCounted(s, o);
    }

    method WithName(ghost s: PyState, ghost o: nat, name: string) returns (reply: Reply)
      requires Shows(s, o)
      modifies this`inner
      ensures Shows(PyNext(s, PBuild(o, Name(name))), o) && reply == PyReply(s, o, Name(name))
    {
      BuildKeepsBorrowers(s, o, Name(name));
      var granted := TryBorrowMut(s, o);
      if !granted { return AlreadyBorrowed; }
      inner := inner.(name := Some(name));
      reply := Done;
    }

    method PushTask(ghost s: PyState, ghost o: nat, task: Task, name: Option<string>, batchSize: Option<nat>,
                    weight: nat)
      returns (reply: Reply)
      requires Shows(s, o)
      modifies this`inner
      ensures Shows(PyNext(s, PBuild(o, AddTask(task, name, batchSize, weight))), o)
      ensures reply == PyReply(s, o, AddTask(task, name, batchSize, weight))
    {
      BuildKeepsBorrowers(s, o, AddTask(task, name, batchSize, weight));
      var granted := TryBorrowMut(s, o);
      if !granted { return AlreadyBorrowed; }
      var info := NewTaskInfo(task);
      if name.Some? {
        info := info.(name := name);
      }
      if batchSize.Some? {
        if batchSize.value == 0 { return Panicked; }
        info := info.(batchSize := batchSize);
      }
      info := info.(weight := weight);
      inner := inner.(tasks := inner.tasks + [info]);
      reply := Done;
    }

    method WithRetry(ghost s: PyState, ghost o: nat, maxAttempts: nat, delayMs: nat) returns (reply: Reply)
      requires Shows(s, o)
      modifies this`inner
      ensures Shows(PyNext(s, PBuild(o, Retry(maxAttempts, delayMs))), o)
      ensures reply == PyReply(s, o, Retry(maxAttempts, delayMs))
    {
      BuildKeepsBorrowers(s, o, Retry(maxAttempts, delayMs));
      var granted := TryBorrowMut(s, o);
      if !granted { return AlreadyBorrowed; }
      if maxAttempts == 0 { return NotPositive; }
      inner := inner.(retry := Limited(maxAttempts, Constant(delayMs)));
      reply := Done;
    }

    method WithRetryExponential(ghost s: PyState, ghost o: nat, maxAttempts: nat, baseMs: nat, factor: nat)
      returns (reply: Reply)
      requires Shows(s, o)
      modifies this`inner
      ensures Shows(PyNext(s, PBuild(o, RetryExponential(maxAttempts, baseMs, factor))), o)
      ensures reply == PyReply(s, o, RetryExponential(maxAttempts, baseMs, factor))
    {
      BuildKeepsBorrowers(s, o, RetryExponential(maxAttempts, baseMs, factor));
      var granted := TryBorrowMut(s, o);
      if !granted { return AlreadyBorrowed; }
      if maxAttempts == 0 { return NotPositive; }
      inner := inner.(retry := Limited(maxAttempts, Exponential(baseMs, factor)));
      reply := Done;
    }

    method WithBatchSize(ghost s: PyState, ghost o: nat, size: nat) returns (reply: Reply)
      requires Shows(s, o)
      modifies this`inner
      ensures Shows(PyNext(s, PBuild(o, BatchSize(size))), o) && reply == PyReply(s, o, BatchSize(size))
    {
      BuildKeepsBorrowers(s, o, BatchSize(size));
      var granted := TryBorrowMut(s, o);
      if !granted { return AlreadyBorrowed; }
      inner := inner.(batchSize := size);
      reply := Done;
    }

    method WithConcurrency(ghost s: PyState, ghost o: nat, n: nat) returns (reply: Reply)
      requires Shows(s, o)
      modifies this`inner
      ensures Shows(PyNext(s, PBuild(o, Concurrency(n))), o) && reply == PyReply(s, o, Concurrency(n))
    {
      BuildKeepsBorrowers(s, o, Concurrency(n));
      var granted := TryBorrowMut(s, o);
      if !granted { return AlreadyBorrowed; }
      inner := inner.(concurrency := n);
      reply := Done;
    }

    /** `execute_sync` borrows the cell for as long as it runs. */
    method BeginSync(ghost s: PyState, ghost o: nat, ghost r: nat)
      requires Shows(s, o) && r !in s.runs
      modifies this`borrows
      ensures Shows(PyNext(s, PLaunch(r, ExecuteSync, o)), o)
      ensures BorrowedNow(PyNext(s, PLaunch(r, ExecuteSync, o)), o)
    {
      borrows := borrows + 1;
      BorrowBegins(s, r, o);
      BorrowedIffCounted(PyNext(s, PLaunch(r, ExecuteSync, o)), o);
    }

    method EndSync(ghost s: PyState, ghost o: nat, ghost r: nat)
      requires Shows(s, o) && Borrows(s, r, o)
      modifies this`borrows
      ensures Shows(PyNext(s, PEnd(r)), o)
    {
      BorrowEnds(s, r, o);
      borrows := borrows - 1;
    }

    /** `execute` and `execute_in_background` copy the record and leave the cell
        alone; the copy does not panic and is the record. */
    method CopyForRun(ghost s: PyState, ghost o: nat, ghost r: nat, ghost mode: PyMode) returns (copy: Pipeline)
      requires PyInv(s) && Shows(s, o) && r !in s.runs && mode != ExecuteSync
      ensures copy == inner
      ensures var s' := PyNext(s, PLaunch(r, mode, o));
              Shows(s', o) && r in s'.runs && Record(s', r) == Some(copy)
    {
      ClonePipelineExact(inner);
      copy := ClonePipeline(inner).value;
      StillShows(s, PLaunch(r, mode, o), o);
    }
  }
}
