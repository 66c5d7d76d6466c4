/** The run/ownership protocol of the C pipeline API as a transition system.

    The state records who holds what (handles of the caller, in-flight runs);
    the reference counts that implement it live in `Engine`. Every label is one
    atomic step, so a sequence of labels is one interleaving of caller threads,
    executor threads and completion callbacks. A label whose guard is false (for
    instance a call on a destroyed handle) leaves the state unchanged. */
module Protocol {
  import opened Wrappers
  import opened PipelineModel

  // ---------------------------------------------------------------- setters

  datatype CString = NullPtr | BadUtf8 | Utf8(text: string)

  datatype Setter =
    | SetName(cname: CString)
    | AddTask(info: Option<TaskInfo>)
    | SetBatchSize(size: nat)
    | SetConcurrency(n: nat)
    | SetRetryNone
    | SetRetryLimited(maxAttempts: nat, delay: RetryDelay)
    | SetDataId(userData: Closure)

  /** `InUse` and `BadArgument` set the last error; `Ignored` is silent. */
  datatype Verdict = Applied | InUse | BadArgument | Ignored

  /** The verdict on the argument alone, reached before the pipeline is touched. */
  function ArgumentVerdict(op: Setter): Option<Verdict> {
    match op
    case SetName(NullPtr) => Some(Ignored)
    case SetName(BadUtf8) => Some(BadArgument)
    case AddTask(None) => Some(Ignored)
    case SetBatchSize(n) => if n == 0 then Some(Ignored) else None
    case SetConcurrency(n) => if n == 0 then Some(Ignored) else None
    case SetRetryLimited(n, _) => if n == 0 then Some(BadArgument) else None
    case _ => None
  }

  /** The resource whose ownership the call takes, applied or refused. */
  function Handed(op: Setter): Option<Closure> {
    match op
    case AddTask(Some(info)) => Some(info.task.f)
    case SetDataId(ud) => Some(ud)
    case _ => None
  }

  /** The record after an applied setter. */
  function Applied'(op: Setter, p: Pipeline): Pipeline
    requires ArgumentVerdict(op) == None
  {
    match op
    case SetName(Utf8(s)) => p.(name := Some(s))
    case AddTask(Some(info)) => p.(tasks := p.tasks + [info])
    case SetBatchSize(n) => p.(batchSize := n)
    case SetConcurrency(n) => p.(concurrency := n)
    case SetRetryNone => p.(retry := NoRetry)
    case SetRetryLimited(n, d) => p.(retry := Limited(n, d))
    case SetDataId(ud) => p.(dataId := Some(ud))
  }

  /** The resource an applied setter displaces from the record. */
  function Displaced(op: Setter, p: Pipeline): seq<Closure> {
    if op.SetDataId? then OptSeq(p.dataId) else []
  }

  function OptSeq<T>(o: Option<T>): seq<T> {
    match o case None => [] case Some(x) => [x]
  }

  /** The resources a pipeline record owns, in the order it drops them. */
  function Owned(p: Pipeline): seq<Closure> {
    seq(|p.tasks|, i requires 0 <= i < |p.tasks| => p.tasks[i].task.f) + OptSeq(p.dataId)
  }

  // ------------------------------------------------------------------ state

  datatype Mode = Blocking | Background | Async

  /** Who is interested in a run's completion: `Held` is a background run whose
      handle is still with the caller; `Awaited` has a callback (or a blocked
      caller); `Detached` had its handle destroyed. */
  datatype Ticket = Held | Awaited | Detached

  /** `launched` and `seen` are history: the record at launch and everything the
      executor has read since. */
  datatype Run = Run(
    mode: Mode,
    pipe: nat,
    watcher: Option<nat>,
    holdsPipe: bool,
    holdsWatcher: bool,
    launched: Pipeline,
    seen: seq<Obs>,
    outcome: Option<Outcome>,
    ticket: Ticket,
    aborted: bool,
    reported: bool)

  datatype Pipe = Pipe(handle: bool, inner: Pipeline)

  datatype Event =
    | Freed(x: Closure)                 // the resource's destroy function ran
    | Used(x: Closure, run: nat)        // a run called into the resource
    | HandleGone(w: nat)                // cg_pipeline_watcher_destroy
    | WatcherDestroyed(w: nat)          // the vtable's destroy ran
    | WatcherCall(w: nat, run: nat)     // any other vtable callback
    | Completed(run: nat, outcome: Outcome)

  datatype State = State(
    pipes: map<nat, Pipe>,
    watchers: map<nat, bool>,
    runs: map<nat, Run>,
    issued: set<Closure>,
    log: seq<Event>)

  const Init := State(map[], map[], map[], {}, [])

  predicate HoldsPipe(s: State, r: nat, p: nat) {
    r in s.runs && s.runs[r].holdsPipe && s.runs[r].pipe == p
  }

  predicate HoldsWatcher(s: State, r: nat, w: nat) {
    r in s.runs && s.runs[r].holdsWatcher && s.runs[r].watcher == Some(w)
  }

  ghost predicate PipeInUse(s: State, p: nat) {
    exists r :: HoldsPipe(s, r, p)
  }

  ghost predicate WatcherInUse(s: State, w: nat) {
    exists r :: HoldsWatcher(s, r, w)
  }

  /** The shared record still exists: some handle or run keeps it. */
  ghost predicate Live(s: State, p: nat) {
    p in s.pipes && (s.pipes[p].handle || PipeInUse(s, p))
  }

  // ------------------------------------------------------------------ steps

  datatype Label =
    | NewPipe(p: nat, description: string)
    | NewWatcher(w: nat)
    | Set(p: nat, op: Setter)
    | DestroyPipe(p: nat)
    | DestroyWatcher(w: nat)
    | Launch(r: nat, mode: Mode, p: nat, watcher: Option<nat>)
    | Wait(r: nat)
    | Abort(r: nat)
    | DestroyRunHandle(r: nat)
    | Read(r: nat, i: nat)              // executor calls task i
    | ReadDataId(r: nat)                // executor calls the data-id function
    | Emit(r: nat)                      // executor calls the watcher
    | End(r: nat, outcome: Outcome)     // executor stops
    | ReleasePipe(r: nat)
    | ReleaseWatcher(r: nat)
    | Complete(r: nat)                  // callback fires / blocking call returns

  function FreeAll(xs: seq<Closure>): seq<Event> {
    seq(|xs|, i requires 0 <= i < |xs| => Freed(xs[i]))
  }

  ghost function SetVerdict(s: State, p: nat, op: Setter): Verdict
    requires p in s.pipes
  {
    match ArgumentVerdict(op)
    case Some(v) => v
    case None => if PipeInUse(s, p) then InUse else Applied
  }

  ghost predicate Executing(s: State, r: nat) {
    r in s.runs && s.runs[r].outcome == None
  }

  /** When a step may be taken. For calls this is what the header demands of the
      caller: live handles, each resource handed over once. */
  ghost predicate Enabled(s: State, l: Label) {
    match l
    case NewPipe(p, _) => p !in s.pipes
    case NewWatcher(w) => w !in s.watchers
    case Set(p, op) =>
      && p in s.pipes && s.pipes[p].handle
      && (Handed(op).Some? ==> Handed(op).value !in s.issued)
    case DestroyPipe(p) => p in s.pipes && s.pipes[p].handle
    case DestroyWatcher(w) => w in s.watchers && s.watchers[w]
    case Launch(r, _, p, ow) =>
      && r !in s.runs && p in s.pipes && s.pipes[p].handle
      && (ow.Some? ==> ow.value in s.watchers && s.watchers[ow.value])
    case Wait(r) => r in s.runs && s.runs[r].ticket == Held
    case Abort(r) => r in s.runs && s.runs[r].ticket == Held
    case DestroyRunHandle(r) => r in s.runs && s.runs[r].ticket == Held
    case Read(r, i) =>
      && Executing(s, r) && s.runs[r].pipe in s.pipes
      && var inner := s.pipes[s.runs[r].pipe].inner;
      && Preflight(inner) == None && i < |inner.tasks|
    case ReadDataId(r) =>
      && Executing(s, r) && s.runs[r].pipe in s.pipes
      && var inner := s.pipes[s.runs[r].pipe].inner;
      && Preflight(inner) == None && inner.dataId.Some?
    case Emit(r) =>
      && Executing(s, r) && s.runs[r].pipe in s.pipes
      && Preflight(s.pipes[s.runs[r].pipe].inner) == None
      && s.runs[r].watcher.Some?
    case End(r, out) =>
      && Executing(s, r) && s.runs[r].pipe in s.pipes
      && MayEnd(s.pipes[s.runs[r].pipe].inner, s.runs[r].mode == Blocking, s.runs[r].aborted, out)
    case ReleasePipe(r) =>
      && r in s.runs && s.runs[r].outcome.Some? && s.runs[r].holdsPipe
      && (s.runs[r].mode == Blocking ==> !s.runs[r].holdsWatcher)
    case ReleaseWatcher(r) =>
      && r in s.runs && s.runs[r].outcome.Some? && s.runs[r].holdsWatcher
      && (s.runs[r].mode == Mode.Async ==> !s.runs[r].holdsPipe)
    case Complete(r) =>
      && r in s.runs && s.runs[r].outcome.Some?
      && !s.runs[r].holdsPipe && !s.runs[r].holdsWatcher
      && s.runs[r].ticket == Awaited && !s.runs[r].reported
  }

  /** Run `r` keeps the last reference to its record (watcher): the caller's
      handle is gone and no other run holds it. */
  ghost predicate LastPipeHolder(s: State, r: nat) {
    && r in s.runs && s.runs[r].pipe in s.pipes && !s.pipes[s.runs[r].pipe].handle
    && forall q :: HoldsPipe(s, q, s.runs[r].pipe) ==> q == r
  }

  ghost predicate LastWatcherHolder(s: State, r: nat, w: nat) {
    && w in s.watchers && !s.watchers[w]
    && forall q :: HoldsWatcher(s, q, w) ==> q == r
  }

  ghost function PipesAfter(s: State, l: Label): map<nat, Pipe>
    requires Enabled(s, l)
  {
    match l
    case NewPipe(p, d) => s.pipes[p := Pipe(true, PipelineModel.NewPipeline(p, d))]
    case Set(p, op) =>
      if SetVerdict(s, p, op) == Applied
      then s.pipes[p := s.pipes[p].(inner := Applied'(op, s.pipes[p].inner))]
      else s.pipes
    case DestroyPipe(p) => s.pipes[p := s.pipes[p].(handle := false)]
    case _ => s.pipes
  }

  function WatchersAfter(s: State, l: Label): map<nat, bool> {
    match l
    case NewWatcher(w) => s.watchers[w := true]
    case DestroyWatcher(w) => s.watchers[w := false]
    case _ => s.watchers
  }

  ghost function RunsAfter(s: State, l: Label): map<nat, Run>
    requires Enabled(s, l)
  {
    match l
    case Launch(r, mode, p, ow) =>
      s.runs[r := Run(mode, p, ow, true, ow.Some?, s.pipes[p].inner, [], None,
                      if mode == Background then Held else Awaited, false, false)]
    case Wait(r) => s.runs[r := s.runs[r].(ticket := Awaited)]
    case Abort(r) => s.runs[r := s.runs[r].(aborted := true)]
    case DestroyRunHandle(r) => s.runs[r := s.runs[r].(ticket := Detached)]
    case Read(r, i) =>
      s.runs[r := s.runs[r].(seen := s.runs[r].seen + [Observe(s.pipes[s.runs[r].pipe].inner, i)])]
    case End(r, out) => s.runs[r := s.runs[r].(outcome := Some(out))]
    case ReleasePipe(r) => s.runs[r := s.runs[r].(holdsPipe := false)]
    case ReleaseWatcher(r) => s.runs[r := s.runs[r].(holdsWatcher := false)]
    case Complete(r) => s.runs[r := s.runs[r].(reported := true)]
    case _ => s.runs
  }

  /** A setter takes its argument over in every case. */
  function IssuedAfter(s: State, l: Label): set<Closure> {
    if l.Set? && Handed(l.op).Some? then s.issued + {Handed(l.op).value} else s.issued
  }

  /** What the step makes observable, in order. A setter's argument that does
      not end up in the record is freed before the call returns; a record or
      watcher is destroyed by whoever gives up the last reference to it. */
  ghost function Events(s: State, l: Label): seq<Event>
    requires Enabled(s, l)
  {
    match l
    case Set(p, op) =>
      if SetVerdict(s, p, op) == Applied then FreeAll(Displaced(op, s.pipes[p].inner))
      else FreeAll(OptSeq(Handed(op)))
    case DestroyPipe(p) => if PipeInUse(s, p) then [] else FreeAll(Owned(s.pipes[p].inner))
    case DestroyWatcher(w) => if WatcherInUse(s, w) then [HandleGone(w)] else [HandleGone(w), WatcherDestroyed(w)]
    case Read(r, i) => [Used(s.pipes[s.runs[r].pipe].inner.tasks[i].task.f, r)]
    case ReadDataId(r) => [Used(s.pipes[s.runs[r].pipe].inner.dataId.value, r)]
    case Emit(r) => [WatcherCall(s.runs[r].watcher.value, r)]
    case ReleasePipe(r) =>
      if LastPipeHolder(s, r) then FreeAll(Owned(s.pipes[s.runs[r].pipe].inner)) else []
    case ReleaseWatcher(r) =>
      if s.runs[r].watcher.Some? && LastWatcherHolder(s, r, s.runs[r].watcher.value)
      then [WatcherDestroyed(s.runs[r].watcher.value)] else []
    case Complete(r) => [Completed(r, s.runs[r].outcome.value)]
    case _ => []
  }

  ghost function Effect(s: State, l: Label): State
    requires Enabled(s, l)
  {
    State(PipesAfter(s, l), WatchersAfter(s, l), RunsAfter(s, l), IssuedAfter(s, l), s.log + Events(s, l))
  }

  ghost function Next(s: State, l: Label): State {
    if Enabled(s, l) then Effect(s, l) else s
  }

  /** The state an interleaving reaches. */
  ghost function Exec(ls: seq<Label>): State {
    if ls == [] then Init else Next(Exec(ls[..|ls| - 1]), ls[|ls| - 1])
  }
}
