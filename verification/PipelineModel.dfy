/** The pipeline record of the engine: task list, settings, and what a run can
    observe of them. */
module PipelineModel {
  import opened Wrappers

  /** A task closure. In the C binding each closure owns the caller's
      `user_data`, so its identity also names that resource. */
  type Closure = nat

  datatype Task =
    | Sync(f: Closure)
    | Async(f: Closure)
    | SyncIter(f: Closure)
    | AsyncStream(f: Closure)
    | SyncBatch(f: Closure)
    | AsyncBatch(f: Closure)
    | SyncIterBatch(f: Closure)
    | AsyncStreamBatch(f: Closure)

  datatype TaskInfo = TaskInfo(
    task: Task,
    name: Option<string>,
    batchSize: Option<nat>,
    summary: Option<string>,
    weight: nat,
    enriches: bool,
    limiter: Option<nat>)

  datatype RetryDelay = Constant(baseMs: nat) | Exponential(baseMs: nat, factor: nat)

  datatype RetryPolicy = NoRetry | Limited(maxAttempts: nat, delay: RetryDelay)

  datatype Pipeline = Pipeline(
    id: nat,
    name: Option<string>,
    description: string,
    tasks: seq<TaskInfo>,
    retry: RetryPolicy,
    batchSize: nat,
    dataId: Option<Closure>,
    concurrency: nat,
    telemetry: Option<nat>,
    limiter: Option<nat>,
    recoveryLock: Option<nat>)

  function NewPipeline(id: nat, description: string): Pipeline {
    Pipeline(id, None, description, [], NoRetry, 32, None, 1, None, None, None)
  }

  function NewTaskInfo(task: Task): TaskInfo {
    TaskInfo(task, None, None, None, 1, false, None)
  }

  /** How a run ended, as its completion callback reports it. */
  datatype Outcome = Succeeded | NoTasks | InvalidConfig | TaskFailed | Cancelled | RunRecordFailed

  /** The checks made before the first watcher event of a run. */
  function Preflight(p: Pipeline): Option<Outcome> {
    if p.tasks == [] then Some(NoTasks)
    else if p.batchSize == 0 || p.concurrency == 0 then Some(InvalidConfig)
    else None
  }

  /** No tasks, or a setting that must be positive is zero. */
  predicate Bad(p: Pipeline) {
    p.tasks == [] || p.batchSize == 0 || p.concurrency == 0
  }

  /** The outcomes the executor may report for `p`. The executor itself is
      uninterpreted: only the checks that precede any task are pinned down.
      An aborted future is dropped at its next await point, and a blocking run
      whose own runtime cannot be built fails, both even before those checks. */
  predicate MayEnd(p: Pipeline, blocking: bool, aborted: bool, outcome: Outcome) {
    match Preflight(p)
    case Some(e) => outcome == e || (aborted && outcome == Cancelled) || (blocking && outcome == TaskFailed)
    case None => outcome != NoTasks
  }

  /** One look of an executor at the record it is running: the task at an
      index together with the settings in force. */
  datatype Obs = Obs(
    index: nat,
    info: TaskInfo,
    taskCount: nat,
    name: Option<string>,
    retry: RetryPolicy,
    batchSize: nat,
    dataId: Option<Closure>,
    concurrency: nat)

  function Observe(p: Pipeline, i: nat): Obs
    requires i < |p.tasks|
  {
    Obs(i, p.tasks[i], |p.tasks|, p.name, p.retry, p.batchSize, p.dataId, p.concurrency)
  }

  /** An observation of `p`, field by field. */
  predicate ObsOf(p: Pipeline, o: Obs) {
    && o.index < |p.tasks| && o.info == p.tasks[o.index] && o.taskCount == |p.tasks|
    && o.name == p.name && o.retry == p.retry && o.batchSize == p.batchSize
    && o.dataId == p.dataId && o.concurrency == p.concurrency
  }
}
