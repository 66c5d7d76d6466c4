/** The reference-counted implementation of the protocol: what the C library
    keeps in memory, with `Arc` strong counts in place of the sets of holders
    that `Protocol` speaks of. Each entry point and each executor step is a
    method proved to take the corresponding protocol step. */
module Engine {
  import opened Wrappers
  import opened PipelineModel
  import opened Protocol
  import opened ProtocolInvariant

  /** An `Arc<Pipeline>` allocation. */
  datatype Shared = Shared(strong: nat, inner: Pipeline)

  ghost function PipeHolders(runs: map<nat, Run>, p: nat): set<nat> {
    set r | r in runs && runs[r].holdsPipe && runs[r].pipe == p
  }

  ghost function WatcherHolders(runs: map<nat, Run>, w: nat): set<nat> {
    set r | r in runs && runs[r].holdsWatcher && runs[r].watcher == Some(w)
  }

  function One(b: bool): nat { if b then 1 else 0 }

  /** The library's memory: the two tables of counted allocations, the run table
      and the log, with the caller's side of the contract (which handles are
      still good, which resources were handed over) beside them. */
  datatype Memory = Memory(
    pipes: map<nat, Shared>,
    watchers: map<nat, nat>,
    runs: map<nat, Run>,
    log: seq<Event>,
    pipeHandles: set<nat>,
    watcherHandles: set<nat>,
    issued: set<Closure>)

  /** The protocol state a memory stands for. */
  ghost function View(m: Memory): State {
    State(map p | p in m.pipes :: Pipe(p in m.pipeHandles, m.pipes[p].inner),
          map w | w in m.watchers :: w in m.watcherHandles,
          m.runs, m.issued, m.log)
  }

  /** Each strong count is the number of its holders. */
  ghost predicate PipesCounted(m: Memory) {
    forall p {:trigger PipeHolders(m.runs, p)} :: p in m.pipes ==>
      m.pipes[p].strong == One(p in m.pipeHandles) + |PipeHolders(m.runs, p)|
  }

  ghost predicate WatchersCounted(m: Memory) {
    forall w {:trigger WatcherHolders(m.runs, w)} :: w in m.watchers ==>
      m.watchers[w] == One(w in m.watcherHandles) + |WatcherHolders(m.runs, w)|
  }

  ghost predicate Counted(m: Memory) {
    PipesCounted(m) && WatchersCounted(m) && HoldsWell(View(m))
  }

  /** Two run tables whose runs hold the same records (watchers). */
  ghost predicate SamePipeHolds(runs: map<nat, Run>, runs': map<nat, Run>) {
    forall p :: PipeHolders(runs', p) == PipeHolders(runs, p)
  }

  ghost predicate SameWatcherHolds(runs: map<nat, Run>, runs': map<nat, Run>) {
    forall w :: WatcherHolders(runs', w) == WatcherHolders(runs, w)
  }

  /** A run that changes only what it does not hold through changes no count. */
  lemma SameHolds(runs: map<nat, Run>, r: nat, run: Run)
    requires r in runs && run.pipe == runs[r].pipe && run.watcher == runs[r].watcher
    ensures run.holdsPipe == runs[r].holdsPipe ==> SamePipeHolds(runs, runs[r := run])
    ensures run.holdsWatcher == runs[r].holdsWatcher ==> SameWatcherHolds(runs, runs[r := run])
  {
  }

  lemma GrowsByOne(xs: set<nat>, ys: set<nat>, r: nat, b: bool)
    requires r !in xs && ys == if b then xs + {r} else xs
    ensures |ys| == |xs| + One(b)
  {
  }

  lemma LaunchPipeHolds(runs: map<nat, Run>, r: nat, run: Run, p: nat)
    requires r !in runs && run.holdsPipe
    ensures |PipeHolders(runs[r := run], p)| == |PipeHolders(runs, p)| + One(p == run.pipe)
  {
    GrowsByOne(PipeHolders(runs, p), PipeHolders(runs[r := run], p), r, p == run.pipe);
  }

  lemma LaunchWatcherHolds(runs: map<nat, Run>, r: nat, run: Run, w: nat)
    requires r !in runs && run.holdsWatcher == run.watcher.Some?
    ensures |WatcherHolders(runs[r := run], w)| == |WatcherHolders(runs, w)| + One(run.watcher == Some(w))
  {
    GrowsByOne(WatcherHolders(runs, w), WatcherHolders(runs[r := run], w), r, run.watcher == Some(w));
  }

  lemma ReleasePipeHolds(runs: map<nat, Run>, r: nat, p: nat)
    requires r in runs && runs[r].holdsPipe
    ensures |PipeHolders(runs, p)|
         == |PipeHolders(runs[r := runs[r].(holdsPipe := false)], p)| + One(p == runs[r].pipe)
  {
    GrowsByOne(PipeHolders(runs[r := runs[r].(holdsPipe := false)], p), PipeHolders(runs, p), r, p == runs[r].pipe);
  }

  lemma ReleaseWatcherHolds(runs: map<nat, Run>, r: nat, w: nat)
    requires r in runs && runs[r].holdsWatcher
    ensures |WatcherHolders(runs, w)|
         == |WatcherHolders(runs[r := runs[r].(holdsWatcher := false)], w)| + One(runs[r].watcher == Some(w))
  {
    GrowsByOne(WatcherHolders(runs[r := runs[r].(holdsWatcher := false)], w), WatcherHolders(runs, w), r,
               runs[r].watcher == Some(w));
  }

  /** `Arc::get_mut` looks at the count; the protocol asks for holders. */
  lemma InUseIsHeld(s: State, p: nat)
    ensures PipeInUse(s, p) <==> |PipeHolders(s.runs, p)| > 0
  {
    if PipeInUse(s, p) {
      var r :| HoldsPipe(s, r, p);
      assert r in PipeHolders(s.runs, p);
    }
    if |PipeHolders(s.runs, p)| > 0 {
      var r :| r in PipeHolders(s.runs, p);
      assert HoldsPipe(s, r, p);
    }
  }

  lemma WatchedIsHeld(s: State, w: nat)
    ensures WatcherInUse(s, w) <==> |WatcherHolders(s.runs, w)| > 0
  {
    if WatcherInUse(s, w) {
      var r :| HoldsWatcher(s, r, w);
      assert r in WatcherHolders(s.runs, w);
    }
    if |WatcherHolders(s.runs, w)| > 0 {
      var r :| r in WatcherHolders(s.runs, w);
      assert HoldsWatcher(s, r, w);
    }
  }

  lemma Alone(xs: set<nat>, r: nat)
    requires r in xs
    ensures |xs| == 1 <==> forall q :: q in xs ==> q == r
  {
    assert xs == (xs - {r}) + {r};
    if |xs| == 1 { assert |xs - {r}| == 0; }
    if forall q :: q in xs ==> q == r { assert xs == {r}; }
  }

  lemma LastPipeIsAlone(s: State, r: nat)
    requires r in s.runs && s.runs[r].holdsPipe && s.runs[r].pipe in s.pipes
    ensures LastPipeHolder(s, r) <==> !s.pipes[s.runs[r].pipe].handle && |PipeHolders(s.runs, s.runs[r].pipe)| == 1
  {
    var p := s.runs[r].pipe;
    Alone(PipeHolders(s.runs, p), r);
    assert forall q :: q in PipeHolders(s.runs, p) <==> HoldsPipe(s, q, p);
  }

  lemma LastWatcherIsAlone(s: State, r: nat, w: nat)
    requires r in s.runs && s.runs[r].holdsWatcher && s.runs[r].watcher == Some(w) && w in s.watchers
    ensures LastWatcherHolder(s, r, w) <==> !s.watchers[w] && |WatcherHolders(s.runs, w)| == 1
  {
    Alone(WatcherHolders(s.runs, w), r);
    assert forall q :: q in WatcherHolders(s.runs, w) <==> HoldsWatcher(s, q, w);
  }

  lemma NobodyHoldsTheUnborn(s: State, p: nat)
    requires HoldsWell(s)
    ensures p !in s.pipes ==> PipeHolders(s.runs, p) == {}
    ensures p !in s.watchers ==> WatcherHolders(s.runs, p) == {}
  {
    assert forall r :: r in s.runs ==> RunWell(s.runs[r], s.pipes.Keys, s.watchers.Keys);
  }

  function PipeMade(m: Memory, p: nat, d: string): Memory {
    m.(pipes := m.pipes[p := Shared(1, PipelineModel.NewPipeline(p, d))], pipeHandles := m.pipeHandles + {p})
  }

  lemma NewPipeViews(m: Memory, p: nat, d: string)
    requires Enabled(View(m), NewPipe(p, d))
    ensures View(PipeMade(m, p, d)) == Effect(View(m), NewPipe(p, d))
  {
    assert View(PipeMade(m, p, d)).pipes == PipesAfter(View(m), NewPipe(p, d));
  }

  lemma NewPipeCommits(m: Memory, p: nat, d: string)
    requires Counted(m) && Enabled(View(m), NewPipe(p, d))
    ensures Counted(PipeMade(m, p, d)) && View(PipeMade(m, p, d)) == Next(View(m), NewPipe(p, d))
  {
    NewPipeViews(m, p, d);
    HoldsWellStep(View(m), NewPipe(p, d));
    NobodyHoldsTheUnborn(View(m), p);
  }

  function WatcherMade(m: Memory, w: nat): Memory {
    m.(watchers := m.watchers[w := 1], watcherHandles := m.watcherHandles + {w})
  }

  lemma NewWatcherViews(m: Memory, w: nat)
    requires Enabled(View(m), NewWatcher(w))
    ensures View(WatcherMade(m, w)) == Effect(View(m), NewWatcher(w))
  {
    assert View(WatcherMade(m, w)).watchers == WatchersAfter(View(m), NewWatcher(w));
  }

  lemma NewWatcherCommits(m: Memory, w: nat)
    requires Counted(m) && Enabled(View(m), NewWatcher(w))
    ensures Counted(WatcherMade(m, w)) && View(WatcherMade(m, w)) == Next(View(m), NewWatcher(w))
  {
    NewWatcherViews(m, w);
    HoldsWellStep(View(m), NewWatcher(w));
    NobodyHoldsTheUnborn(View(m), w);
  }

  /** What `Arc::get_mut` grants. */
  lemma MutGranted(m: Memory, p: nat)
    requires PipesCounted(m) && p in m.pipes && p in m.pipeHandles
    ensures m.pipes[p].strong == 1 <==> !PipeInUse(View(m), p)
  {
    InUseIsHeld(View(m), p);
  }

  function Handover(op: Setter): set<Closure> {
    if Handed(op).Some? then {Handed(op).value} else {}
  }

  /** A setter that leaves the record alone and frees what it was handed. */
  function SetPassed(m: Memory, op: Setter): Memory {
    m.(issued := m.issued + Handover(op), log := m.log + FreeAll(OptSeq(Handed(op))))
  }

  lemma SetPassCommits(m: Memory, p: nat, op: Setter)
    requires Counted(m) && Enabled(View(m), Set(p, op)) && SetVerdict(View(m), p, op) != Applied
    ensures Counted(SetPassed(m, op)) && View(SetPassed(m, op)) == Next(View(m), Set(p, op))
  {
    SetPassViews(m, p, op);
    HoldsWellStep(View(m), Set(p, op));
  }

  lemma SetPassViews(m: Memory, p: nat, op: Setter)
    requires Enabled(View(m), Set(p, op)) && SetVerdict(View(m), p, op) != Applied
    ensures View(SetPassed(m, op)) == Effect(View(m), Set(p, op))
  {
    assert m.issued + Handover(op) == IssuedAfter(View(m), Set(p, op));
  }

  function SetApplied(m: Memory, p: nat, op: Setter): Memory
    requires p in m.pipes && ArgumentVerdict(op) == None
  {
    m.(pipes := m.pipes[p := m.pipes[p].(inner := Applied'(op, m.pipes[p].inner))],
       issued := m.issued + Handover(op),
       log := m.log + FreeAll(Displaced(op, m.pipes[p].inner)))
  }

  lemma SetApplyViews(m: Memory, p: nat, op: Setter)
    requires Enabled(View(m), Set(p, op)) && SetVerdict(View(m), p, op) == Applied
    ensures View(SetApplied(m, p, op)) == Effect(View(m), Set(p, op))
  {
    assert m.issued + Handover(op) == IssuedAfter(View(m), Set(p, op));
    assert View(SetApplied(m, p, op)).pipes == PipesAfter(View(m), Set(p, op));
  }

  lemma SetApplyCommits(m: Memory, p: nat, op: Setter)
    requires Counted(m) && Enabled(View(m), Set(p, op)) && SetVerdict(View(m), p, op) == Applied
    ensures Counted(SetApplied(m, p, op)) && View(SetApplied(m, p, op)) == Next(View(m), Set(p, op))
  {
    SetApplyViews(m, p, op);
    HoldsWellStep(View(m), Set(p, op));
  }

  /** Drop one reference; the last one takes the record with it. */
  function DropPipe(m: Memory, p: nat): Memory
    requires p in m.pipes && m.pipes[p].strong > 0
  {
    var m' := m.(pipes := m.pipes[p := m.pipes[p].(strong := m.pipes[p].strong - 1)]);
    if m'.pipes[p].strong == 0 then m'.(log := m.log + FreeAll(Owned(m.pipes[p].inner))) else m'
  }

  function DropWatcher(m: Memory, w: nat): Memory
    requires w in m.watchers && m.watchers[w] > 0
  {
    var m' := m.(watchers := m.watchers[w := m.watchers[w] - 1]);
    if m'.watchers[w] == 0 then m'.(log := m.log + [WatcherDestroyed(w)]) else m'
  }

  function PipeDestroyed(m: Memory, p: nat): Memory
    requires p in m.pipes && m.pipes[p].strong > 0
  {
    DropPipe(m, p).(pipeHandles := m.pipeHandles - {p})
  }

  lemma DestroyPipeViews(m: Memory, p: nat)
    requires PipesCounted(m) && Enabled(View(m), DestroyPipe(p))
    ensures m.pipes[p].strong > 0 && View(PipeDestroyed(m, p)) == Effect(View(m), DestroyPipe(p))
  {
    InUseIsHeld(View(m), p);
    assert View(m).pipes[p].inner == m.pipes[p].inner;
    assert View(PipeDestroyed(m, p)).pipes == PipesAfter(View(m), DestroyPipe(p));
    assert View(PipeDestroyed(m, p)).log == m.log + Events(View(m), DestroyPipe(p));
  }

  lemma DestroyPipeCommits(m: Memory, p: nat)
    requires Counted(m) && Enabled(View(m), DestroyPipe(p))
    ensures m.pipes[p].strong > 0
    ensures Counted(PipeDestroyed(m, p)) && View(PipeDestroyed(m, p)) == Next(View(m), DestroyPipe(p))
  {
    DestroyPipeViews(m, p);
    HoldsWellStep(View(m), DestroyPipe(p));
  }

  function WatcherGone(m: Memory, w: nat): Memory
    requires w in m.watchers && m.watchers[w] > 0
  {
    DropWatcher(m.(log := m.log + [HandleGone(w)]), w).(watcherHandles := m.watcherHandles - {w})
  }

  lemma DestroyWatcherViews(m: Memory, w: nat)
    requires WatchersCounted(m) && Enabled(View(m), DestroyWatcher(w))
    ensures m.watchers[w] > 0 && View(WatcherGone(m, w)) == Effect(View(m), DestroyWatcher(w))
  {
    WatchedIsHeld(View(m), w);
    assert View(WatcherGone(m, w)).watchers == WatchersAfter(View(m), DestroyWatcher(w));
    assert View(WatcherGone(m, w)).log == m.log + Events(View(m), DestroyWatcher(w));
  }

  lemma DestroyWatcherCommits(m: Memory, w: nat)
    requires Counted(m) && Enabled(View(m), DestroyWatcher(w))
    ensures m.watchers[w] > 0
    ensures Counted(WatcherGone(m, w)) && View(WatcherGone(m, w)) == Next(View(m), DestroyWatcher(w))
  {
    DestroyWatcherViews(m, w);
    HoldsWellStep(View(m), DestroyWatcher(w));
  }

  function LaunchedRun(m: Memory, mode: Mode, p: nat, watcher: Option<nat>): Run
    requires p in m.pipes
  {
    Run(mode, p, watcher, true, watcher.Some?, m.pipes[p].inner, [], None,
        if mode == Background then Held else Awaited, false, false)
  }

  function ClonePipe(m: Memory, p: nat): Memory
    requires p in m.pipes
  {
    m.(pipes := m.pipes[p := m.pipes[p].(strong := m.pipes[p].strong + 1)])
  }

  function CloneWatcher(m: Memory, watcher: Option<nat>): Memory
    requires watcher.Some? ==> watcher.value in m.watchers
  {
    match watcher
    case None => m
    case Some(w) => m.(watchers := m.watchers[w := m.watchers[w] + 1])
  }

  function Launched(m: Memory, r: nat, mode: Mode, p: nat, watcher: Option<nat>): Memory
    requires p in m.pipes && (watcher.Some? ==> watcher.value in m.watchers)
  {
    CloneWatcher(ClonePipe(m, p), watcher).(runs := m.runs[r := LaunchedRun(m, mode, p, watcher)])
  }

  lemma LaunchCounts(m: Memory, r: nat, mode: Mode, p: nat, watcher: Option<nat>)
    requires PipesCounted(m) && WatchersCounted(m) && r !in m.runs
    requires p in m.pipes && (watcher.Some? ==> watcher.value in m.watchers)
    ensures PipesCounted(Launched(m, r, mode, p, watcher)) && WatchersCounted(Launched(m, r, mode, p, watcher))
  {
    var run := LaunchedRun(m, mode, p, watcher);
    var m' := Launched(m, r, mode, p, watcher);
    assert m'.runs == m.runs[r := run];
    forall q | q in m'.pipes ensures m'.pipes[q].strong == One(q in m'.pipeHandles) + |PipeHolders(m'.runs, q)| {
      LaunchPipeHolds(m.runs, r, run, q);
      assert |PipeHolders(m.runs, q)| >= 0;
    }
    forall w | w in m'.watchers ensures m'.watchers[w] == One(w in m'.watcherHandles) + |WatcherHolders(m'.runs, w)| {
      LaunchWatcherHolds(m.runs, r, run, w);
      assert |WatcherHolders(m.runs, w)| >= 0;
    }
  }

  lemma LaunchViews(m: Memory, r: nat, mode: Mode, p: nat, watcher: Option<nat>)
    requires Enabled(View(m), Launch(r, mode, p, watcher))
    ensures View(Launched(m, r, mode, p, watcher)) == Effect(View(m), Launch(r, mode, p, watcher))
  {
    assert View(Launched(m, r, mode, p, watcher)).pipes == View(m).pipes;
    assert View(Launched(m, r, mode, p, watcher)).watchers == View(m).watchers;
  }

  lemma LaunchCommits(m: Memory, r: nat, mode: Mode, p: nat, watcher: Option<nat>)
    requires Counted(m) && Enabled(View(m), Launch(r, mode, p, watcher))
    ensures var m' := Launched(m, r, mode, p, watcher);
      Counted(m') && View(m') == Next(View(m), Launch(r, mode, p, watcher))
  {
    LaunchViews(m, r, mode, p, watcher);
    HoldsWellStep(View(m), Launch(r, mode, p, watcher));
    LaunchCounts(m, r, mode, p, watcher);
  }

  predicate PipeReleasable(m: Memory, r: nat) {
    r in m.runs && m.runs[r].holdsPipe && m.runs[r].pipe in m.pipes && m.pipes[m.runs[r].pipe].strong > 0
  }

  function PipeReleased(m: Memory, r: nat): Memory
    requires PipeReleasable(m, r)
  {
    DropPipe(m, m.runs[r].pipe).(runs := m.runs[r := m.runs[r].(holdsPipe := false)])
  }

  lemma HolderCounted(m: Memory, r: nat)
    requires r in m.runs
    ensures PipesCounted(m) && m.runs[r].holdsPipe && m.runs[r].pipe in m.pipes ==> PipeReleasable(m, r)
    ensures (&& WatchersCounted(m) && m.runs[r].holdsWatcher
             && m.runs[r].watcher.Some? && m.runs[r].watcher.value in m.watchers)
              ==> WatcherReleasable(m, r)
  {
    if m.runs[r].holdsPipe { assert r in PipeHolders(m.runs, m.runs[r].pipe); }
    if m.runs[r].holdsWatcher && m.runs[r].watcher.Some? {
      assert r in WatcherHolders(m.runs, m.runs[r].watcher.value);
    }
  }

  lemma ReleasePipeCounts(m: Memory, r: nat)
    requires PipesCounted(m) && WatchersCounted(m) && PipeReleasable(m, r)
    ensures PipesCounted(PipeReleased(m, r)) && WatchersCounted(PipeReleased(m, r))
  {
    var runs', p := m.runs[r := m.runs[r].(holdsPipe := false)], m.runs[r].pipe;
    forall q: nat ensures |PipeHolders(m.runs, q)| == |PipeHolders(runs', q)| + One(q == p) {
      ReleasePipeHolds(m.runs, r, q);
    }
    SameHolds(m.runs, r, m.runs[r].(holdsPipe := false));
  }

  lemma ReleasePipeViews(m: Memory, r: nat)
    requires PipesCounted(m) && PipeReleasable(m, r) && Enabled(View(m), ReleasePipe(r))
    ensures View(PipeReleased(m, r)) == Effect(View(m), ReleasePipe(r))
  {
    LastByCount(m, r);
    ReleasePipeKeepsRecords(m, r);
    assert View(m).pipes[m.runs[r].pipe].inner == m.pipes[m.runs[r].pipe].inner;
    assert View(PipeReleased(m, r)).log == m.log + Events(View(m), ReleasePipe(r));
  }

  lemma LastByCount(m: Memory, r: nat)
    requires PipesCounted(m) && PipeReleasable(m, r)
    ensures LastPipeHolder(View(m), r) <==> m.pipes[m.runs[r].pipe].strong == 1
  {
    LastPipeIsAlone(View(m), r);
    assert r in PipeHolders(m.runs, m.runs[r].pipe);
  }

  lemma ReleasePipeKeepsRecords(m: Memory, r: nat)
    requires PipeReleasable(m, r)
    ensures View(PipeReleased(m, r)).pipes == View(m).pipes
  {
  }

  lemma ReleasePipeCommits(m: Memory, r: nat)
    requires Counted(m) && Enabled(View(m), ReleasePipe(r))
    ensures PipeReleasable(m, r)
    ensures Counted(PipeReleased(m, r)) && View(PipeReleased(m, r)) == Next(View(m), ReleasePipe(r))
  {
    assert RunWell(m.runs[r], View(m).pipes.Keys, View(m).watchers.Keys);
    HolderCounted(m, r);
    ReleasePipeViews(m, r);
    HoldsWellStep(View(m), ReleasePipe(r));
    ReleasePipeCounts(m, r);
  }

  predicate WatcherReleasable(m: Memory, r: nat) {
    && r in m.runs && m.runs[r].holdsWatcher && m.runs[r].watcher.Some?
    && m.runs[r].watcher.value in m.watchers && m.watchers[m.runs[r].watcher.value] > 0
  }

  function WatcherReleased(m: Memory, r: nat): Memory
    requires WatcherReleasable(m, r)
  {
    DropWatcher(m, m.runs[r].watcher.value).(runs := m.runs[r := m.runs[r].(holdsWatcher := false)])
  }

  lemma ReleaseWatcherCounts(m: Memory, r: nat)
    requires PipesCounted(m) && WatchersCounted(m) && WatcherReleasable(m, r)
    ensures PipesCounted(WatcherReleased(m, r)) && WatchersCounted(WatcherReleased(m, r))
  {
    var runs', w := m.runs[r := m.runs[r].(holdsWatcher := false)], m.runs[r].watcher.value;
    forall v: nat ensures |WatcherHolders(m.runs, v)| == |WatcherHolders(runs', v)| + One(v == w) {
      ReleaseWatcherHolds(m.runs, r, v);
    }
    SameHolds(m.runs, r, m.runs[r].(holdsWatcher := false));
  }

  lemma ReleaseWatcherViews(m: Memory, r: nat)
    requires WatchersCounted(m) && WatcherReleasable(m, r) && Enabled(View(m), ReleaseWatcher(r))
    ensures View(WatcherReleased(m, r)) == Effect(View(m), ReleaseWatcher(r))
  {
    var w := m.runs[r].watcher.value;
    LastWatcherIsAlone(View(m), r, w);
    assert r in WatcherHolders(m.runs, w);
    assert LastWatcherHolder(View(m), r, w) <==> m.watchers[w] == 1;
    assert View(WatcherReleased(m, r)).watchers == View(m).watchers;
    assert View(WatcherReleased(m, r)).log == m.log + Events(View(m), ReleaseWatcher(r));
  }

  lemma ReleaseWatcherCommits(m: Memory, r: nat)
    requires Counted(m) && Enabled(View(m), ReleaseWatcher(r))
    ensures WatcherReleasable(m, r)
    ensures Counted(WatcherReleased(m, r)) && View(WatcherReleased(m, r)) == Next(View(m), ReleaseWatcher(r))
  {
    assert RunWell(m.runs[r], View(m).pipes.Keys, View(m).watchers.Keys);
    HolderCounted(m, r);
    ReleaseWatcherViews(m, r);
    HoldsWellStep(View(m), ReleaseWatcher(r));
    ReleaseWatcherCounts(m, r);
  }

  /** Steps that change one run without touching what it holds. */
  predicate RunOnly(l: Label) {
    l.Wait? || l.Abort? || l.DestroyRunHandle? || l.Read? || l.ReadDataId? || l.Emit? || l.End? || l.Complete?
  }

  lemma RunOnlyHolds(s: State, l: Label)
    requires Enabled(s, l) && RunOnly(l)
    ensures SamePipeHolds(s.runs, RunsAfter(s, l)) && SameWatcherHolds(s.runs, RunsAfter(s, l))
  {
  }

  lemma RunOnlyCommits(m: Memory, l: Label)
    requires Counted(m) && Enabled(View(m), l) && RunOnly(l)
    ensures Counted(RunStepped(m, l)) && View(RunStepped(m, l)) == Next(View(m), l)
  {
    RunOnlyViews(m, l);
    HoldsWellStep(View(m), l);
    RunOnlyHolds(View(m), l);
  }

  lemma RunOnlyViews(m: Memory, l: Label)
    requires Enabled(View(m), l) && RunOnly(l)
    ensures RunStepped(m, l).runs == RunsAfter(View(m), l)
    ensures View(RunStepped(m, l)) == Effect(View(m), l)
  {
    assert View(RunStepped(m, l)).pipes == View(m).pipes && View(RunStepped(m, l)).watchers == View(m).watchers;
  }

  /** Steps of a run that touch only its own entry and the log. */
  function RunStepped(m: Memory, l: Label): Memory
    requires RunOnly(l)
  {
    match l
    case Wait(r) => if r in m.runs then m.(runs := m.runs[r := m.runs[r].(ticket := Awaited)]) else m
    case Abort(r) => if r in m.runs then m.(runs := m.runs[r := m.runs[r].(aborted := true)]) else m
    case DestroyRunHandle(r) => if r in m.runs then m.(runs := m.runs[r := m.runs[r].(ticket := Detached)]) else m
    case Read(r, i) =>
      if r in m.runs && m.runs[r].pipe in m.pipes && i < |m.pipes[m.runs[r].pipe].inner.tasks| then
        var inner := m.pipes[m.runs[r].pipe].inner;
        m.(runs := m.runs[r := m.runs[r].(seen := m.runs[r].seen + [Observe(inner, i)])],
           log := m.log + [Used(inner.tasks[i].task.f, r)])
      else m
    case ReadDataId(r) =>
      if r in m.runs && m.runs[r].pipe in m.pipes && m.pipes[m.runs[r].pipe].inner.dataId.Some?
      then m.(log := m.log + [Used(m.pipes[m.runs[r].pipe].inner.dataId.value, r)]) else m
    case Emit(r) =>
      if r in m.runs && m.runs[r].watcher.Some?
      then m.(log := m.log + [WatcherCall(m.runs[r].watcher.value, r)]) else m
    case End(r, out) => if r in m.runs then m.(runs := m.runs[r := m.runs[r].(outcome := Some(out))]) else m
    case Complete(r) =>
      if r in m.runs && m.runs[r].outcome.Some? then
        m.(runs := m.runs[r := m.runs[r].(reported := true)],
           log := m.log + [Completed(r, m.runs[r].outcome.value)])
      else m
  }

  // -------------------------------------------------------------- refinement

  /** `Arc::get_mut` succeeds on the only reference. */
  function MemVerdict(m: Memory, p: nat, op: Setter): Verdict
    requires p in m.pipes
  {
    match ArgumentVerdict(op)
    case Some(v) => v
    case None => if m.pipes[p].strong == 1 then Applied else InUse
  }

  /** What a call or an executor step does to the counts, the tables and the
      log. A step that finds no object to work on does nothing. */
  function MemStep(m: Memory, l: Label): Memory {
    match l
    case NewPipe(p, d) => PipeMade(m, p, d)
    case NewWatcher(w) => WatcherMade(m, w)
    case Set(p, op) =>
      if p !in m.pipes then m
      else if MemVerdict(m, p, op) == Applied then SetApplied(m, p, op)
      else SetPassed(m, op)
    case DestroyPipe(p) => if p in m.pipes && m.pipes[p].strong > 0 then PipeDestroyed(m, p) else m
    case DestroyWatcher(w) => if w in m.watchers && m.watchers[w] > 0 then WatcherGone(m, w) else m
    case Launch(r, mode, p, ow) =>
      if p in m.pipes && (ow.Some? ==> ow.value in m.watchers) then Launched(m, r, mode, p, ow) else m
    case ReleasePipe(r) => if PipeReleasable(m, r) then PipeReleased(m, r) else m
    case ReleaseWatcher(r) => if WatcherReleasable(m, r) then WatcherReleased(m, r) else m
    case _ => RunStepped(m, l)
  }

  /** One step on the counts is one step of the protocol. */
  lemma MemStepRefines(m: Memory, l: Label)
    requires Counted(m) && Enabled(View(m), l)
    ensures Counted(MemStep(m, l)) && View(MemStep(m, l)) == Next(View(m), l)
    ensures l.Set? ==> MemVerdict(m, l.p, l.op) == SetVerdict(View(m), l.p, l.op)
  {
    match l
    case Set(p, op) => SetRefines(m, p, op);
    case NewPipe(_, _) => ObjectStepRefines(m, l);
    case NewWatcher(_) => ObjectStepRefines(m, l);
    case DestroyPipe(_) => ObjectStepRefines(m, l);
    case DestroyWatcher(_) => ObjectStepRefines(m, l);
    case Launch(_, _, _, _) => HolderStepRefines(m, l);
    case ReleasePipe(_) => HolderStepRefines(m, l);
    case ReleaseWatcher(_) => HolderStepRefines(m, l);
    case _ => RunOnlyCommits(m, l);
  }

  lemma ObjectStepRefines(m: Memory, l: Label)
    requires Counted(m) && Enabled(View(m), l)
    requires l.NewPipe? || l.NewWatcher? || l.DestroyPipe? || l.DestroyWatcher?
    ensures Counted(MemStep(m, l)) && View(MemStep(m, l)) == Next(View(m), l)
  {
    match l
    case NewPipe(p, d) => NewPipeCommits(m, p, d);
    case NewWatcher(w) => NewWatcherCommits(m, w);
    case DestroyPipe(p) => DestroyPipeCommits(m, p);
    case DestroyWatcher(w) => DestroyWatcherCommits(m, w);
  }

  lemma HolderStepRefines(m: Memory, l: Label)
    requires Counted(m) && Enabled(View(m), l) && (l.Launch? || l.ReleasePipe? || l.ReleaseWatcher?)
    ensures Counted(MemStep(m, l)) && View(MemStep(m, l)) == Next(View(m), l)
  {
    match l
    case Launch(r, mode, p, ow) => LaunchCommits(m, r, mode, p, ow);
    case ReleasePipe(r) => ReleasePipeCommits(m, r);
    case ReleaseWatcher(r) => ReleaseWatcherCommits(m, r);
  }

  lemma SetRefines(m: Memory, p: nat, op: Setter)
    requires Counted(m) && Enabled(View(m), Set(p, op))
    ensures MemVerdict(m, p, op) == SetVerdict(View(m), p, op)
    ensures Counted(MemStep(m, Set(p, op))) && View(MemStep(m, Set(p, op))) == Next(View(m), Set(p, op))
  {
    MutGranted(m, p);
    if MemVerdict(m, p, op) == Applied { SetApplyCommits(m, p, op); } else { SetPassCommits(m, p, op); }
  }

  const EmptyMemory := Memory(map[], map[], map[], [], {}, {}, {})

  /** The memory an interleaving of well-formed calls and steps leaves behind. */
  ghost function MemExec(ls: seq<Label>): Memory {
    if ls == [] then EmptyMemory
    else
      var m := MemExec(ls[..|ls| - 1]);
      if Enabled(View(m), ls[|ls| - 1]) then MemStep(m, ls[|ls| - 1]) else m
  }

  /** The counted library refines the protocol on every interleaving, so all that
      `ProtocolTheorems` proves of `Exec(ls)` holds of its memory. */
  lemma {:induction false} LibraryRefinesProtocol(ls: seq<Label>)
    ensures Counted(MemExec(ls)) && View(MemExec(ls)) == Exec(ls)
  {
    if ls == [] {
      assert View(EmptyMemory) == Init;
    } else {
      var n := |ls| - 1;
      LibraryRefinesProtocol(ls[..n]);
      if Enabled(Exec(ls[..n]), ls[n]) { MemStepRefines(MemExec(ls[..n]), ls[n]); }
    }
  }

  // ---------------------------------------------------------------- the class

  /** A memory that counts correctly and shows a state with every protocol
      invariant. */
  ghost predicate Sound(m: Memory) {
    Counted(m) && Inv(View(m))
  }

  lemma SoundStep(m: Memory, l: Label, m': Memory)
    requires Sound(m) && Enabled(View(m), l) && m' == MemStep(m, l)
    ensures Sound(m') && View(m') == Next(View(m), l)
    ensures l.Set? ==> MemVerdict(m, l.p, l.op) == SetVerdict(View(m), l.p, l.op)
  {
    MemStepRefines(m, l);
    InvStep(View(m), l);
  }

  lemma SoundEmpty()
    ensures Sound(EmptyMemory) && View(EmptyMemory) == Init
  {
    LibraryRefinesProtocol([]);
    InvReachable([]);
  }

  /** A good handle is a reference of its own. */
  lemma HandleCounted(m: Memory)
    requires Sound(m)
    ensures forall p :: p in m.pipes && p in m.pipeHandles ==> m.pipes[p].strong > 0
    ensures forall w :: w in m.watchers && w in m.watcherHandles ==> m.watchers[w] > 0
  {
    forall p | p in m.pipes && p in m.pipeHandles ensures m.pipes[p].strong > 0 {
      assert |PipeHolders(m.runs, p)| >= 0;
    }
    forall w | w in m.watchers && w in m.watcherHandles ensures m.watchers[w] > 0 {
      assert |WatcherHolders(m.runs, w)| >= 0;
    }
  }

  lemma SetterDone(m: Memory, p: nat, op: Setter, verdict: Verdict, m': Memory)
    requires Sound(m) && Enabled(View(m), Set(p, op))
    requires verdict == MemVerdict(m, p, op) && m' == MemStep(m, Set(p, op))
    ensures Sound(m') && View(m') == Next(View(m), Set(p, op)) && verdict == SetVerdict(View(m), p, op)
  {
    SoundStep(m, Set(p, op), m');
  }

  lemma StoppedReleasable(m: Memory, r: nat)
    requires Sound(m) && r in m.runs
    ensures m.runs[r].holdsPipe ==> PipeReleasable(m, r)
    ensures m.runs[r].holdsWatcher ==> WatcherReleasable(m, r)
  {
    assert RunWell(View(m).runs[r], View(m).pipes.Keys, View(m).watchers.Keys);
    HolderCounted(m, r);
  }

  /** What a run reads through its reference is its launch record. */
  lemma SharedIsLaunched(m: Memory, r: nat)
    requires Sound(m) && r in m.runs && m.runs[r].outcome == None
    ensures m.runs[r].pipe in m.pipes && m.pipes[m.runs[r].pipe].inner == m.runs[r].launched
  {
    assert RunWell(View(m).runs[r], View(m).pipes.Keys, View(m).watchers.Keys);
    assert View(m).pipes[m.runs[r].pipe].inner == m.pipes[m.runs[r].pipe].inner;
  }

  /** Watchers that nobody keeps any more. */
  ghost predicate Abandoned(s: State, w: nat) {
    w in s.watchers && !s.watchers[w] && !WatcherInUse(s, w)
  }

  /** At the moment a run reports, every abandoned watcher has been destroyed. */
  lemma ReportStep(m: Memory, r: nat, m': Memory)
    requires Sound(m) && Enabled(View(m), Complete(r)) && m' == MemStep(m, Complete(r))
    ensures Sound(m') && View(m') == Next(View(m), Complete(r))
    ensures m'.log == m.log + [Completed(r, m.runs[r].outcome.value)]
    ensures r in m'.runs && !m'.runs[r].holdsPipe && !m'.runs[r].holdsWatcher
    ensures forall w :: Abandoned(View(m'), w) ==> WatcherDestroyed(w) in m.log
  {
    SoundStep(m, Complete(r), m');
    assert View(m').log == m'.log && View(m).log == m.log;
    forall w | Abandoned(View(m'), w) ensures WatcherDestroyed(w) in m.log {
      assert WatcherDestroyed(w) in m'.log;
    }
  }

  /** The run has stopped and still holds all it was launched with. */
  predicate JustStopped(run: Run) {
    && run.outcome.Some? && run.holdsPipe && run.holdsWatcher == run.watcher.Some?
    && run.ticket == Awaited && !run.reported
  }

  /** The tail of the async entry point as protocol steps. */
  lemma AsyncTail(s: State, r: nat)
    requires Inv(s) && r in s.runs && JustStopped(s.runs[r]) && s.runs[r].mode == Mode.Async
    ensures Enabled(s, ReleasePipe(r))
    ensures var s1 := Next(s, ReleasePipe(r));
            var s2 := Next(s1, ReleaseWatcher(r));
            && (if s.runs[r].watcher.Some? then Enabled(s1, ReleaseWatcher(r)) else s2 == s1)
            && Enabled(s2, Complete(r)) && s2.runs[r].outcome == s.runs[r].outcome
  {
    assert RunWell(s.runs[r], s.pipes.Keys, s.watchers.Keys);
  }

  /** The tail of the blocking entry point. */
  lemma BlockingTail(s: State, r: nat)
    requires Inv(s) && r in s.runs && JustStopped(s.runs[r]) && s.runs[r].mode == Blocking
    ensures var s1 := Next(s, ReleaseWatcher(r));
            var s2 := Next(s1, ReleasePipe(r));
            && (if s.runs[r].watcher.Some? then Enabled(s, ReleaseWatcher(r)) else s1 == s)
            && Enabled(s1, ReleasePipe(r))
            && Enabled(s2, Complete(r)) && s2.runs[r].outcome == s.runs[r].outcome
  {
    assert RunWell(s.runs[r], s.pipes.Keys, s.watchers.Keys);
  }

  /** The library as the caller meets it. Each method is one entry point (or one
      piece of executor code), working on the counts in place: it keeps the counts
      exact and every protocol invariant, and takes the protocol step it is named
      after. What a precondition asks beyond `Valid` is what the protocol asks of
      that step. */
  class Library {
    var pipes: map<nat, Shared>
    var watchers: map<nat, nat>
    var runs: map<nat, Run>
    var log: seq<Event>
    ghost var pipeHandles: set<nat>
    ghost var watcherHandles: set<nat>
    ghost var issued: set<Closure>

    ghost function Mem(): Memory
      reads this
    {
      Memory(pipes, watchers, runs, log, pipeHandles, watcherHandles, issued)
    }

    ghost predicate Valid()
      reads this
    {
      Sound(Mem())
    }

    /** The protocol state the library is in. */
    ghost function Abs(): State
      reads this
    {
      View(Mem())
    }

    constructor ()
      ensures Valid() && Abs() == Init
    {
      pipes, watchers, runs, log := map[], map[], map[], [];
      pipeHandles, watcherHandles, issued := {}, {}, {};
      SoundEmpty();
    }

    // ------------------------------------------------------------- pipelines

    method PipelineNew(p: nat, description: string)
      requires Valid() && Enabled(Abs(), NewPipe(p, description))
      modifies this
      ensures Valid() && Abs() == Next(old(Abs()), NewPipe(p, description))
    {
      ghost var before := Mem();
      pipes := pipes[p := Shared(1, PipelineModel.NewPipeline(p, description))];
      pipeHandles := pipeHandles + {p};
      SoundStep(before, NewPipe(p, description), Mem());
    }

    /** `Arc::get_mut`: exclusive access unless a run still shares the record. */
    method PipelineMut(p: nat) returns (granted: bool)
      requires Valid() && p in pipes && p in pipeHandles
      ensures granted <==> !PipeInUse(Abs(), p)
      ensures granted <==> pipes[p].strong == 1
    {
      granted := pipes[p].strong == 1;
      MutGranted(Mem(), p);
    }

    method SetName(p: nat, name: CString) returns (verdict: Verdict)
      requires Valid() && Enabled(Abs(), Set(p, Setter.SetName(name)))
      modifies this
      ensures Valid() && Abs() == Next(old(Abs()), Set(p, Setter.SetName(name)))
      ensures verdict == SetVerdict(old(Abs()), p, Setter.SetName(name))
    {
      ghost var before := Mem();
      if name == NullPtr {
        verdict := Ignored;
      } else if name == BadUtf8 {
        verdict := BadArgument;
      } else {
        var granted := PipelineMut(p);
        if granted {
          pipes := pipes[p := pipes[p].(inner := pipes[p].inner.(name := Some(name.text)))];
        }
        verdict := if granted then Applied else InUse;
      }
      SetterDone(before, p, Setter.SetName(name), verdict, Mem());
    }

    method SetBatchSize(p: nat, size: nat) returns (verdict: Verdict)
      requires Valid() && Enabled(Abs(), Set(p, Setter.SetBatchSize(size)))
      modifies this
      ensures Valid() && Abs() == Next(old(Abs()), Set(p, Setter.SetBatchSize(size)))
      ensures verdict == SetVerdict(old(Abs()), p, Setter.SetBatchSize(size))
    {
      ghost var before := Mem();
      if size == 0 {
        verdict := Ignored;
      } else {
        var granted := PipelineMut(p);
        if granted {
          pipes := pipes[p := pipes[p].(inner := pipes[p].inner.(batchSize := size))];
        }
        verdict := if granted then Applied else InUse;
      }
      SetterDone(before, p, Setter.SetBatchSize(size), verdict, Mem());
    }

    method SetConcurrency(p: nat, n: nat) returns (verdict: Verdict)
      requires Valid() && Enabled(Abs(), Set(p, Setter.SetConcurrency(n)))
      modifies this
      ensures Valid() && Abs() == Next(old(Abs()), Set(p, Setter.SetConcurrency(n)))
      ensures verdict == SetVerdict(old(Abs()), p, Setter.SetConcurrency(n))
    {
      ghost var before := Mem();
      if n == 0 {
        verdict := Ignored;
      } else {
        var granted := PipelineMut(p);
        if granted {
          pipes := pipes[p := pipes[p].(inner := pipes[p].inner.(concurrency := n))];
        }
        verdict := if granted then Applied else InUse;
      }
      SetterDone(before, p, Setter.SetConcurrency(n), verdict, Mem());
    }

    method SetRetryNone(p: nat) returns (verdict: Verdict)
      requires Valid() && Enabled(Abs(), Set(p, Setter.SetRetryNone))
      modifies this
      ensures Valid() && Abs() == Next(old(Abs()), Set(p, Setter.SetRetryNone))
      ensures verdict == SetVerdict(old(Abs()), p, Setter.SetRetryNone)
    {
      ghost var before := Mem();
      var granted := PipelineMut(p);
      if granted {
        pipes := pipes[p := pipes[p].(inner := pipes[p].inner.(retry := NoRetry))];
      }
      verdict := if granted then Applied else InUse;
      SetterDone(before, p, Setter.SetRetryNone, verdict, Mem());
    }

    method SetRetryLimited(p: nat, maxAttempts: nat, delay: RetryDelay) returns (verdict: Verdict)
      requires Valid() && Enabled(Abs(), Set(p, Setter.SetRetryLimited(maxAttempts, delay)))
      modifies this
      ensures Valid() && Abs() == Next(old(Abs()), Set(p, Setter.SetRetryLimited(maxAttempts, delay)))
      ensures verdict == SetVerdict(old(Abs()), p, Setter.SetRetryLimited(maxAttempts, delay))
    {
      ghost var before := Mem();
      if maxAttempts == 0 {
        verdict := BadArgument;
      } else {
        var granted := PipelineMut(p);
        if granted {
          pipes := pipes[p := pipes[p].(inner := pipes[p].inner.(retry := Limited(maxAttempts, delay)))];
        }
        verdict := if granted then Applied else InUse;
      }
      SetterDone(before, p, Setter.SetRetryLimited(maxAttempts, delay), verdict, Mem());
    }

    /** Takes ownership of `info` before asking for access, so that a refused
        call frees it. */
    method AddTask(p: nat, info: Option<TaskInfo>) returns (verdict: Verdict)
      requires Valid() && Enabled(Abs(), Set(p, Setter.AddTask(info)))
      modifies this
      ensures Valid() && Abs() == Next(old(Abs()), Set(p, Setter.AddTask(info)))
      ensures verdict == SetVerdict(old(Abs()), p, Setter.AddTask(info))
    {
      ghost var before := Mem();
      if info == None {
        verdict := Ignored;
      } else {
        var granted := PipelineMut(p);
        issued := issued + {info.value.task.f};
        if granted {
          pipes := pipes[p := pipes[p].(inner := pipes[p].inner.(tasks := pipes[p].inner.tasks + [info.value]))];
        } else {
          log := log + [Freed(info.value.task.f)];
        }
        verdict := if granted then Applied else InUse;
      }
      SetterDone(before, p, Setter.AddTask(info), verdict, Mem());
    }

    /** The function that loses its last reference, refused or displaced, frees
        its user data. */
    method SetDataIdFn(p: nat, userData: Closure) returns (verdict: Verdict)
      requires Valid() && Enabled(Abs(), Set(p, SetDataId(userData)))
      modifies this
      ensures Valid() && Abs() == Next(old(Abs()), Set(p, SetDataId(userData)))
      ensures verdict == SetVerdict(old(Abs()), p, SetDataId(userData))
    {
      ghost var before := Mem();
      var granted := PipelineMut(p);
      issued := issued + {userData};
      if granted {
        var displaced := pipes[p].inner.dataId;
        pipes := pipes[p := pipes[p].(inner := pipes[p].inner.(dataId := Some(userData)))];
        if displaced.Some? {
          log := log + [Freed(displaced.value)];
        }
      } else {
        log := log + [Freed(userData)];
      }
      verdict := if granted then Applied else InUse;
      SetterDone(before, p, SetDataId(userData), verdict, Mem());
    }

    /** Drop one reference; the last one takes the record with it. */
    method DropPipeRef(p: nat)
      requires p in pipes && pipes[p].strong > 0
      modifies this`pipes, this`log
      ensures Mem() == DropPipe(old(Mem()), p)
    {
      pipes := pipes[p := pipes[p].(strong := pipes[p].strong - 1)];
      if pipes[p].strong == 0 {
        log := log + FreeAll(Owned(pipes[p].inner));
      }
    }

    method DropWatcherRef(w: nat)
      requires w in watchers && watchers[w] > 0
      modifies this`watchers, this`log
      ensures Mem() == DropWatcher(old(Mem()), w)
    {
      watchers := watchers[w := watchers[w] - 1];
      if watchers[w] == 0 {
        log := log + [WatcherDestroyed(w)];
      }
    }

    method PipelineDestroy(p: nat)
      requires Valid() && Enabled(Abs(), DestroyPipe(p))
      modifies this
      ensures Valid() && Abs() == Next(old(Abs()), DestroyPipe(p))
    {
      ghost var before := Mem();
      HandleCounted(before);
      DropPipeRef(p);
      pipeHandles := pipeHandles - {p};
      SoundStep(before, DestroyPipe(p), Mem());
    }

    // -------------------------------------------------------------- watchers

    method WatcherNew(w: nat)
      requires Valid() && Enabled(Abs(), NewWatcher(w))
      modifies this
      ensures Valid() && Abs() == Next(old(Abs()), NewWatcher(w))
    {
      ghost var before := Mem();
      watchers := watchers[w := 1];
      watcherHandles := watcherHandles + {w};
      SoundStep(before, NewWatcher(w), Mem());
    }

    method WatcherDestroy(w: nat)
      requires Valid() && Enabled(Abs(), DestroyWatcher(w))
      modifies this
      ensures Valid() && Abs() == Next(old(Abs()), DestroyWatcher(w))
    {
      ghost var before := Mem();
      HandleCounted(before);
      log := log + [HandleGone(w)];
      DropWatcherRef(w);
      watcherHandles := watcherHandles - {w};
      SoundStep(before, DestroyWatcher(w), Mem());
    }

    // ------------------------------------------------------------------ runs

    /** What every execute entry point starts with: clone both references. */
    method Execute(r: nat, mode: Mode, p: nat, watcher: Option<nat>)
      requires Valid() && Enabled(Abs(), Launch(r, mode, p, watcher))
      modifies this
      ensures Valid() && Abs() == Next(old(Abs()), Launch(r, mode, p, watcher))
    {
      ghost var before := Mem();
      var run := Run(mode, p, watcher, true, watcher.Some?, pipes[p].inner, [], None,
                     if mode == Background then Held else Awaited, false, false);
      pipes := pipes[p := pipes[p].(strong := pipes[p].strong + 1)];
      if watcher.Some? {
        watchers := watchers[watcher.value := watchers[watcher.value] + 1];
      }
      runs := runs[r := run];
      SoundStep(before, Launch(r, mode, p, watcher), Mem());
    }

    /** The executor reads task `i` through its reference to the shared record,
        and finds the task its launch record had there. */
    method ReadTask(r: nat, i: nat) returns (info: TaskInfo)
      requires Valid() && Enabled(Abs(), Read(r, i))
      modifies this
      ensures Valid() && Abs() == Next(old(Abs()), Read(r, i))
      ensures i < |old(runs[r].launched.tasks)| && info == old(runs[r].launched.tasks)[i]
    {
      ghost var before := Mem();
      SharedIsLaunched(before, r);
      var inner := pipes[runs[r].pipe].inner;
      info := inner.tasks[i];
      log := log + [Used(info.task.f, r)];
      runs := runs[r := runs[r].(seen := runs[r].seen + [Observe(inner, i)])];
      SoundStep(before, Read(r, i), Mem());
    }

    /** The executor asks for the data-id function, and finds the one of its
        launch record. */
    method CallDataId(r: nat) returns (f: Closure)
      requires Valid() && Enabled(Abs(), ReadDataId(r))
      modifies this
      ensures Valid() && Abs() == Next(old(Abs()), ReadDataId(r))
      ensures Some(f) == old(runs[r].launched.dataId)
    {
      ghost var before := Mem();
      SharedIsLaunched(before, r);
      f := pipes[runs[r].pipe].inner.dataId.value;
      log := log + [Used(f, r)];
      SoundStep(before, ReadDataId(r), Mem());
    }

    /** The executor calls its watcher, which is still there to be called. */
    method CallWatcher(r: nat)
      requires Valid() && Enabled(Abs(), Emit(r))
      modifies this
      ensures Valid() && Abs() == Next(old(Abs()), Emit(r))
      ensures WatcherDestroyed(old(runs[r].watcher.value)) !in log
    {
      ghost var before := Mem();
      log := log + [WatcherCall(runs[r].watcher.value, r)];
      SoundStep(before, Emit(r), Mem());
      WatcherEventFits(View(before), Emit(r), WatcherCall(runs[r].watcher.value, r));
    }

    /** The executor has returned `outcome`. */
    method Stop(r: nat, outcome: Outcome)
      requires Valid() && Enabled(Abs(), End(r, outcome))
      modifies this
      ensures Valid() && Abs() == Next(old(Abs()), End(r, outcome))
    {
      ghost var before := Mem();
      runs := runs[r := runs[r].(outcome := Some(outcome))];
      SoundStep(before, End(r, outcome), Mem());
    }

    method ReleasePipeline(r: nat)
      requires Valid() && Enabled(Abs(), ReleasePipe(r))
      modifies this
      ensures Valid() && Abs() == Next(old(Abs()), ReleasePipe(r))
    {
      ghost var before := Mem();
      StoppedReleasable(before, r);
      DropPipeRef(runs[r].pipe);
      runs := runs[r := runs[r].(holdsPipe := false)];
      SoundStep(before, ReleasePipe(r), Mem());
    }

    method ReleaseRunWatcher(r: nat)
      requires Valid() && Enabled(Abs(), ReleaseWatcher(r))
      modifies this
      ensures Valid() && Abs() == Next(old(Abs()), ReleaseWatcher(r))
    {
      ghost var before := Mem();
      StoppedReleasable(before, r);
      DropWatcherRef(runs[r].watcher.value);
      runs := runs[r := runs[r].(holdsWatcher := false)];
      SoundStep(before, ReleaseWatcher(r), Mem());
    }

    /** The completion callback fires, or the blocking call returns. A watcher
        that nobody keeps any more has been destroyed before. */
    method Report(r: nat) returns (outcome: Outcome)
      requires Valid() && Enabled(Abs(), Complete(r))
      modifies this
      ensures Valid() && Abs() == Next(old(Abs()), Complete(r))
      ensures Some(outcome) == old(runs[r].outcome) && log == old(log) + [Completed(r, outcome)]
      ensures r in runs && !runs[r].holdsPipe && !runs[r].holdsWatcher
      ensures forall w :: Abandoned(Abs(), w) ==> WatcherDestroyed(w) in old(log)
    {
      ghost var before := Mem();
      outcome := runs[r].outcome.value;
      log := log + [Completed(r, outcome)];
      runs := runs[r := runs[r].(reported := true)];
      ReportStep(before, r, Mem());
    }

    /** The two drops of the async entry point, once the executor has returned. */
    method ReleaseBoth(r: nat)
      requires Valid() && r in runs && JustStopped(runs[r]) && runs[r].mode == Mode.Async
      modifies this
      ensures Valid() && Abs() == Next(Next(old(Abs()), ReleasePipe(r)), ReleaseWatcher(r))
      ensures r in runs && runs[r].outcome == old(runs[r].outcome)
      ensures Enabled(Abs(), Complete(r))
    {
      AsyncTail(Abs(), r);
      var watched := runs[r].watcher.Some?;
      ReleasePipeline(r);
      if watched {
        ReleaseRunWatcher(r);
      }
    }

    /** The tail of the async entry point: drop the pipeline, drop the watcher, and
        only then call back. */
    method FinishAsync(r: nat) returns (outcome: Outcome)
      requires Valid() && r in runs && JustStopped(runs[r]) && runs[r].mode == Mode.Async
      modifies this
      ensures Valid() && Abs() == Next(Next(Next(old(Abs()), ReleasePipe(r)), ReleaseWatcher(r)), Complete(r))
      ensures r in runs && !runs[r].holdsPipe && !runs[r].holdsWatcher
      ensures log != [] && log[|log| - 1] == Completed(r, outcome) && Some(outcome) == old(runs[r].outcome)
      ensures forall w :: Abandoned(Abs(), w) ==> WatcherDestroyed(w) in log[..|log| - 1]
    {
      ReleaseBoth(r);
      outcome := Report(r);
    }

    /** The tail of the blocking entry point: the watcher goes first. */
    method FinishBlocking(r: nat) returns (outcome: Outcome)
      requires Valid() && r in runs && JustStopped(runs[r]) && runs[r].mode == Blocking
      modifies this
      ensures Valid() && Abs() == Next(Next(Next(old(Abs()), ReleaseWatcher(r)), ReleasePipe(r)), Complete(r))
      ensures r in runs && !runs[r].holdsPipe && !runs[r].holdsWatcher
      ensures log != [] && log[|log| - 1] == Completed(r, outcome) && Some(outcome) == old(runs[r].outcome)
      ensures forall w :: Abandoned(Abs(), w) ==> WatcherDestroyed(w) in log[..|log| - 1]
    {
      BlockingTail(Abs(), r);
      if runs[r].watcher.Some? {
        ReleaseRunWatcher(r);
      }
      ReleasePipeline(r);
      outcome := Report(r);
    }

    method HandleWait(r: nat)
      requires Valid() && Enabled(Abs(), Wait(r))
      modifies this`runs
      ensures Valid() && Abs() == Next(old(Abs()), Wait(r))
      ensures SamePipeHolds(old(runs), runs) && SameWatcherHolds(old(runs), runs)
    {
      ghost var before := Mem();
      runs := runs[r := runs[r].(ticket := Awaited)];
      SoundStep(before, Wait(r), Mem());
      SameHolds(before.runs, r, runs[r]);
    }

    method HandleAbort(r: nat)
      requires Valid() && Enabled(Abs(), Abort(r))
      modifies this`runs
      ensures Valid() && Abs() == Next(old(Abs()), Abort(r))
      ensures SamePipeHolds(old(runs), runs) && SameWatcherHolds(old(runs), runs)
    {
      ghost var before := Mem();
      runs := runs[r := runs[r].(aborted := true)];
      SoundStep(before, Abort(r), Mem());
      SameHolds(before.runs, r, runs[r]);
    }

    /** Detaching changes no count, no record and nobody's references. */
    method HandleDestroy(r: nat)
      requires Valid() && Enabled(Abs(), DestroyRunHandle(r))
      modifies this`runs
      ensures Valid() && Abs() == Next(old(Abs()), DestroyRunHandle(r))
      ensures SamePipeHolds(old(runs), runs) && SameWatcherHolds(old(runs), runs)
    {
      ghost var before := Mem();
      runs := runs[r := runs[r].(ticket := Detached)];
      SoundStep(before, DestroyRunHandle(r), Mem());
      SameHolds(before.runs, r, runs[r]);
    }
  }
}
