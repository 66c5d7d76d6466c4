/** The invariants of the run/ownership protocol and their preservation by
    every step. */
module ProtocolInvariant {
  import opened Wrappers
  import opened PipelineModel
  import opened Protocol

  // ------------------------------------------------------------- invariants

  /** A run names existing objects, holds them until it has stopped, and reports
      only after letting go of both. */
  predicate RunWell(run: Run, pipes: set<nat>, watchers: set<nat>) {
    && run.pipe in pipes
    && (run.watcher.Some? ==> run.watcher.value in watchers)
    && (run.holdsWatcher ==> run.watcher.Some?)
    && (run.outcome == None ==> run.holdsPipe && run.holdsWatcher == run.watcher.Some?)
    && (run.reported ==> run.outcome.Some? && !run.holdsPipe && !run.holdsWatcher && run.ticket == Awaited)
  }

  ghost predicate HoldsWell(s: State) {
    forall r :: r in s.runs ==> RunWell(s.runs[r], s.pipes.Keys, s.watchers.Keys)
  }

  /** All a run ever read came from the record it was launched with, and so did
      the checks that bound its outcome. */
  predicate RunFaithful(run: Run) {
    && (forall k :: 0 <= k < |run.seen| ==> ObsOf(run.launched, run.seen[k]))
    && (run.outcome.Some? ==> MayEnd(run.launched, run.mode == Blocking, run.aborted, run.outcome.value))
  }

  /** While a run holds a record it is the record it was launched with. */
  ghost predicate Frozen(s: State) {
    forall r :: r in s.runs ==>
      && RunFaithful(s.runs[r])
      && (s.runs[r].holdsPipe && s.runs[r].pipe in s.pipes ==>
            s.pipes[s.runs[r].pipe].inner == s.runs[r].launched)
  }

  /** A watcher has been destroyed exactly when nobody holds it. */
  ghost predicate WatchersExact(s: State) {
    && (forall w :: HandleGone(w) in s.log <==> w in s.watchers && !s.watchers[w])
    && (forall w :: WatcherDestroyed(w) in s.log <==>
                      w in s.watchers && !s.watchers[w] && !WatcherInUse(s, w))
  }

  ghost predicate Owns(s: State, p: nat, x: Closure) {
    Live(s, p) && x in Owned(s.pipes[p].inner)
  }

  /** Every resource handed over is owned by exactly one live record or freed. */
  ghost predicate Conserved(s: State) {
    && (forall p, x :: Owns(s, p, x) ==>
          multiset(Owned(s.pipes[p].inner))[x] == 1 && x in s.issued && Freed(x) !in s.log)
    && (forall p, q, x :: Owns(s, p, x) && Owns(s, q, x) ==> p == q)
    && (forall x :: Freed(x) in s.log ==> x in s.issued)
    && (forall x :: x in s.issued && Freed(x) !in s.log ==> exists p :: Owns(s, p, x))
  }

  /** `b` may not come after `a`: nothing is destroyed twice or used once
      destroyed, and a completed run is never heard of again. */
  predicate Conflicts(a: Event, b: Event) {
    match a
    case Freed(x) => b == Freed(x) || (b.Used? && b.x == x)
    case WatcherDestroyed(w) =>
      b == WatcherDestroyed(w) || b == HandleGone(w) || (b.WatcherCall? && b.w == w)
    case HandleGone(w) => b == HandleGone(w)
    case Completed(r, _) =>
      (b.Completed? && b.run == r) || (b.Used? && b.run == r) || (b.WatcherCall? && b.run == r)
    case _ => false
  }

  ghost predicate LogSafe(log: seq<Event>) {
    forall i, j :: 0 <= i < j < |log| ==> !Conflicts(log[i], log[j])
  }

  ghost predicate LogExact(s: State) {
    && LogSafe(s.log)
    && (forall r, out :: Completed(r, out) in s.log <==>
          r in s.runs && s.runs[r].reported && s.runs[r].outcome == Some(out))
  }

  ghost predicate Inv(s: State) {
    HoldsWell(s) && Frozen(s) && WatchersExact(s) && Conserved(s) && LogExact(s)
  }

  // ---------------------------------------------------------------- helpers

  lemma FreeAllMembers(log: seq<Event>, xs: seq<Closure>)
    ensures forall x :: Freed(x) in log + FreeAll(xs) <==> Freed(x) in log || x in xs
    ensures forall e: Event :: !e.Freed? ==> (e in log + FreeAll(xs) <==> e in log)
  {
    forall x ensures Freed(x) in FreeAll(xs) <==> x in xs {
      if x in xs {
        var i :| 0 <= i < |xs| && xs[i] == x;
        assert FreeAll(xs)[i] == Freed(x);
      }
    }
  }

  lemma OwnedAddTask(p: Pipeline, info: TaskInfo)
    ensures multiset(Owned(p.(tasks := p.tasks + [info]))) == multiset(Owned(p)) + multiset{info.task.f}
  {
    var fs := seq(|p.tasks|, i requires 0 <= i < |p.tasks| => p.tasks[i].task.f);
    var p' := p.(tasks := p.tasks + [info]);
    assert Owned(p') == fs + [info.task.f] + OptSeq(p.dataId);
  }

  lemma OwnedSetDataId(p: Pipeline, ud: Closure)
    ensures multiset(Owned(p.(dataId := Some(ud)))) + multiset(OptSeq(p.dataId)) == multiset(Owned(p)) + multiset{ud}
  {
    var fs := seq(|p.tasks|, i requires 0 <= i < |p.tasks| => p.tasks[i].task.f);
    assert Owned(p) == fs + OptSeq(p.dataId);
    assert Owned(p.(dataId := Some(ud))) == fs + [ud];
  }

  /** What an applied setter does to the owned resources: the displaced ones
      leave, the handed one arrives. */
  lemma OwnedApplied(op: Setter, p: Pipeline)
    requires ArgumentVerdict(op) == None
    ensures multiset(Owned(Applied'(op, p))) + multiset(Displaced(op, p))
         == multiset(Owned(p)) + multiset(OptSeq(Handed(op)))
  {
    match op
    case AddTask(Some(info)) => OwnedAddTask(p, info);
    case SetDataId(ud) => OwnedSetDataId(p, ud);
    case SetName(_) => assert Owned(Applied'(op, p)) == Owned(p);
    case _ =>
  }

  lemma LogSafeAppend(log: seq<Event>, es: seq<Event>)
    requires LogSafe(log) && LogSafe(es)
    requires forall a, b :: a in log && b in es ==> !Conflicts(a, b)
    ensures LogSafe(log + es)
  {
    var all := log + es;
    forall i, j | 0 <= i < j < |all| ensures !Conflicts(all[i], all[j]) {
      if i < |log| <= j {
        assert all[i] in log && all[j] in es;
      } else if j < |log| {
        assert all[i] == log[i] && all[j] == log[j];
      } else {
        assert all[i] == es[i - |log|] && all[j] == es[j - |log|];
      }
    }
  }

  lemma RepeatedTwice<T>(xs: seq<T>, i: nat, j: nat)
    requires i < j < |xs| && xs[i] == xs[j]
    ensures multiset(xs)[xs[i]] >= 2
  {
    assert xs == xs[..j] + [xs[j]] + xs[j + 1..];
    assert xs[..j][i] == xs[j];
    assert xs[j] in multiset(xs[..j]);
  }

  lemma FreeAllSafe(xs: seq<Closure>)
    requires forall x :: multiset(xs)[x] <= 1
    ensures LogSafe(FreeAll(xs))
  {
    forall i, j | 0 <= i < j < |xs| && xs[i] == xs[j] ensures false {
      RepeatedTwice(xs, i, j);
    }
  }

  // ----------------------------------------------------------- preservation

  /** The run a step is about, if any. */
  function Actor(l: Label): Option<nat> {
    match l
    case Launch(r, _, _, _) => Some(r)
    case Wait(r) => Some(r)
    case Abort(r) => Some(r)
    case DestroyRunHandle(r) => Some(r)
    case Read(r, _) => Some(r)
    case End(r, _) => Some(r)
    case ReleasePipe(r) => Some(r)
    case ReleaseWatcher(r) => Some(r)
    case Complete(r) => Some(r)
    case _ => None
  }

  /** No step touches another run, forgets an object, or rewrites the log. */
  lemma StepFrame(s: State, l: Label)
    requires Enabled(s, l)
    ensures forall r :: r in s.runs && Actor(l) != Some(r) ==>
              r in Effect(s, l).runs && Effect(s, l).runs[r] == s.runs[r]
    ensures Effect(s, l).runs.Keys == s.runs.Keys + set r | r in OptSeq(Actor(l))
    ensures s.pipes.Keys <= Effect(s, l).pipes.Keys && s.watchers.Keys <= Effect(s, l).watchers.Keys
    ensures s.log <= Effect(s, l).log
  {
    match l case _ =>
  }

  lemma HoldsWellStep(s: State, l: Label)
    requires HoldsWell(s) && Enabled(s, l)
    ensures HoldsWell(Effect(s, l))
  {
    var s' := Effect(s, l);
    StepFrame(s, l);
    forall r | r in s'.runs ensures RunWell(s'.runs[r], s'.pipes.Keys, s'.watchers.Keys) {
      if r in s.runs {
        assert RunWell(s.runs[r], s.pipes.Keys, s.watchers.Keys);
      }
    }
  }

  /** A record changes only through an applied setter, and none applies while a
      run holds it. */
  lemma RecordFrame(s: State, l: Label, p: nat)
    requires Enabled(s, l) && p in s.pipes
    ensures p in Effect(s, l).pipes
    ensures !(l.Set? && l.p == p && SetVerdict(s, p, l.op) == Applied) ==>
              Effect(s, l).pipes[p].inner == s.pipes[p].inner
  {
  }

  lemma FaithfulActor(s: State, l: Label, r: nat)
    requires HoldsWell(s) && Frozen(s) && Enabled(s, l) && Actor(l) == Some(r)
    ensures RunFaithful(Effect(s, l).runs[r])
    ensures Effect(s, l).runs[r].holdsPipe && Effect(s, l).runs[r].pipe in s.pipes ==>
              s.pipes[Effect(s, l).runs[r].pipe].inner == Effect(s, l).runs[r].launched
  {
    if r in s.runs {
      assert RunWell(s.runs[r], s.pipes.Keys, s.watchers.Keys);
      assert RunFaithful(s.runs[r]);
    }
  }

  lemma FrozenStep(s: State, l: Label)
    requires HoldsWell(s) && Frozen(s) && Enabled(s, l)
    ensures Frozen(Effect(s, l))
  {
    StepFrame(s, l);
    forall r | r in Effect(s, l).runs { FrozenAt(s, l, Effect(s, l), r); }
  }

  lemma FrozenAt(s: State, l: Label, s': State, r: nat)
    requires HoldsWell(s) && Frozen(s) && Enabled(s, l) && s' == Effect(s, l) && r in s'.runs
    ensures RunFaithful(s'.runs[r])
    ensures s'.runs[r].holdsPipe && s'.runs[r].pipe in s'.pipes ==>
              s'.pipes[s'.runs[r].pipe].inner == s'.runs[r].launched
  {
    StepFrame(s, l);
    if Actor(l) == Some(r) {
      FaithfulActor(s, l, r);
      if s'.runs[r].pipe in s.pipes { RecordFrame(s, l, s'.runs[r].pipe); }
    } else {
      assert RunWell(s.runs[r], s.pipes.Keys, s.watchers.Keys);
      assert s.runs[r].holdsPipe ==> HoldsPipe(s, r, s.runs[r].pipe);
      RecordFrame(s, l, s.runs[r].pipe);
    }
  }

  predicate WatcherStep(l: Label) {
    l.NewWatcher? || l.DestroyWatcher? || l.Launch? || l.ReleaseWatcher?
  }

  /** Every other step leaves watchers, their holders and their events alone. */
  lemma QuietForWatchers(s: State, l: Label)
    requires HoldsWell(s) && Enabled(s, l) && !WatcherStep(l)
    ensures Effect(s, l).watchers == s.watchers
    ensures forall r, w :: HoldsWatcher(Effect(s, l), r, w) <==> HoldsWatcher(s, r, w)
  {
  }

  lemma QuietForWatcherLog(s: State, l: Label, e: Event)
    requires HoldsWell(s) && Enabled(s, l) && !WatcherStep(l) && (e.HandleGone? || e.WatcherDestroyed?)
    ensures e in Effect(s, l).log <==> e in s.log
  {
    match l
    case Set(p, op) =>
      FreeAllMembers(s.log, Displaced(op, s.pipes[p].inner));
      FreeAllMembers(s.log, OptSeq(Handed(op)));
    case DestroyPipe(p) =>
      FreeAllMembers(s.log, Owned(s.pipes[p].inner));
    case ReleasePipe(r) =>
      assert RunWell(s.runs[r], s.pipes.Keys, s.watchers.Keys);
      FreeAllMembers(s.log, Owned(s.pipes[s.runs[r].pipe].inner));
    case _ =>
  }

  lemma WatchersExactLaunch(s: State, l: Label)
    requires HoldsWell(s) && WatchersExact(s) && Enabled(s, l) && l.Launch?
    ensures WatchersExact(Effect(s, l))
  {
    var s', r, ow := Effect(s, l), l.r, l.watcher;
    assert s'.log == s.log && s'.watchers == s.watchers;
    forall v: nat ensures WatcherInUse(s', v) <==> WatcherInUse(s, v) || ow == Some(v) {
      if WatcherInUse(s, v) { var q :| HoldsWatcher(s, q, v); assert HoldsWatcher(s', q, v); }
      if ow == Some(v) { assert HoldsWatcher(s', r, v); }
      if WatcherInUse(s', v) { var q :| HoldsWatcher(s', q, v); assert q == r || HoldsWatcher(s, q, v); }
    }
  }

  lemma WatchersExactRelease(s: State, l: Label)
    requires HoldsWell(s) && WatchersExact(s) && Enabled(s, l) && l.ReleaseWatcher?
    ensures WatchersExact(Effect(s, l))
  {
    var s', r := Effect(s, l), l.r;
    assert RunWell(s.runs[r], s.pipes.Keys, s.watchers.Keys);
    var w := s.runs[r].watcher.value;
    assert HoldsWatcher(s, r, w);
    forall v: nat ensures WatcherInUse(s', v) <==> exists q :: HoldsWatcher(s, q, v) && !(q == r && v == w) {
      if WatcherInUse(s', v) { var q :| HoldsWatcher(s', q, v); assert HoldsWatcher(s, q, v); }
      if q :| HoldsWatcher(s, q, v) && !(q == r && v == w) { assert HoldsWatcher(s', q, v); }
    }
    forall v: nat | v != w ensures WatcherInUse(s', v) <==> WatcherInUse(s, v) {
      if WatcherInUse(s, v) { var q :| HoldsWatcher(s, q, v); assert !(q == r && v == w); }
    }
  }

  lemma WatchersExactHandle(s: State, l: Label)
    requires HoldsWell(s) && WatchersExact(s) && Enabled(s, l) && (l.NewWatcher? || l.DestroyWatcher?)
    ensures WatchersExact(Effect(s, l))
  {
    var s' := Effect(s, l);
    assert s'.runs == s.runs;
    assert forall q, v :: HoldsWatcher(s', q, v) <==> HoldsWatcher(s, q, v);
    assert forall v :: WatcherInUse(s', v) <==> WatcherInUse(s, v);
  }

  lemma WatchersExactStep(s: State, l: Label)
    requires HoldsWell(s) && WatchersExact(s) && Enabled(s, l)
    ensures WatchersExact(Effect(s, l))
  {
    if !WatcherStep(l) {
      QuietForWatchers(s, l);
      forall e: Event | e.HandleGone? || e.WatcherDestroyed? { QuietForWatcherLog(s, l, e); }
      WatchUnchanged(s, Effect(s, l));
    } else if l.Launch? {
      WatchersExactLaunch(s, l);
    } else if l.ReleaseWatcher? {
      WatchersExactRelease(s, l);
    } else {
      WatchersExactHandle(s, l);
    }
  }

  /** Steps that touch neither watchers, nor who holds them, nor their events. */
  lemma WatchUnchanged(s: State, s': State)
    requires WatchersExact(s) && s'.watchers == s.watchers
    requires forall r, w :: HoldsWatcher(s', r, w) <==> HoldsWatcher(s, r, w)
    requires forall e: Event :: e.HandleGone? || e.WatcherDestroyed? ==> (e in s'.log <==> e in s.log)
    ensures WatchersExact(s')
  {
    assert forall w :: WatcherInUse(s', w) <==> WatcherInUse(s, w);
  }

  // ------------------------------------------------- conservation of resources

  /** Liveness of a record changes only when it loses its last holder. */
  lemma LiveFrame(s: State, l: Label, p: nat)
    requires HoldsWell(s) && Enabled(s, l)
    requires !l.DestroyPipe? && !l.ReleasePipe? && !(l.NewPipe? && l.p == p)
    ensures Live(Effect(s, l), p) <==> Live(s, p)
  {
    var s' := Effect(s, l);
    StepFrame(s, l);
    if Live(s, p) && !s.pipes[p].handle {
      var r :| HoldsPipe(s, r, p);
      assert HoldsPipe(s', r, p);
    }
    if Live(s', p) && !s'.pipes[p].handle {
      var r :| HoldsPipe(s', r, p);
      assert HoldsPipe(s, r, p) || (l.Launch? && l.p == p);
    }
  }

  lemma QuietForFreed(s: State, l: Label, x: Closure)
    requires HoldsWell(s) && Enabled(s, l) && !l.Set? && !l.DestroyPipe? && !l.ReleasePipe?
    ensures Freed(x) in Effect(s, l).log <==> Freed(x) in s.log
    ensures Effect(s, l).issued == s.issued
  {
  }

  lemma ConservedQuiet(s: State, l: Label)
    requires HoldsWell(s) && Conserved(s) && Enabled(s, l)
    requires !l.Set? && !l.DestroyPipe? && !l.ReleasePipe?
    ensures Conserved(Effect(s, l))
  {
    var s' := Effect(s, l);
    forall x { QuietForFreed(s, l, x); }
    forall p: nat
      ensures l.NewPipe? && l.p == p ==> forall x :: !Owns(s, p, x) && !Owns(s', p, x)
      ensures !(l.NewPipe? && l.p == p) ==> (Live(s', p) <==> Live(s, p))
      ensures Live(s', p) && Live(s, p) ==> s'.pipes[p].inner == s.pipes[p].inner
    {
      if l.NewPipe? && l.p == p {
        assert s'.pipes[p].inner.tasks == [] && s'.pipes[p].inner.dataId == None;
      } else {
        LiveFrame(s, l, p);
        if Live(s, p) { RecordFrame(s, l, p); }
      }
    }
    assert forall p, x :: Owns(s', p, x) <==> Owns(s, p, x);
  }

  /** Record `p` has just lost its last holder and its resources were freed. */
  lemma ConservedDrop(s: State, s': State, p: nat)
    requires Conserved(s) && Live(s, p) && s'.issued == s.issued
    requires forall q :: Live(s', q) <==> Live(s, q) && q != p
    requires forall q :: Live(s', q) ==> q in s.pipes && s'.pipes[q].inner == s.pipes[q].inner
    requires forall x :: Freed(x) in s'.log <==> Freed(x) in s.log || x in Owned(s.pipes[p].inner)
    ensures Conserved(s')
  {
    assert forall q, x :: Owns(s', q, x) <==> Owns(s, q, x) && q != p;
    forall x | x in Owned(s.pipes[p].inner) ensures Owns(s, p, x) && x in s.issued {
      assert Owns(s, p, x);
    }
  }

  lemma ConservedKeep(s: State, s': State)
    requires Conserved(s) && s'.issued == s.issued
    requires forall q :: Live(s', q) <==> Live(s, q)
    requires forall q :: Live(s', q) ==> q in s.pipes && s'.pipes[q].inner == s.pipes[q].inner
    requires forall x :: Freed(x) in s'.log <==> Freed(x) in s.log
    ensures Conserved(s')
  {
    assert forall q, x :: Owns(s', q, x) <==> Owns(s, q, x);
  }

  lemma ConservedDestroy(s: State, l: Label)
    requires HoldsWell(s) && Conserved(s) && Enabled(s, l) && l.DestroyPipe?
    ensures Conserved(Effect(s, l))
  {
    var s', p := Effect(s, l), l.p;
    FreeAllMembers(s.log, Owned(s.pipes[p].inner));
    assert forall r, q :: HoldsPipe(s', r, q) <==> HoldsPipe(s, r, q);
    assert forall q :: PipeInUse(s', q) <==> PipeInUse(s, q);
    if PipeInUse(s, p) {
      assert s'.log == s.log;
      ConservedKeep(s, s');
    } else {
      ConservedDrop(s, s', p);
    }
  }

  lemma ConservedReleasePipe(s: State, l: Label)
    requires HoldsWell(s) && Conserved(s) && Enabled(s, l) && l.ReleasePipe?
    ensures Conserved(Effect(s, l))
  {
    var s', r := Effect(s, l), l.r;
    assert RunWell(s.runs[r], s.pipes.Keys, s.watchers.Keys);
    var p := s.runs[r].pipe;
    FreeAllMembers(s.log, Owned(s.pipes[p].inner));
    assert HoldsPipe(s, r, p);
    forall q: nat ensures q != p ==> (Live(s', q) <==> Live(s, q))
                  ensures Live(s', p) <==> !LastPipeHolder(s, r)
    {
      if o :| HoldsPipe(s, o, q) && !(o == r && q == p) { assert HoldsPipe(s', o, q); }
      if o :| HoldsPipe(s', o, q) { assert HoldsPipe(s, o, q); }
      if o :| HoldsPipe(s, o, p) && o != r { assert HoldsPipe(s', o, p); }
      if o :| HoldsPipe(s', o, p) { assert HoldsPipe(s, o, p); }
    }
    if LastPipeHolder(s, r) {
      ConservedDrop(s, s', p);
    } else {
      ConservedKeep(s, s');
    }
  }

  /** Conservation as a relation: `own(p, x)` says that record `p` owns `x`. */
  ghost predicate Balanced(own: (nat, Closure) -> bool, issued: set<Closure>, freed: Closure -> bool) {
    && (forall p: nat, x :: own(p, x) ==> x in issued && !freed(x))
    && (forall p: nat, q: nat, x :: own(p, x) && own(q, x) ==> p == q)
    && (forall x :: freed(x) ==> x in issued)
    && (forall x :: x in issued && !freed(x) ==> exists p: nat :: own(p, x))
  }

  lemma BalancedSwap(own: (nat, Closure) -> bool, issued: set<Closure>, freed: Closure -> bool,
                     own': (nat, Closure) -> bool, issued': set<Closure>, freed': Closure -> bool,
                     p: nat, given: seq<Closure>, out: seq<Closure>)
    requires Balanced(own, issued, freed)
    requires forall x :: x in issued' <==> x in issued || x in given
    requires forall x :: x in given ==> x !in issued
    requires forall x :: x in out ==> own(p, x)
    requires forall x :: freed'(x) <==> freed(x) || x in out
    requires forall q: nat, x :: q != p ==> (own'(q, x) <==> own(q, x))
    requires forall x :: own'(p, x) <==> (own(p, x) && x !in out) || x in given
    ensures Balanced(own', issued', freed')
  {
    forall x | x in issued' && !freed'(x) ensures exists q: nat :: own'(q, x) {
      if x in given {
        assert own'(p, x);
      } else {
        var q: nat :| own(q, x);
        assert own'(q, x);
      }
    }
  }

  ghost function Owning(s: State): (nat, Closure) -> bool {
    (p: nat, x: Closure) => Owns(s, p, x)
  }

  function Gone(s: State): Closure -> bool {
    (x: Closure) => Freed(x) in s.log
  }

  lemma ConservedIff(s: State)
    ensures Conserved(s) <==>
              && Balanced(Owning(s), s.issued, Gone(s))
              && forall p: nat, x :: Owns(s, p, x) ==> multiset(Owned(s.pipes[p].inner))[x] == 1
  {
    assert forall p: nat, x :: Owning(s)(p, x) <==> Owns(s, p, x);
    assert forall x :: Gone(s)(x) <==> Freed(x) in s.log;
  }

  /** Record `p` swapped the resources `out` for `given`. */
  lemma ConservedSwap(s: State, s': State, p: nat, given: seq<Closure>, out: seq<Closure>)
    requires Conserved(s) && Live(s, p) && Live(s', p)
    requires forall x :: x in s'.issued <==> x in s.issued || x in given
    requires forall x :: x in given ==> x !in s.issued
    requires forall x :: x in out ==> x in Owned(s.pipes[p].inner)
    requires forall q :: Live(s', q) <==> Live(s, q)
    requires forall q :: Live(s', q) && q != p ==> q in s.pipes && s'.pipes[q].inner == s.pipes[q].inner
    requires forall x :: Freed(x) in s'.log <==> Freed(x) in s.log || x in out
    requires forall x :: x in Owned(s'.pipes[p].inner) <==> (x in Owned(s.pipes[p].inner) && x !in out) || x in given
    requires forall x :: x in Owned(s'.pipes[p].inner) ==> multiset(Owned(s'.pipes[p].inner))[x] == 1
    ensures Conserved(s')
  {
    ConservedIff(s);
    forall q: nat, x ensures q != p ==> (Owns(s', q, x) <==> Owns(s, q, x))
                     ensures Owns(s', q, x) ==> multiset(Owned(s'.pipes[q].inner))[x] == 1
    {
      if q != p && Live(s', q) && x in Owned(s.pipes[q].inner) { assert Owns(s, q, x); }
    }
    forall x ensures Owns(s', p, x) <==> (Owns(s, p, x) && x !in out) || x in given { }
    BalancedSwap(Owning(s), s.issued, Gone(s), Owning(s'), s'.issued, Gone(s'), p, given, out);
    ConservedIff(s');
  }

  /** The resources `given` came and went; no record changed. */
  lemma ConservedPass(s: State, s': State, given: seq<Closure>)
    requires Conserved(s) && s'.pipes == s.pipes && s'.runs == s.runs
    requires forall x :: x in s'.issued <==> x in s.issued || x in given
    requires forall x :: x in given ==> x !in s.issued
    requires forall x :: Freed(x) in s'.log <==> Freed(x) in s.log || x in given
    ensures Conserved(s')
  {
    assert forall q, r :: HoldsPipe(s', r, q) <==> HoldsPipe(s, r, q);
    assert forall q, x :: Owns(s', q, x) <==> Owns(s, q, x);
  }

  lemma ConservedSet(s: State, l: Label)
    requires HoldsWell(s) && Conserved(s) && Enabled(s, l) && l.Set?
    ensures Conserved(Effect(s, l))
  {
    var s', p, op := Effect(s, l), l.p, l.op;
    var inner, given := s.pipes[p].inner, OptSeq(Handed(op));
    if SetVerdict(s, p, op) == Applied {
      var out := Displaced(op, inner);
      forall q: nat
        ensures Live(s', q) <==> Live(s, q)
        ensures Live(s', q) && q != p ==> q in s.pipes && s'.pipes[q].inner == s.pipes[q].inner
      {
        LiveFrame(s, l, q);
        if q in s.pipes { RecordFrame(s, l, q); }
      }
      FreeAllMembers(s.log, out);
      forall x { SetMembership(op, inner, s, p, x); }
      ConservedSwap(s, s', p, given, out);
    } else {
      FreeAllMembers(s.log, given);
      ConservedPass(s, s', given);
    }
  }

  lemma SetMembership(op: Setter, inner: Pipeline, s: State, p: nat, x: Closure)
    requires Conserved(s) && p in s.pipes && s.pipes[p].handle && s.pipes[p].inner == inner
    requires ArgumentVerdict(op) == None
    requires Handed(op).Some? ==> Handed(op).value !in s.issued
    ensures x in Owned(Applied'(op, inner)) <==>
              (x in Owned(inner) && x !in Displaced(op, inner)) || x in OptSeq(Handed(op))
    ensures x in Displaced(op, inner) ==> x in Owned(inner)
    ensures x in Owned(Applied'(op, inner)) ==> multiset(Owned(Applied'(op, inner)))[x] == 1
  {
    OwnedApplied(op, inner);
    var a, d := multiset(Owned(Applied'(op, inner))), multiset(Displaced(op, inner));
    var o, g := multiset(Owned(inner)), multiset(OptSeq(Handed(op)));
    assert (a + d)[x] == (o + g)[x];
    assert x in o <==> x in Owned(inner);
    assert x in a <==> x in Owned(Applied'(op, inner));
    assert x in Owned(inner) ==> Owns(s, p, x);
    if x in Displaced(op, inner) {
      assert inner.dataId == Some(x);
      assert Owned(inner)[|inner.tasks|] == x;
    }
  }

  lemma ConservedStep(s: State, l: Label)
    requires HoldsWell(s) && Conserved(s) && Enabled(s, l)
    ensures Conserved(Effect(s, l))
  {
    match l
    case Set(_, _) => ConservedSet(s, l);
    case DestroyPipe(_) => ConservedDestroy(s, l);
    case ReleasePipe(_) => ConservedReleasePipe(s, l);
    case _ => ConservedQuiet(s, l);
  }

  // ------------------------------------------------------------- the history

  /** A resource owned by a record that a run holds. */
  lemma HeldNotFreed(s: State, r: nat, x: Closure)
    requires Conserved(s) && r in s.runs && s.runs[r].holdsPipe && s.runs[r].pipe in s.pipes
    requires x in Owned(s.pipes[s.runs[r].pipe].inner)
    ensures Freed(x) !in s.log
  {
    assert HoldsPipe(s, r, s.runs[r].pipe);
    assert Owns(s, s.runs[r].pipe, x);
  }

  lemma OwnedMembers(p: Pipeline)
    ensures forall i :: 0 <= i < |p.tasks| ==> p.tasks[i].task.f in Owned(p)
    ensures p.dataId.Some? ==> p.dataId.value in Owned(p)
  {
    forall i | 0 <= i < |p.tasks| ensures p.tasks[i].task.f in Owned(p) {
      assert Owned(p)[i] == p.tasks[i].task.f;
    }
    if p.dataId.Some? { assert Owned(p)[|p.tasks|] == p.dataId.value; }
  }

  lemma FreshForSet(s: State, l: Label, x: Closure)
    requires Conserved(s) && Enabled(s, l) && l.Set? && Freed(x) in Events(s, l)
    ensures Freed(x) !in s.log
  {
    if SetVerdict(s, l.p, l.op) == Applied {
      SetMembership(l.op, s.pipes[l.p].inner, s, l.p, x);
      assert x in Displaced(l.op, s.pipes[l.p].inner);
      assert Owns(s, l.p, x);
    } else {
      assert x in OptSeq(Handed(l.op));
    }
  }

  /** A resource about to be freed or used has not been freed before. */
  lemma FreshEnough(s: State, l: Label, x: Closure)
    requires Inv(s) && Enabled(s, l)
    requires Freed(x) in Events(s, l) || exists r :: Used(x, r) in Events(s, l)
    ensures Freed(x) !in s.log
  {
    match l
    case Set(p, op) => FreshForSet(s, l, x);
    case DestroyPipe(p) => assert Owns(s, p, x);
    case ReleasePipe(r) => HeldNotFreed(s, r, x);
    case Read(r, _) => FreshForUse(s, l, r, x);
    case ReadDataId(r) => FreshForUse(s, l, r, x);
    case _ =>
  }

  lemma FreshForUse(s: State, l: Label, r: nat, x: Closure)
    requires Inv(s) && Enabled(s, l) && (l.Read? || l == ReadDataId(r)) && (l.Read? ==> l.r == r)
    requires Used(x, r) in Events(s, l)
    ensures Freed(x) !in s.log
  {
    assert RunWell(s.runs[r], s.pipes.Keys, s.watchers.Keys);
    OwnedMembers(s.pipes[s.runs[r].pipe].inner);
    HeldNotFreed(s, r, x);
  }

  lemma RunEventFits(s: State, l: Label, r: nat, out: Outcome)
    requires Inv(s) && Enabled(s, l)
    requires exists e :: e in Events(s, l) &&
               ((e.Used? && e.run == r) || (e.WatcherCall? && e.run == r) || (e.Completed? && e.run == r))
    ensures Completed(r, out) !in s.log
  {
    assert Actor(l) == Some(r) || l == ReadDataId(r) || l == Emit(r);
    assert RunWell(s.runs[r], s.pipes.Keys, s.watchers.Keys);
  }

  lemma WatcherEventFits(s: State, l: Label, e: Event)
    requires Inv(s) && Enabled(s, l) && e in Events(s, l)
    ensures e.WatcherDestroyed? || e.HandleGone? || e.WatcherCall? ==> WatcherDestroyed(e.w) !in s.log
    ensures e.HandleGone? ==> e !in s.log
  {
    match l
    case ReleaseWatcher(r) =>
      assert RunWell(s.runs[r], s.pipes.Keys, s.watchers.Keys);
      assert HoldsWatcher(s, r, s.runs[r].watcher.value);
    case Emit(r) =>
      assert RunWell(s.runs[r], s.pipes.Keys, s.watchers.Keys);
      assert HoldsWatcher(s, r, s.runs[r].watcher.value);
    case _ =>
  }

  lemma NewEventsSafe(s: State, l: Label)
    requires Inv(s) && Enabled(s, l)
    ensures LogSafe(Events(s, l))
  {
    match l
    case Set(_, _) => SetEventsSafe(s, l);
    case DestroyPipe(p) => RecordFreedSafely(s, p);
    case ReleasePipe(r) =>
      assert HoldsPipe(s, r, s.runs[r].pipe);
      RecordFreedSafely(s, s.runs[r].pipe);
    case _ => FewEventsSafe(s, l);
  }

  lemma SetEventsSafe(s: State, l: Label)
    requires Enabled(s, l) && l.Set?
    ensures LogSafe(Events(s, l))
  {
    FreeAllSafe(OptSeq(Handed(l.op)));
    FreeAllSafe(Displaced(l.op, s.pipes[l.p].inner));
  }

  lemma FewEventsSafe(s: State, l: Label)
    requires Enabled(s, l) && !l.Set? && !l.DestroyPipe? && !l.ReleasePipe?
    ensures LogSafe(Events(s, l))
  {
  }

  lemma RecordFreedSafely(s: State, p: nat)
    requires Conserved(s)
    ensures Live(s, p) ==> LogSafe(FreeAll(Owned(s.pipes[p].inner)))
  {
    if Live(s, p) {
      forall x ensures multiset(Owned(s.pipes[p].inner))[x] <= 1 {
        if x in Owned(s.pipes[p].inner) { assert Owns(s, p, x); }
      }
      FreeAllSafe(Owned(s.pipes[p].inner));
    }
  }

  lemma EventFits(s: State, l: Label, a: Event, b: Event)
    requires Inv(s) && Enabled(s, l) && a in s.log && b in Events(s, l)
    ensures !Conflicts(a, b)
  {
    if b.Freed? || b.Used? { FreshEnough(s, l, b.x); }
    if a.Completed? && (b.Used? || b.WatcherCall? || b.Completed?) && b.run == a.run {
      RunEventFits(s, l, a.run, a.outcome);
    }
    WatcherEventFits(s, l, b);
  }

  lemma LogExactStep(s: State, l: Label)
    requires Inv(s) && Enabled(s, l)
    ensures LogExact(Effect(s, l))
  {
    var s', es := Effect(s, l), Events(s, l);
    NewEventsSafe(s, l);
    forall a, b | a in s.log && b in es ensures !Conflicts(a, b) { EventFits(s, l, a, b); }
    LogSafeAppend(s.log, es);
    forall r, out ensures Completed(r, out) in s'.log <==>
          r in s'.runs && s'.runs[r].reported && s'.runs[r].outcome == Some(out)
    {
      CompletedExact(s, l, r, out);
    }
  }

  lemma CompletedExact(s: State, l: Label, r: nat, out: Outcome)
    requires HoldsWell(s) && LogExact(s) && Enabled(s, l)
    ensures Completed(r, out) in Effect(s, l).log <==>
          r in Effect(s, l).runs && Effect(s, l).runs[r].reported && Effect(s, l).runs[r].outcome == Some(out)
  {
    CompletedEvent(s, l, r, out);
    if r in s.runs { assert RunWell(s.runs[r], s.pipes.Keys, s.watchers.Keys); }
    if Actor(l) != Some(r) { StepFrame(s, l); }
  }

  lemma CompletedEvent(s: State, l: Label, r: nat, out: Outcome)
    requires Enabled(s, l)
    ensures Completed(r, out) in Events(s, l) <==> l == Complete(r) && s.runs[r].outcome == Some(out)
  {
  }

  // -------------------------------------------------------------- main result

  /** Every step, enabled or not, keeps every invariant. */
  lemma InvStep(s: State, l: Label)
    requires Inv(s)
    ensures Inv(Next(s, l))
  {
    if Enabled(s, l) {
      HoldsWellStep(s, l);
      FrozenStep(s, l);
      WatchersExactStep(s, l);
      ConservedStep(s, l);
      LogExactStep(s, l);
    }
  }

  lemma {:induction false} InvReachable(ls: seq<Label>)
    ensures Inv(Exec(ls))
  {
    if ls == [] {
    } else {
      InvReachable(ls[..|ls| - 1]);
      InvStep(Exec(ls[..|ls| - 1]), ls[|ls| - 1]);
    }
  }
}
