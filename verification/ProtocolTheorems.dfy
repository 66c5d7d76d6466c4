/** What the C header promises, for every interleaving of calls, executor steps
    and completion callbacks. */
module ProtocolTheorems {
  import opened Wrappers
  import opened PipelineModel
  import opened Protocol
  import opened ProtocolInvariant

  function Times(log: seq<Event>, e: Event): nat {
    multiset(log)[e]
  }

  lemma AtMostOnce(log: seq<Event>, e: Event)
    requires LogSafe(log) && Conflicts(e, e)
    ensures Times(log, e) == if e in log then 1 else 0
  {
    if e in log {
      var i :| 0 <= i < |log| && log[i] == e;
      assert log == log[..i] + [e] + log[i + 1..];
      assert e !in log[..i] && e !in log[i + 1..];
    }
  }

  lemma ExecStep(ls: seq<Label>, l: Label)
    ensures Exec(ls + [l]) == Next(Exec(ls), l)
  {
    assert (ls + [l])[..|ls|] == ls;
  }

  // ----------------------------------------------------------------- watchers

  /** The vtable's destroy has run exactly once when the handle and every run
      have let go of the watcher, and not at all before that. */
  lemma WatcherDestroyedExactlyOnce(ls: seq<Label>, w: nat)
    requires w in Exec(ls).watchers
    ensures Times(Exec(ls).log, WatcherDestroyed(w))
         == if Exec(ls).watchers[w] || WatcherInUse(Exec(ls), w) then 0 else 1
  {
    InvReachable(ls);
    AtMostOnce(Exec(ls).log, WatcherDestroyed(w));
  }

  /** No watcher callback and no second destroy ever follows a destroy. */
  lemma NothingAfterWatcherDestroyed(ls: seq<Label>, i: nat, j: nat)
    requires i < j < |Exec(ls).log| && Exec(ls).log[i].WatcherDestroyed?
    ensures Exec(ls).log[j].WatcherCall? ==> Exec(ls).log[j].w != Exec(ls).log[i].w
    ensures Exec(ls).log[j] != Exec(ls).log[i]
  {
    InvReachable(ls);
    assert !Conflicts(Exec(ls).log[i], Exec(ls).log[j]);
  }

  /** When run `r` is about to report, its watcher has already been destroyed
      unless the caller's handle or some other run still keeps it. */
  lemma DestroyedWhenReporting(ls: seq<Label>, r: nat, w: nat)
    requires Enabled(Exec(ls), Complete(r)) && Exec(ls).runs[r].watcher == Some(w)
    requires w in Exec(ls).watchers && !Exec(ls).watchers[w] && forall q :: q != r ==> !HoldsWatcher(Exec(ls), q, w)
    ensures WatcherDestroyed(w) in Exec(ls).log
  {
    InvReachable(ls);
    assert RunWell(Exec(ls).runs[r], Exec(ls).pipes.Keys, Exec(ls).watchers.Keys);
  }

  ghost predicate SoleUser(s: State, r: nat, w: nat) {
    forall q :: q in s.runs && q != r ==> s.runs[q].watcher != Some(w)
  }

  /** The completion appended by a `Complete` step comes after the destroy. */
  lemma LastCompletionOrdered(s: State, r: nat, w: nat, i: nat)
    requires Inv(s) && Enabled(s, Complete(r)) && s.runs[r].watcher == Some(w) && SoleUser(s, r, w)
    requires i < |s.log| && s.log[i] == HandleGone(w)
    ensures exists k :: i < k < |s.log| && s.log[k] == WatcherDestroyed(w)
  {
    forall q ensures !HoldsWatcher(s, q, w) { }
    assert WatcherDestroyed(w) in s.log by { assert HandleGone(w) in s.log; }
    var k :| 0 <= k < |s.log| && s.log[k] == WatcherDestroyed(w);
    assert k < i ==> Conflicts(s.log[k], s.log[i]);
  }

  lemma CompletedNow(s: State, l: Label, r: nat, j: nat)
    requires Enabled(s, l) && |s.log| <= j < |Effect(s, l).log|
    requires Effect(s, l).log[j].Completed? && Effect(s, l).log[j].run == r
    ensures l == Complete(r) && j == |s.log|
  {
    assert Effect(s, l).log[j] == Events(s, l)[j - |s.log|];
  }

  /** In the log: if only run `r` ever used watcher `w` and the handle was given
      up before the completion callback, then the watcher was destroyed after the
      handle went and before the callback. */
  lemma {:induction false} DestroyBetweenHandleAndCallback(ls: seq<Label>, r: nat, w: nat, i: nat, j: nat)
    requires r in Exec(ls).runs && Exec(ls).runs[r].watcher == Some(w) && SoleUser(Exec(ls), r, w)
    requires i < j < |Exec(ls).log| && Exec(ls).log[i] == HandleGone(w)
    requires Exec(ls).log[j].Completed? && Exec(ls).log[j].run == r
    ensures exists k :: i < k < j && Exec(ls).log[k] == WatcherDestroyed(w)
  {
    var n := |ls| - 1;
    var s, l := Exec(ls[..n]), ls[n];
    InvReachable(ls[..n]);
    if Enabled(s, l) {
      assert Exec(ls) == Effect(s, l);
      WatcherNames(s, l);
      if j < |s.log| {
        assert s.log[j] == Exec(ls).log[j] && s.log[j] in s.log;
        DestroyBetweenHandleAndCallback(ls[..n], r, w, i, j);
        var k :| i < k < j && s.log[k] == WatcherDestroyed(w);
        assert Exec(ls).log[k] == s.log[k];
      } else {
        CompletedNow(s, l, r, j);
        LastCompletionOrdered(s, r, w, i);
        var k :| i < k < |s.log| && s.log[k] == WatcherDestroyed(w);
        assert Exec(ls).log[k] == s.log[k];
      }
    } else {
      DestroyBetweenHandleAndCallback(ls[..n], r, w, i, j);
    }
  }

  /** A run's watcher and record are fixed at launch. */
  lemma WatcherNames(s: State, l: Label)
    requires Enabled(s, l)
    ensures s.runs.Keys <= Effect(s, l).runs.Keys
    ensures forall q :: q in s.runs ==>
              && Effect(s, l).runs[q].watcher == s.runs[q].watcher
              && Effect(s, l).runs[q].pipe == s.runs[q].pipe
              && Effect(s, l).runs[q].launched == s.runs[q].launched
  {
    StepFrame(s, l);
  }

  // ---------------------------------------------------------------- isolation

  lemma {:induction false} LaunchRecordKept(ls: seq<Label>, i: nat)
    requires i < |ls| && ls[i].Launch? && Enabled(Exec(ls[..i]), ls[i])
    ensures ls[i].r in Exec(ls).runs
    ensures Exec(ls).runs[ls[i].r].launched == Exec(ls[..i]).pipes[ls[i].p].inner
  {
    var n := |ls| - 1;
    if i < n {
      assert ls[..n][..i] == ls[..i];
      LaunchRecordKept(ls[..n], i);
      if Enabled(Exec(ls[..n]), ls[n]) { WatcherNames(Exec(ls[..n]), ls[n]); }
    }
  }

  /** Launch isolation: whatever setters, launches and destroys are interleaved,
      every task and setting a run reads is the one its record had at launch. */
  lemma RunReadsOnlyItsLaunchRecord(ls: seq<Label>, i: nat, k: nat)
    requires i < |ls| && ls[i].Launch? && Enabled(Exec(ls[..i]), ls[i])
    requires ls[i].r in Exec(ls).runs && k < |Exec(ls).runs[ls[i].r].seen|
    ensures ObsOf(Exec(ls[..i]).pipes[ls[i].p].inner, Exec(ls).runs[ls[i].r].seen[k])
  {
    LaunchRecordKept(ls, i);
    InvReachable(ls);
    assert RunFaithful(Exec(ls).runs[ls[i].r]);
  }

  // ------------------------------------------------------------------ setters

  /** A setter call in any reachable state: applied exactly when its argument is
      acceptable and no run holds the pipeline; otherwise nothing but the log
      changes. Either way a resource it was handed is in the record or has been
      freed once. */
  lemma SetterCall(ls: seq<Label>, p: nat, op: Setter)
    requires Enabled(Exec(ls), Set(p, op))
    ensures var s, s' := Exec(ls), Exec(ls + [Set(p, op)]);
      var taken := ArgumentVerdict(op) == None && forall r :: !HoldsPipe(s, r, p);
      && (taken <==> SetVerdict(s, p, op) == Applied)
      && (taken ==> s'.pipes == s.pipes[p := s.pipes[p].(inner := Applied'(op, s.pipes[p].inner))])
      && (!taken ==> s'.pipes == s.pipes)
      && s'.runs == s.runs && s'.watchers == s.watchers
      && (forall x :: Handed(op) == Some(x) ==>
            && Times(s'.log, Freed(x)) == (if taken then 0 else 1)
            && (taken ==> x in Owned(s'.pipes[p].inner)))
  {
    var s, l := Exec(ls), Set(p, op);
    ExecStep(ls, l);
    InvReachable(ls);
    InvStep(s, l);
    var s' := Next(s, l);
    forall x | Handed(op) == Some(x)
      ensures Times(s'.log, Freed(x)) == if SetVerdict(s, p, op) == Applied then 0 else 1
      ensures SetVerdict(s, p, op) == Applied ==> x in Owned(s'.pipes[p].inner)
    {
      ArgumentFate(s, p, op, x);
    }
  }

  /** Where the resource handed to a setter ends. */
  lemma ArgumentFate(s: State, p: nat, op: Setter, x: Closure)
    requires Inv(s) && Enabled(s, Set(p, op)) && Inv(Effect(s, Set(p, op))) && Handed(op) == Some(x)
    ensures Times(Effect(s, Set(p, op)).log, Freed(x)) == if SetVerdict(s, p, op) == Applied then 0 else 1
    ensures SetVerdict(s, p, op) == Applied ==> x in Owned(Effect(s, Set(p, op)).pipes[p].inner)
  {
    var s' := Effect(s, Set(p, op));
    AtMostOnce(s'.log, Freed(x));
    if SetVerdict(s, p, op) == Applied {
      SetMembership(op, s.pipes[p].inner, s, p, x);
      assert Owns(s', p, x);
    } else {
      FreeAllMembers(s.log, OptSeq(Handed(op)));
    }
  }

  /** Calls the library drops without setting the last error. */
  predicate Silent(op: Setter) {
    op == SetName(NullPtr) || op == AddTask(None) || op == SetBatchSize(0) || op == SetConcurrency(0)
  }

  lemma SomeRunInFlight() returns (ls: seq<Label>)
    ensures 0 in Exec(ls).pipes && PipeInUse(Exec(ls), 0)
  {
    ls := [NewPipe(0, ""), Launch(0, Mode.Async, 0, None)];
    assert ls[..1] == [NewPipe(0, "")] && ls[..1][..0] == [];
    assert Exec([]) == Init;
    assert Exec(ls[..1]) == Next(Init, NewPipe(0, ""));
    assert HoldsPipe(Exec(ls), 0, 0);
  }

  /** The header says that every setter is refused with an error while a run is
      in flight. That holds of a call if and only if it is not one of the silent
      ones. */
  lemma MidRunErrorUnlessSilent(op: Setter)
    ensures (forall ls, p :: p in Exec(ls).pipes && PipeInUse(Exec(ls), p) ==>
                               SetVerdict(Exec(ls), p, op) in {InUse, BadArgument})
       <==> !Silent(op)
  {
    if Silent(op) {
      var ls := SomeRunInFlight();
      assert SetVerdict(Exec(ls), 0, op) == Ignored;
    }
  }

  // ---------------------------------------------------------------- ownership

  /** Conservation: each resource handed over has been freed exactly once when
      no live record owns it, and not at all while one does. */
  lemma FreedExactlyOnce(ls: seq<Label>, x: Closure)
    requires x in Exec(ls).issued
    ensures Times(Exec(ls).log, Freed(x)) == if exists p :: Owns(Exec(ls), p, x) then 0 else 1
  {
    InvReachable(ls);
    AtMostOnce(Exec(ls).log, Freed(x));
  }

  lemma NoUseAfterFree(ls: seq<Label>, i: nat, j: nat)
    requires i < j < |Exec(ls).log| && Exec(ls).log[i].Freed?
    ensures Exec(ls).log[j].Used? ==> Exec(ls).log[j].x != Exec(ls).log[i].x
  {
    InvReachable(ls);
    assert !Conflicts(Exec(ls).log[i], Exec(ls).log[j]);
  }

  /** Once every handle is destroyed and every run has let go, nothing leaks and
      nothing was destroyed twice. */
  lemma NothingLeaks(ls: seq<Label>)
    requires forall p :: p in Exec(ls).pipes ==> !Exec(ls).pipes[p].handle
    requires forall w :: w in Exec(ls).watchers ==> !Exec(ls).watchers[w]
    requires forall r :: r in Exec(ls).runs ==> !Exec(ls).runs[r].holdsPipe && !Exec(ls).runs[r].holdsWatcher
    ensures forall x :: x in Exec(ls).issued ==> Times(Exec(ls).log, Freed(x)) == 1
    ensures forall w :: w in Exec(ls).watchers ==> Times(Exec(ls).log, WatcherDestroyed(w)) == 1
  {
    forall x | x in Exec(ls).issued ensures Times(Exec(ls).log, Freed(x)) == 1 { FreedExactlyOnce(ls, x); }
    forall w | w in Exec(ls).watchers ensures Times(Exec(ls).log, WatcherDestroyed(w)) == 1 {
      WatcherDestroyedExactlyOnce(ls, w);
    }
  }

  // --------------------------------------------------------------- completion

  /** A run that has not stopped holds its pipeline and watcher, detached or
      aborted as it may be; a run that has reported holds neither, so unless
      another run holds the pipeline it can be changed again. */
  lemma {:induction false} HoldUntilStopped(ls: seq<Label>, r: nat)
    requires r in Exec(ls).runs
    ensures var s := Exec(ls);
      var run := s.runs[r];
      && (run.outcome == None ==>
            HoldsPipe(s, r, run.pipe) && (run.watcher.Some? ==> HoldsWatcher(s, r, run.watcher.value)))
      && (run.reported ==>
            && (forall p :: !HoldsPipe(s, r, p)) && (forall w :: !HoldsWatcher(s, r, w))
            && (PipeInUse(s, run.pipe) ==> exists q :: q != r && HoldsPipe(s, q, run.pipe)))
      && (run.reported <==> exists out :: Completed(r, out) in s.log)
  {
    InvReachable(ls);
    var s := Exec(ls);
    assert RunWell(s.runs[r], s.pipes.Keys, s.watchers.Keys);
    if s.runs[r].reported { assert Completed(r, s.runs[r].outcome.value) in s.log; }
  }

  /** At most one completion per run, and silence afterwards. */
  lemma CompletionIsFinal(ls: seq<Label>, i: nat, j: nat)
    requires i < j < |Exec(ls).log| && Exec(ls).log[i].Completed?
    ensures var b := Exec(ls).log[j];
      b.Completed? || b.Used? || b.WatcherCall? ==> b.run != Exec(ls).log[i].run
  {
    InvReachable(ls);
    assert !Conflicts(Exec(ls).log[i], Exec(ls).log[j]);
  }

  /** Whatever acts on behalf of a run was launched on a record that passes the
      pre-flight checks. */
  ghost predicate OnlySoundRunsAct(s: State) {
    forall e :: e in s.log && (e.Used? || e.WatcherCall?) ==>
      e.run in s.runs && Preflight(s.runs[e.run].launched) == None
  }

  lemma ActorSound(s: State, l: Label, e: Event)
    requires Inv(s) && Enabled(s, l) && e in Events(s, l) && (e.Used? || e.WatcherCall?)
    ensures e.run in s.runs && Preflight(s.runs[e.run].launched) == None
  {
    assert RunWell(s.runs[e.run], s.pipes.Keys, s.watchers.Keys);
    assert RunFaithful(s.runs[e.run]);
  }

  lemma {:induction false} OnlySoundRunsEverAct(ls: seq<Label>)
    ensures OnlySoundRunsAct(Exec(ls))
  {
    if ls != [] {
      var n := |ls| - 1;
      var s, l := Exec(ls[..n]), ls[n];
      OnlySoundRunsEverAct(ls[..n]);
      InvReachable(ls[..n]);
      if Enabled(s, l) {
        WatcherNames(s, l);
        forall e | e in Effect(s, l).log && (e.Used? || e.WatcherCall?)
          ensures e.run in s.runs && Preflight(s.runs[e.run].launched) == None
        {
          if e in Events(s, l) { ActorSound(s, l, e); }
        }
      }
    }
  }

  /** A run launched on a record that fails the pre-flight checks reports that
      failure (or its cancellation, or that a blocking call found no runtime), and
      calls no task, no data-id function and no watcher, whatever the caller does
      to the pipeline meanwhile. */
  lemma BadRecordNeverRuns(ls: seq<Label>, i: nat)
    requires i < |ls| && ls[i].Launch? && Enabled(Exec(ls[..i]), ls[i])
    requires Bad(Exec(ls[..i]).pipes[ls[i].p].inner)
    ensures ls[i].r in Exec(ls).runs
    ensures var run := Exec(ls).runs[ls[i].r];
      run.outcome.Some? ==>
        || run.outcome == Some(if Exec(ls[..i]).pipes[ls[i].p].inner.tasks == [] then NoTasks else InvalidConfig)
        || (run.aborted && run.outcome == Some(Cancelled))
        || (run.mode == Blocking && run.outcome == Some(TaskFailed))
    ensures forall e :: e in Exec(ls).log && (e.Used? || e.WatcherCall?) ==> e.run != ls[i].r
    ensures Exec(ls).runs[ls[i].r].seen == []
  {
    LaunchRecordKept(ls, i);
    InvReachable(ls);
    OnlySoundRunsEverAct(ls);
    assert RunFaithful(Exec(ls).runs[ls[i].r]);
    NothingSeen(ls, ls[i].r);
  }

  /** A run on a bad record has looked at nothing. */
  lemma {:induction false} NothingSeen(ls: seq<Label>, r: nat)
    requires r in Exec(ls).runs && Preflight(Exec(ls).runs[r].launched).Some?
    ensures Exec(ls).runs[r].seen == []
  {
    var n := |ls| - 1;
    var s, l := Exec(ls[..n]), ls[n];
    InvReachable(ls[..n]);
    if Enabled(s, l) { WatcherNames(s, l); }
    if r in s.runs {
      NothingSeen(ls[..n], r);
      assert RunWell(s.runs[r], s.pipes.Keys, s.watchers.Keys);
      assert RunFaithful(s.runs[r]);
      if Enabled(s, l) { StepFrame(s, l); }
    }
  }

  /** Steps left until a run is at rest. */
  function Rank(run: Run): nat {
    (if run.outcome == None then 1 else 0) + (if run.holdsPipe then 1 else 0)
    + (if run.holdsWatcher then 1 else 0) + (if run.ticket == Awaited && !run.reported then 1 else 0)
  }

  /** The executor's next step towards rest. */
  function Move(run: Run, r: nat): Label {
    if run.outcome == None then
      End(r, match Preflight(run.launched) case Some(e) => e case None => Succeeded)
    else if run.holdsPipe && !(run.mode == Blocking && run.holdsWatcher) then ReleasePipe(r)
    else if run.holdsWatcher then ReleaseWatcher(r)
    else Complete(r)
  }

  lemma MoveAdvances(s: State, r: nat)
    requires Inv(s) && r in s.runs && Rank(s.runs[r]) > 0
    ensures Enabled(s, Move(s.runs[r], r)) && Actor(Move(s.runs[r], r)) == Some(r)
    ensures r in Effect(s, Move(s.runs[r], r)).runs
    ensures Rank(Effect(s, Move(s.runs[r], r)).runs[r]) == Rank(s.runs[r]) - 1
  {
    assert RunWell(s.runs[r], s.pipes.Keys, s.watchers.Keys);
  }

  /** The state of every other run survives from `s` to `s'`. */
  ghost predicate OthersKept(s: State, s': State, r: nat) {
    forall q :: q in s.runs && q != r ==> q in s'.runs && s'.runs[q] == s.runs[q]
  }

  lemma MoveKeepsOthers(s: State, r: nat)
    requires Inv(s) && r in s.runs && Rank(s.runs[r]) > 0
    ensures OthersKept(s, Next(s, Move(s.runs[r], r)), r)
  {
    MoveAdvances(s, r);
    StepFrame(s, Move(s.runs[r], r));
  }

  predicate AtRest(run: Run) {
    && run.outcome.Some? && !run.holdsPipe && !run.holdsWatcher
    && (run.ticket == Awaited ==> run.reported)
  }

  /** The steps `ms` lead from `s` to `s'`. */
  ghost predicate Leads(s: State, ms: seq<Label>, s': State)
    decreases |ms|
  {
    if ms == [] then s' == s else Leads(Next(s, ms[0]), ms[1..], s')
  }

  lemma {:induction false} LeadsExec(ls: seq<Label>, ms: seq<Label>, s': State)
    requires Leads(Exec(ls), ms, s')
    ensures Exec(ls + ms) == s'
    decreases |ms|
  {
    if ms == [] {
      assert ls + ms == ls;
    } else {
      ExecStep(ls, ms[0]);
      LeadsExec(ls + [ms[0]], ms[1..], s');
      assert ls + ms == (ls + [ms[0]]) + ms[1..];
    }
  }

  /** One step towards rest. */
  lemma OneMove(s: State, r: nat) returns (l: Label, s': State)
    requires Inv(s) && r in s.runs && Rank(s.runs[r]) > 0
    ensures l.End? || l.ReleasePipe? || l.ReleaseWatcher? || l.Complete?
    ensures Inv(s') && r in s'.runs && Rank(s'.runs[r]) == Rank(s.runs[r]) - 1 && OthersKept(s, s', r)
    ensures forall rest, t :: Leads(s', rest, t) ==> Leads(s, [l] + rest, t)
  {
    l := Move(s.runs[r], r);
    s' := Next(s, l);
    InvStep(s, l);
    MoveAdvances(s, r);
    MoveKeepsOthers(s, r);
    forall rest, t | Leads(s', rest, t) ensures Leads(s, [l] + rest, t) {
      assert ([l] + rest)[1..] == rest;
    }
  }

  lemma {:induction false} FinishFrom(s: State, r: nat) returns (ms: seq<Label>, s': State)
    requires Inv(s) && r in s.runs
    ensures |ms| == Rank(s.runs[r]) && Leads(s, ms, s')
    ensures forall m :: m in ms ==> m.End? || m.ReleasePipe? || m.ReleaseWatcher? || m.Complete?
    ensures r in s'.runs && AtRest(s'.runs[r]) && OthersKept(s, s', r)
    decreases Rank(s.runs[r])
  {
    if Rank(s.runs[r]) == 0 {
      ms, s' := [], s;
    } else {
      var l, t := OneMove(s, r);
      var rest;
      rest, s' := FinishFrom(t, r);
      ms := [l] + rest;
    }
  }

  /** Nothing is stuck on the way out: once its executor stops, which is always
      open to it, a run can be brought to rest by releasing and reporting. At most
      four steps of its own do it from any reachable state, and they leave every
      other run as it was. */
  lemma {:induction false} EveryRunCanFinish(ls: seq<Label>, r: nat) returns (ms: seq<Label>)
    requires r in Exec(ls).runs
    ensures |ms| <= 4
    ensures forall m :: m in ms ==> m.End? || m.ReleasePipe? || m.ReleaseWatcher? || m.Complete?
    ensures r in Exec(ls + ms).runs && AtRest(Exec(ls + ms).runs[r])
    ensures OthersKept(Exec(ls), Exec(ls + ms), r)
  {
    InvReachable(ls);
    var s';
    ms, s' := FinishFrom(Exec(ls), r);
    LeadsExec(ls, ms, s');
  }
}
