/** One specification for both bindings: a run walks the task list and settings
    its pipeline had at launch, whatever happens to the pipeline afterwards. The
    C strategy (share the record, refuse changes) and the Python strategies
    (borrow it, or copy it) both refine it. */
module LaunchIsolation {
  import opened PipelineModel
  import P = Protocol
  import PI = ProtocolInvariant
  import Py = PyPipeline

  datatype SpecRun = SpecRun(launch: Pipeline, seen: seq<Obs>, over: bool)

  /** `current` is what a launch would pick up now. */
  datatype Spec = Spec(current: map<nat, Pipeline>, runs: map<nat, SpecRun>)

  /** Setters change `current` at will and no run. */
  ghost predicate Edit(a: Spec, b: Spec) {
    a.runs == b.runs && a.current.Keys <= b.current.Keys
  }

  ghost predicate Start(a: Spec, b: Spec, r: nat, p: nat) {
    r !in a.runs && p in a.current && b == a.(runs := a.runs[r := SpecRun(a.current[p], [], false)])
  }

  ghost predicate See(a: Spec, b: Spec, r: nat, i: nat) {
    && r in a.runs && !a.runs[r].over && i < |a.runs[r].launch.tasks|
    && b == a.(runs := a.runs[r := a.runs[r].(seen := a.runs[r].seen + [Observe(a.runs[r].launch, i)])])
  }

  ghost predicate Over(a: Spec, b: Spec, r: nat) {
    r in a.runs && b == a.(runs := a.runs[r := a.runs[r].(over := true)])
  }

  ghost predicate SpecNext(a: Spec, b: Spec) {
    || Edit(a, b)
    || (exists r, p :: Start(a, b, r, p))
    || (exists r, i :: See(a, b, r, i))
    || (exists r :: Over(a, b, r))
  }

  // ------------------------------------------------------------- the C strategy

  ghost function AbsRun(run: P.Run): SpecRun {
    SpecRun(run.launched, run.seen, run.outcome.Some?)
  }

  ghost function AbsC(s: P.State): Spec {
    Spec(map p | p in s.pipes :: s.pipes[p].inner, map r | r in s.runs :: AbsRun(s.runs[r]))
  }

  lemma CStep(s: P.State, l: P.Label)
    requires PI.Inv(s)
    ensures SpecNext(AbsC(s), AbsC(P.Next(s, l)))
  {
    var s' := P.Next(s, l);
    if s' == s {
      assert Edit(AbsC(s), AbsC(s'));
    } else if l.Launch? {
      CLaunch(s, l);
      assert Start(AbsC(s), AbsC(s'), l.r, l.p);
    } else if l.Read? {
      SharedIsLaunched(s, l.r);
      CRead(s, l.r, l.i);
      assert See(AbsC(s), AbsC(s'), l.r, l.i);
    } else if l.End? {
      CEnd(s, l);
      assert Over(AbsC(s), AbsC(s'), l.r);
    } else {
      CQuiet(s, l);
    }
  }

  lemma CLaunch(s: P.State, l: P.Label)
    requires P.Enabled(s, l) && l.Launch?
    ensures Start(AbsC(s), AbsC(P.Next(s, l)), l.r, l.p)
  {
    assert P.RunsAfter(s, l)[l.r].launched == s.pipes[l.p].inner;
  }

  lemma CEnd(s: P.State, l: P.Label)
    requires P.Enabled(s, l) && l.End?
    ensures Over(AbsC(s), AbsC(P.Next(s, l)), l.r)
  {
  }

  /** The shared record is the launch record as long as the run executes. */
  lemma SharedIsLaunched(s: P.State, r: nat)
    requires PI.HoldsWell(s) && PI.Frozen(s) && P.Executing(s, r)
    ensures s.runs[r].pipe in s.pipes && s.pipes[s.runs[r].pipe].inner == s.runs[r].launched
  {
    assert PI.RunWell(s.runs[r], s.pipes.Keys, s.watchers.Keys);
  }

  lemma CRead(s: P.State, r: nat, i: nat)
    requires P.Enabled(s, P.Read(r, i)) && s.pipes[s.runs[r].pipe].inner == s.runs[r].launched
    ensures See(AbsC(s), AbsC(P.Next(s, P.Read(r, i))), r, i)
  {
  }

  /** The remaining steps are invisible to every run. */
  lemma CQuiet(s: P.State, l: P.Label)
    requires P.Enabled(s, l) && !l.Launch? && !l.Read? && !l.End?
    ensures Edit(AbsC(s), AbsC(P.Next(s, l)))
  {
    PI.StepFrame(s, l);
    assert AbsC(P.Next(s, l)).runs == AbsC(s).runs;
  }

  /** Every interleaving of the C library is a behaviour of the specification. */
  lemma CRefines(ls: seq<P.Label>, i: nat)
    requires i < |ls|
    ensures SpecNext(AbsC(P.Exec(ls[..i])), AbsC(P.Exec(ls[..i + 1])))
  {
    PI.InvReachable(ls[..i]);
    assert ls[..i + 1][..i] == ls[..i];
    CStep(P.Exec(ls[..i]), ls[i]);
  }

  // -------------------------------------------------------- the Python strategy

  ghost function AbsPy(s: Py.PyState): Spec {
    Spec(s.objs, map r | r in s.runs :: SpecRun(s.runs[r].launched, s.runs[r].seen, s.runs[r].over))
  }

  lemma PyStep(s: Py.PyState, l: Py.PyLabel)
    requires Py.PyInv(s)
    ensures SpecNext(AbsPy(s), AbsPy(Py.PyNext(s, l)))
  {
    var s' := Py.PyNext(s, l);
    if s' != s {
      match l
      case PNew(_, _) => assert Edit(AbsPy(s), AbsPy(s'));
      case PBuild(_, _) => assert Edit(AbsPy(s), AbsPy(s'));
      case PLaunch(r, _, o) => assert Start(AbsPy(s), AbsPy(s'), r, o);
      case PRead(r, i) => assert See(AbsPy(s), AbsPy(s'), r, i);
      case PEnd(r) => assert Over(AbsPy(s), AbsPy(s'), r);
    }
  }

  lemma PyRefines(ls: seq<Py.PyLabel>, i: nat)
    requires i < |ls|
    ensures SpecNext(AbsPy(Py.PyExec(ls[..i])), AbsPy(Py.PyExec(ls[..i + 1])))
  {
    Py.PyInvReachable(ls[..i]);
    assert ls[..i + 1][..i] == ls[..i];
    PyStep(Py.PyExec(ls[..i]), ls[i]);
  }

  // -------------------------------------------- what the specification promises

  ghost predicate Behaviour(b: seq<Spec>) {
    && |b| > 0 && b[0].runs == map[]
    && forall i :: 0 <= i < |b| - 1 ==> SpecNext(b[i], b[i + 1])
  }

  /** In every behaviour, from the moment run `r` appears its launch record never
      changes, and all it has seen by then are observations of that record. */
  lemma {:induction false} Isolated(b: seq<Spec>, i: nat, j: nat, r: nat)
    requires Behaviour(b) && i <= j < |b| && r in b[i].runs
    ensures r in b[j].runs && b[j].runs[r].launch == b[i].runs[r].launch
    ensures SeenFaithful(b[j].runs[r])
    decreases j, i
  {
    if j == 0 {
    } else {
      SpecStepKeeps(b[j - 1], b[j], r);
      if r in b[j - 1].runs { Isolated(b, if i == j then j - 1 else i, j - 1, r); }
      else if i < j { Isolated(b, i, j - 1, r); }
    }
  }

  predicate SeenFaithful(run: SpecRun) {
    forall k :: 0 <= k < |run.seen| ==> ObsOf(run.launch, run.seen[k])
  }

  lemma SpecStepKeeps(a: Spec, b: Spec, r: nat)
    requires SpecNext(a, b)
    ensures r in a.runs ==> r in b.runs && b.runs[r].launch == a.runs[r].launch
    ensures r in a.runs && SeenFaithful(a.runs[r]) ==> SeenFaithful(b.runs[r])
    ensures r !in a.runs && r in b.runs ==> SeenFaithful(b.runs[r])
  {
  }

  // ----------------------------------------------- and so what the bindings promise

  ghost function CTrace(ls: seq<P.Label>): seq<Spec> {
    seq(|ls| + 1, i requires 0 <= i < |ls| + 1 => AbsC(P.Exec(ls[..i])))
  }

  ghost function PyTrace(ls: seq<Py.PyLabel>): seq<Spec> {
    seq(|ls| + 1, i requires 0 <= i < |ls| + 1 => AbsPy(Py.PyExec(ls[..i])))
  }

  lemma CBehaves(ls: seq<P.Label>)
    ensures Behaviour(CTrace(ls))
  {
    assert ls[..0] == [];
    forall i | 0 <= i < |CTrace(ls)| - 1 ensures SpecNext(CTrace(ls)[i], CTrace(ls)[i + 1]) { CRefines(ls, i); }
  }

  lemma PyBehaves(ls: seq<Py.PyLabel>)
    ensures Behaviour(PyTrace(ls))
  {
    assert ls[..0] == [];
    forall i | 0 <= i < |PyTrace(ls)| - 1 ensures SpecNext(PyTrace(ls)[i], PyTrace(ls)[i + 1]) { PyRefines(ls, i); }
  }

  /** In every interleaving of the C library, all a run has read by step `j` is of
      the record its pipeline had when it was launched at step `i`. */
  lemma CRunIsolated(ls: seq<P.Label>, i: nat, j: nat)
    requires i < j <= |ls| && ls[i].Launch? && P.Enabled(P.Exec(ls[..i]), ls[i])
    ensures ls[i].r in P.Exec(ls[..j]).runs
    ensures forall k :: 0 <= k < |P.Exec(ls[..j]).runs[ls[i].r].seen| ==>
              ObsOf(P.Exec(ls[..i]).pipes[ls[i].p].inner, P.Exec(ls[..j]).runs[ls[i].r].seen[k])
  {
    assert ls[..i + 1][..i] == ls[..i];
    CBehaves(ls);
    Isolated(CTrace(ls), i + 1, j, ls[i].r);
    assert SeenFaithful(CTrace(ls)[j].runs[ls[i].r]);
    assert CTrace(ls)[i + 1] == AbsC(P.Exec(ls[..i + 1])) && CTrace(ls)[j] == AbsC(P.Exec(ls[..j]));
  }

  /** The same of every interleaving of Python calls, builders and runs, in each of
      the three modes of execution. */
  lemma PyRunIsolated(ls: seq<Py.PyLabel>, i: nat, j: nat)
    requires i < j <= |ls| && ls[i].PLaunch?
    requires ls[i].r !in Py.PyExec(ls[..i]).runs && ls[i].o in Py.PyExec(ls[..i]).objs
    ensures ls[i].r in Py.PyExec(ls[..j]).runs
    ensures forall k :: 0 <= k < |Py.PyExec(ls[..j]).runs[ls[i].r].seen| ==>
              ObsOf(Py.PyExec(ls[..i]).objs[ls[i].o], Py.PyExec(ls[..j]).runs[ls[i].r].seen[k])
  {
    assert ls[..i + 1][..i] == ls[..i];
    if ls[i].mode != Py.ExecuteSync { Py.LaunchCopiesExactly(ls[..i], ls[i].mode, ls[i].o); }
    PyBehaves(ls);
    Isolated(PyTrace(ls), i + 1, j, ls[i].r);
    assert SeenFaithful(PyTrace(ls)[j].runs[ls[i].r]);
    assert PyTrace(ls)[i + 1] == AbsPy(Py.PyExec(ls[..i + 1])) && PyTrace(ls)[j] == AbsPy(Py.PyExec(ls[..j]));
  }
}
