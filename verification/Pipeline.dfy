// From a definition to a run: what ParseDAG compiles is what the executor's
// guarantees ask for, and where those guarantees stop.
module Pipeline {
  import opened Wrappers
  import opened Sorting
  import opened Graph
  import Levels
  import Dag
  import opened Lifecycle
  import Decisions
  import opened Execution
  import opened Goroutine
  import opened Safety
  import opened Guarantees

  // The executor works on the compiled levels and the depends_on lists.
  ghost predicate Configures(cfg: Config, def: seq<Dag.StepDef>, dag: Dag.Dag) {
    && Dag.WellFormed(def) && !HasCycle(Dag.GraphOf(def)) && Dag.Compiled(def, dag)
    && cfg.steps.Keys == Dag.Ids(def)
    && cfg.deps == Dag.EdgeGraph(dag.edges)
    && cfg.levels == dag.levels
  }

  lemma CompiledEntryOk(cfg: Config, def: seq<Dag.StepDef>, dag: Dag.Dag, k: nat, i: nat)
    requires Configures(cfg, def, dag) && k < |cfg.levels| && i < |cfg.levels[k]|
    ensures EntryOk(cfg, k, i)
  {
    var g, s := Dag.GraphOf(def), cfg.levels[k][i];
    Dag.CompiledGraph(def, dag);
    Dag.LevelsAreFilled(def, dag, k);
    assert s in Elems(dag.levels[k]);
    forall d | d in cfg.deps[s] ensures InSomeLevel(cfg, d, k) {
      assert d in g[s] && d in g;
      var j := Dag.LevelOfStep(def, dag, d);
      Levels.DependencyIsEarlier(g, dag.sorted, dag.levels, s, d, j, k);
    }
  }

  lemma CompiledOnePlace(cfg: Config, def: seq<Dag.StepDef>, dag: Dag.Dag, k: nat, i: nat, k': nat, i': nat)
    requires Configures(cfg, def, dag)
    requires k < |cfg.levels| && i < |cfg.levels[k]| && k' < |cfg.levels| && i' < |cfg.levels[k']|
    ensures OnePlace(cfg, k, i, k', i')
  {
    var s := cfg.levels[k][i];
    if s == cfg.levels[k'][i'] {
      Dag.LevelsAreFilled(def, dag, k);
      assert s in Elems(dag.levels[k]);
      var j := Dag.LevelOfStep(def, dag, s);
      assert k == j == k';
    }
  }

  // Every definition ParseDAG accepts gives the executor levels it can rely on.
  lemma CompiledIsWellLevelled(cfg: Config, def: seq<Dag.StepDef>, dag: Dag.Dag)
    requires Configures(cfg, def, dag)
    ensures WellLevelled(cfg)
  {
    Dag.CompiledGraph(def, dag);
    forall k: nat, i: nat | k < |cfg.levels| && i < |cfg.levels[k]| ensures EntryOk(cfg, k, i) {
      CompiledEntryOk(cfg, def, dag, k, i);
    }
    forall k: nat, i: nat, k': nat, i': nat |
      k < |cfg.levels| && i < |cfg.levels[k]| && k' < |cfg.levels| && i' < |cfg.levels[k']|
      ensures OnePlace(cfg, k, i, k', i')
    {
      CompiledOnePlace(cfg, def, dag, k, i, k', i');
    }
    forall s | s in cfg.steps ensures InSomeLevel(cfg, s, |cfg.levels|) {
      var k := Dag.LevelOfStep(def, dag, s);
    }
  }

  // From the definition to the run: in any history without panics, with a store
  // that refuses no append, a step is reached only when everything its depends_on
  // leads to, through any number of steps, is over, save a step that has a timeout
  // and ignores errors.
  lemma DependenciesRunFirst(cfg: Config, def: seq<Dag.StepDef>, dag: Dag.Dag, acts: seq<Act>, p: seq<string>, i: nat)
    requires Configures(cfg, def, dag) && Execute(cfg, acts).Some? && Reliable(acts) && NoPanics(acts)
    requires IsWalk(Dag.GraphOf(def), p) && 1 <= i < |p|
    requires NextStep(cfg, Execute(cfg, acts).value) == Some(p[0])
    requires p[i] in cfg.steps ==> !(cfg.steps[p[i]].timed && cfg.steps[p[i]].onError == Ignore)
    ensures var run := Execute(cfg, acts).value.run.value;
            && p[i] in run.locals && p[i] in run.entry
            && IsTerminal(run.locals[p[i]].live.status)
            && (run.entry[p[i]].status != Failed ==> run.locals[p[i]].live.status in {Completed, Skipped})
  {
    CompiledIsWellLevelled(cfg, def, dag);
    Dag.CompiledGraph(def, dag);
    SmoothDispatch(cfg, acts, p, i);
  }

  lemma ExecuteOne(cfg: Config, acts: seq<Act>, m: Machine, a: Act)
    requires Execute(cfg, acts) == Some(m)
    ensures Execute(cfg, acts + [a]) == Step(cfg, m, a)
  {
    assert (acts + [a])[..|acts + [a]| - 1] == acts;
  }

  // ----- Where dispatch safety stops -----

  const NO_QUESTION := Decisions.Decision([], "", false, "", Decisions.Open)
  const PLAIN := StepDef(Action, None, NoHandler, false, NO_QUESTION)

  // Step b depends on step a.
  function Chain(a: StepDef): Config {
    Config("wf", map["a" := a, "b" := PLAIN], map["a" := {}, "b" := {"a"}], [["a"], ["b"]], false, FailIt)
  }

  lemma ChainIsWellLevelled(a: StepDef)
    ensures WellLevelled(Chain(a))
  {
    var cfg := Chain(a);
    assert cfg.levels[0][0] == "a" && cfg.levels[1][0] == "b";
    assert "a" in cfg.levels[0] && "b" in cfg.levels[1];
    assert InSomeLevel(cfg, "a", 1) && InSomeLevel(cfg, "a", 2) && InSomeLevel(cfg, "b", 2);
  }

  // Step a's goroutine from its dispatch on, in a run whose context stays live and
  // without decisions.
  function Walk(def: StepDef, body: seq<StepAct>): Option<Local> {
    if body == [] then Some(Local(Entered, FRESH, false))
    else
      var before := Walk(def, body[..|body| - 1]);
      if before.None? then None
      else
        var e := Advance(def, None, false, before.value, body[|body| - 1]);
        if e.None? || e.value.inserted then None else Some(e.value.local)
  }

  // A run of the chain up to some point of step a.
  function ActsOfA(body: seq<StepAct>): seq<Act> {
    if body == [] then [StartRun, Dispatch(true)]
    else ActsOfA(body[..|body| - 1]) + [StepAction("a", body[|body| - 1])]
  }

  function Locals(a: Local): map<string, Local> {
    map["a" := a, "b" := Local(Idle, FRESH, false)]
  }

  predicate Stands(m: Machine, control: Control, a: Local) {
    && m.run.Some? && m.run.value.control == control && m.run.value.rejected == {} && !m.run.value.over
    && m.run.value.locals == Locals(a) && m.decisions == map[]
  }

  lemma StepOfA(def: StepDef, m: Machine, control: Control, a: Local, act: StepAct)
    requires Stands(m, control, a) && Advance(def, None, false, a, act).Some?
    requires !Advance(def, None, false, a, act).value.inserted
    ensures Step(Chain(def), m, StepAction("a", act)).Some?
    ensures Stands(Step(Chain(def), m, StepAction("a", act)).value, control,
                   Advance(def, None, false, a, act).value.local)
  {
  }

  lemma FreshChain(def: StepDef)
    ensures FreshLocals(Chain(def)) == Locals(Local(Idle, FRESH, false))
  {
  }

  lemma Started(def: StepDef) returns (m: Machine)
    ensures Execute(Chain(def), [StartRun]) == Some(m)
    ensures Stands(m, Dispatching(0, 0), Local(Idle, FRESH, false))
  {
    FreshChain(def);
    ExecuteOne(Chain(def), [], Init(), StartRun);
    assert [] + [StartRun] == [StartRun];
    m := Execute(Chain(def), [StartRun]).value;
  }

  lemma Dispatched(def: StepDef) returns (m: Machine)
    ensures Execute(Chain(def), [StartRun, Dispatch(true)]) == Some(m)
    ensures Stands(m, Dispatching(0, 1), Local(Entered, FRESH, false))
  {
    var m1 := Started(def);
    ExecuteOne(Chain(def), [StartRun], m1, Dispatch(true));
    assert NextStep(Chain(def), m1) == Some("a");
    m := DispatchNext(Chain(def), m1, true).value;
    assert [StartRun] + [Dispatch(true)] == [StartRun, Dispatch(true)];
  }

  lemma {:induction false} WalkRuns(def: StepDef, body: seq<StepAct>) returns (m: Machine)
    requires Walk(def, body).Some?
    ensures Execute(Chain(def), ActsOfA(body)) == Some(m)
    ensures Stands(m, Dispatching(0, 1), Walk(def, body).value)
    decreases |body|
  {
    if body == [] {
      m := Dispatched(def);
    } else {
      var n := |body| - 1;
      var before := WalkRuns(def, body[..n]);
      StepOfA(def, before, Dispatching(0, 1), Walk(def, body[..n]).value, body[n]);
      ExecuteOne(Chain(def), ActsOfA(body[..n]), before, StepAction("a", body[n]));
      m := Step(Chain(def), before, StepAction("a", body[n])).value;
    }
  }

  lemma LevelConcludes(def: StepDef, m: Machine, a: Local) returns (m': Machine)
    requires Stands(m, Dispatching(0, 1), a) && Stalled(a.pc) && a.live.status == Running
    ensures var waiting := Step(Chain(def), m, EndOfLevel);
            waiting.Some? && Step(Chain(def), waiting.value, Conclude) == Some(m')
    ensures Stands(m', Dispatching(1, 0), a)
  {
    var waiting := Step(Chain(def), m, EndOfLevel).value;
    assert Stands(waiting, Waiting(0), a);
    assert Chain(def).levels[0] == ["a"];
    m' := ConcludeLevel(Chain(def), waiting).value;
  }

  // A stalled step reports nothing, so the loop goes on to what depends on it.
  lemma StalledLetsDependentsStart(def: StepDef, body: seq<StepAct>)
    requires Walk(def, body).Some? && Stalled(Walk(def, body).value.pc) && Walk(def, body).value.live.status == Running
    ensures var acts := ActsOfA(body) + [EndOfLevel, Conclude];
            && Execute(Chain(def), acts).Some?
            && var m := Execute(Chain(def), acts).value;
               && NextStep(Chain(def), m) == Some("b") && "a" in Chain(def).deps["b"]
               && m.run.value.locals == Locals(Walk(def, body).value)
  {
    var acts := ActsOfA(body);
    var m := WalkRuns(def, body);
    var end := LevelConcludes(def, m, Walk(def, body).value);
    ExecuteOne(Chain(def), acts, m, EndOfLevel);
    ExecuteOne(Chain(def), acts + [EndOfLevel], Step(Chain(def), m, EndOfLevel).value, Conclude);
    assert acts + [EndOfLevel] + [Conclude] == acts + [EndOfLevel, Conclude];
  }

  lemma {:induction false} ActsOfAFit(mode: Mode, body: seq<StepAct>)
    requires forall a :: a in body ==> Fits(mode, a)
    ensures forall i :: 0 <= i < |ActsOfA(body)| ==> ActFits(mode, ActsOfA(body)[i])
    decreases |body|
  {
    if body != [] {
      var n := |body| - 1;
      assert body[n] in body && forall a :: a in body[..n] ==> a in body;
      ActsOfAFit(mode, body[..n]);
    }
  }

  lemma {:induction false} ActsOfADoNotPanic(body: seq<StepAct>)
    requires Panic !in body
    ensures NoPanics(ActsOfA(body))
    decreases |body|
  {
    if body != [] {
      var n := |body| - 1;
      assert body[n] in body && forall a :: a in body[..n] ==> a in body;
      ActsOfADoNotPanic(body[..n]);
    }
  }

  // Every step starts like this.
  const START := [CheckPending, Append(Committed, false), Write]

  lemma WalkStart(def: StepDef)
    ensures Walk(def, START) == Some(Local(Working(false), FRESH.(status := Running), false))
  {
    assert START[..2] == [CheckPending, Append(Committed, false)];
    assert [CheckPending, Append(Committed, false)][..1] == [CheckPending];
    assert [CheckPending][..0] == [];
    assert Walk(def, [CheckPending]) == Some(Local(Starting, FRESH.(status := Scheduled), false));
    assert Walk(def, START[..2]) == Some(Local(StartLogged, FRESH.(status := Scheduled), false));
  }

  lemma WalkOne(def: StepDef, body: seq<StepAct>, act: StepAct, l: Local)
    requires Walk(def, body) == Some(l) && Advance(def, None, false, l, act).Some?
    requires !Advance(def, None, false, l, act).value.inserted
    ensures Walk(def, body + [act]) == Some(Advance(def, None, false, l, act).value.local)
  {
    assert (body + [act])[..|body + [act]| - 1] == body;
  }

  // The action of step a panics; every append commits.
  lemma PanicLetsDependentsStart()
    ensures var acts := ActsOfA(START + [Panic]) + [EndOfLevel, Conclude];
            && WellLevelled(Chain(PLAIN)) && AllCommit(acts) && Execute(Chain(PLAIN), acts).Some?
            && var m := Execute(Chain(PLAIN), acts).value;
               && NextStep(Chain(PLAIN), m) == Some("b") && "a" in Chain(PLAIN).deps["b"]
               && m.run.value.locals == Locals(Local(Panicked, FRESH.(status := Running), false))
  {
    WalkStart(PLAIN);
    WalkOne(PLAIN, START, Panic, Local(Working(false), FRESH.(status := Running), false));
    StalledLetsDependentsStart(PLAIN, START + [Panic]);
    ChainIsWellLevelled(PLAIN);
    ActsOfAFit(Mode(true, false), START + [Panic]);
  }

  // Step a has a timeout and ignores errors; its action outlasts the timeout. The
  // store refuses nothing: the appends fail on the step's own context.
  const TIMED_IGNORE := PLAIN.(timed := true, onError := Ignore)
  const LATE := [TimeOut, Fail(true), Triage, Append(Expired, false), Append(Expired, false)]

  const RUNNING := FRESH.(status := Running)

  function LateLocal(i: nat): Local {
    Local(
      match i
      case 0 => Working(false)
      case 1 => Working(false)
      case 2 => Erred(true)
      case 3 => Ignoring
      case 4 => IgnoreRefused(StepTimeout)
      case _ => IgnoredUnlogged(StepTimeout), RUNNING, i > 0)
  }

  lemma LateStep(i: nat)
    requires i < |LATE|
    ensures Advance(TIMED_IGNORE, None, false, LateLocal(i), LATE[i]).Some?
    ensures var e := Advance(TIMED_IGNORE, None, false, LateLocal(i), LATE[i]).value;
            e.local == LateLocal(i + 1) && !e.inserted
  {
  }

  lemma {:induction false} LateWalk(i: nat)
    requires i <= |LATE|
    ensures Walk(TIMED_IGNORE, START + LATE[..i]) == Some(LateLocal(i))
  {
    if i == 0 {
      WalkStart(TIMED_IGNORE);
      assert START + LATE[..0] == START;
    } else {
      LateWalk(i - 1);
      LateStep(i - 1);
      WalkOne(TIMED_IGNORE, START + LATE[..i - 1], LATE[i - 1], LateLocal(i - 1));
      assert START + LATE[..i] == START + LATE[..i - 1] + [LATE[i - 1]];
    }
  }

  lemma TimeoutLetsDependentsStart()
    ensures var acts := ActsOfA(START + LATE) + [EndOfLevel, Conclude];
            && WellLevelled(Chain(TIMED_IGNORE)) && Reliable(acts) && NoPanics(acts)
            && Execute(Chain(TIMED_IGNORE), acts).Some?
            && var m := Execute(Chain(TIMED_IGNORE), acts).value;
               && NextStep(Chain(TIMED_IGNORE), m) == Some("b") && "a" in Chain(TIMED_IGNORE).deps["b"]
               && m.run.value.locals == Locals(Local(IgnoredUnlogged(StepTimeout), FRESH.(status := Running), true))
  {
    LateWalk(5);
    assert LATE[..5] == LATE;
    StalledLetsDependentsStart(TIMED_IGNORE, START + LATE);
    ChainIsWellLevelled(TIMED_IGNORE);
    ActsOfAFit(Mode(false, true), START + LATE);
    ActsOfADoNotPanic(START + LATE);
  }
}
