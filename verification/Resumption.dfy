// A run, its suspension and its resume, step by step: where replay and memory
// part for a step that is suspended twice on one decision.
module Resumption {
  import opened Wrappers
  import opened Lifecycle
  import opened EventLog
  import opened Decisions
  import opened Execution
  import opened Goroutine
  import opened Safety
  import opened Guarantees
  import opened Pipeline

  // One reasoning step, with a free-form question and no timeout.
  const ASKING := PLAIN.(kind := Reasoning)
  const LONE := Config("wf", map["a" := ASKING], map["a" := {}], [["a"]], false, FailIt)

  lemma LoneIsWellLevelled()
    ensures WellLevelled(LONE)
  {
    assert LONE.levels[0][0] == "a" && "a" in LONE.levels[0];
    assert InSomeLevel(LONE, "a", 1);
  }

  // The step's goroutine and what is stored about it.
  datatype Scene = Scene(l: Local, r: Record)

  // Executes the step's actions from a scene on.
  function Play(s: Scene, body: seq<StepAct>): Option<Scene> {
    if body == [] then Some(s)
    else
      var before := Play(s, body[..|body| - 1]);
      if before.None? then None
      else
        var e := Advance(ASKING, before.value.r.decision, false, before.value.l, body[|body| - 1]);
        if e.None? then None else Some(Scene(e.value.local, After(before.value.r, e.value, NO_QUESTION)))
  }

  // The machine shows the scene, in a run that began with the decisions `asked`.
  predicate Shows(m: Machine, control: Control, asked: set<string>, s: Scene) {
    && m.run.Some? && m.run.value.control == control && !m.run.value.over && m.run.value.rejected == {}
    && m.run.value.asked == asked && m.run.value.locals == map["a" := s.l] && RecordOf(m, "a") == s.r
    && m.decisions.Keys <= {"a"} && m.status == WfActive && !m.spent
  }

  function AsActs(body: seq<StepAct>): seq<Act> {
    seq(|body|, i requires 0 <= i < |body| => StepAction("a", body[i]))
  }

  lemma {:induction false} PlayRuns(acts: seq<Act>, m: Machine, control: Control, asked: set<string>, s: Scene,
                                    body: seq<StepAct>) returns (m': Machine)
    requires Execute(LONE, acts) == Some(m) && Shows(m, control, asked, s) && Play(s, body).Some?
    ensures Execute(LONE, acts + AsActs(body)) == Some(m')
    ensures Shows(m', control, asked, Play(s, body).value)
    decreases |body|
  {
    if body == [] {
      assert acts + AsActs(body) == acts;
      m' := m;
    } else {
      var n := |body| - 1;
      var before := PlayRuns(acts, m, control, asked, s, body[..n]);
      m' := ActMoves(before, control, asked, Play(s, body[..n]).value, body[n]);
      OneMoreAct(acts, body, before, m');
    }
  }

  lemma AsActsAppend(acts: seq<Act>, body: seq<StepAct>)
    requires body != []
    ensures acts + AsActs(body) == acts + AsActs(body[..|body| - 1]) + [StepAction("a", body[|body| - 1])]
  {
    assert AsActs(body) == AsActs(body[..|body| - 1]) + [StepAction("a", body[|body| - 1])];
  }

  lemma OneMoreAct(acts: seq<Act>, body: seq<StepAct>, m: Machine, m': Machine)
    requires body != [] && Execute(LONE, acts + AsActs(body[..|body| - 1])) == Some(m)
    requires Step(LONE, m, StepAction("a", body[|body| - 1])) == Some(m')
    ensures Execute(LONE, acts + AsActs(body)) == Some(m')
  {
    AsActsAppend(acts, body);
    ExecuteOne(LONE, acts + AsActs(body[..|body| - 1]), m, StepAction("a", body[|body| - 1]));
  }

  lemma ActMoves(m: Machine, control: Control, asked: set<string>, s: Scene, act: StepAct) returns (m': Machine)
    requires Shows(m, control, asked, s) && Advance(ASKING, s.r.decision, false, s.l, act).Some?
    ensures Step(LONE, m, StepAction("a", act)) == Some(m')
    ensures var e := Advance(ASKING, s.r.decision, false, s.l, act).value;
            Shows(m', control, asked, Scene(e.local, After(s.r, e, NO_QUESTION)))
  {
    MoverRecord(LONE, m, "a", act);
    m' := StepMoves(LONE, m, "a", act).value;
  }

  // Asked and suspended, for the first time.
  const FIRST := [
    CheckPending, Append(Committed, false), Write, ListDecisions(true), InsertDecision, Append(Committed, false),
    Append(Committed, false), Write]

  // Dispatched again while the decision is still open.
  const SECOND := [
    CheckPending, Append(Committed, false), Write, ListDecisions(true), Append(Committed, false), Write]

  const SUSPENDING := [EndOfLevel, Conclude, Finish(true)]
  const RESUMING := [StartResume, ListExpired(true), Proceed, Dispatch(true)]

  const BLANK := Scene(Local(Entered, FRESH, false), Record(FRESH, 0, None))
  const SUSPENDED_ONCE := StepView(Suspended, 0)
  const AGAIN := Scene(Local(Entered, SUSPENDED_ONCE, false), Record(SUSPENDED_ONCE, 1, Some(NO_QUESTION)))

  lemma PlayOne(s: Scene, body: seq<StepAct>, act: StepAct, t: Scene)
    requires Play(s, body) == Some(t) && Advance(ASKING, t.r.decision, false, t.l, act).Some?
    ensures var e := Advance(ASKING, t.r.decision, false, t.l, act).value;
            Play(s, body + [act]) == Some(Scene(e.local, After(t.r, e, NO_QUESTION)))
  {
    assert (body + [act])[..|body + [act]| - 1] == body;
  }

  function FirstScene(i: nat): Scene {
    var pc := match i
              case 0 => Entered
              case 1 => Starting
              case 2 => StartLogged
              case 3 => Working(false)
              case 4 => Undecided
              case 5 => DecisionCreated
              case 6 => DecisionLogged
              case 7 => SuspendLogged
              case _ => Returned(false);
    var live := if i == 0 then Pending else if i < 3 then Scheduled else if i < 8 then Running else Suspended;
    var logged := if i < 2 then Pending else if i < 6 then Running else Suspended;
    var decision := if i < 5 then None else Some(NO_QUESTION);
    Scene(Local(pc, StepView(live, 0), false), Record(StepView(logged, 0), if i < 6 then 0 else 1, decision))
  }

  lemma {:induction false} FirstPlays(i: nat)
    requires i <= |FIRST|
    ensures Play(BLANK, FIRST[..i]) == Some(FirstScene(i))
  {
    if i > 0 {
      FirstPlays(i - 1);
      FirstMoves(i - 1);
      PlayOne(BLANK, FIRST[..i - 1], FIRST[i - 1], FirstScene(i - 1));
      assert FIRST[..i] == FIRST[..i - 1] + [FIRST[i - 1]];
    }
  }

  lemma FirstMoves(i: nat)
    requires i < |FIRST|
    ensures var s := FirstScene(i);
            var e := Advance(ASKING, s.r.decision, false, s.l, FIRST[i]);
            e.Some? && Scene(e.value.local, After(s.r, e.value, NO_QUESTION)) == FirstScene(i + 1)
  {
  }

  function SecondScene(i: nat): Scene {
    var pc := match i
              case 0 => Entered
              case 1 => Starting
              case 2 => StartLogged
              case 3 => Working(false)
              case 4 => Resuspending
              case 5 => SuspendLogged
              case _ => Returned(false);
    Scene(
      Local(pc, StepView(if 3 <= i < 6 then Running else Suspended, 0), false),
      Record(StepView(if i < 2 then Suspended else Running, 0), 1, Some(NO_QUESTION)))
  }

  lemma SecondMoves(i: nat)
    requires i < |SECOND|
    ensures var s := SecondScene(i);
            var e := Advance(ASKING, s.r.decision, false, s.l, SECOND[i]);
            e.Some? && Scene(e.value.local, After(s.r, e.value, NO_QUESTION)) == SecondScene(i + 1)
  {
  }

  lemma {:induction false} SecondPlays(i: nat)
    requires i <= |SECOND|
    ensures Play(AGAIN, SECOND[..i]) == Some(SecondScene(i))
  {
    if i > 0 {
      SecondPlays(i - 1);
      SecondMoves(i - 1);
      PlayOne(AGAIN, SECOND[..i - 1], SECOND[i - 1], SecondScene(i - 1));
      assert SECOND[..i] == SECOND[..i - 1] + [SECOND[i - 1]];
    }
  }

  // ----- The history -----

  lemma FreshLone()
    ensures FreshLocals(LONE) == map["a" := Local(Idle, FRESH, false)]
  {
  }

  lemma LoneRuns() returns (m: Machine)
    ensures Execute(LONE, [StartRun]) == Some(m)
    ensures Shows(m, Dispatching(0, 0), {}, BLANK.(l := Local(Idle, FRESH, false)))
  {
    FreshLone();
    ExecuteOne(LONE, [], Init(), StartRun);
    assert [] + [StartRun] == [StartRun];
    AppendFrame(LONE, [], "", WorkflowStarted, "a");
    m := Execute(LONE, [StartRun]).value;
  }

  // The loop comes to the step.
  lemma LoneDispatches(m: Machine, asked: set<string>, s: Scene) returns (m': Machine)
    requires Shows(m, Dispatching(0, 0), asked, s) && s.l.pc == Idle && !IsTerminal(s.l.live.status)
    ensures Step(LONE, m, Dispatch(true)) == Some(m')
    ensures Shows(m', Dispatching(0, 1), asked, s.(l := s.l.(pc := Entered)))
  {
    assert LONE.levels[0] == ["a"] && NextStep(LONE, m) == Some("a");
    m' := DispatchNext(LONE, m, true).value;
    assert m'.run.value.locals == map["a" := s.l.(pc := Entered)];
  }

  lemma LoneConcludes(m: Machine, asked: set<string>, s: Scene) returns (m': Machine)
    requires Shows(m, Waiting(0), asked, s) && s.l.pc == Returned(false) && s.l.live.status == Suspended
    ensures Step(LONE, m, Conclude) == Some(m')
    ensures Shows(m', Ending(EndSuspended), asked, s)
  {
    assert LONE.levels[0] == ["a"] && "a" in LONE.levels[0];
    assert m.run.value.locals["a"] == s.l && !ReportsFailure(m.run.value, "a");
    m' := ConcludeLevel(LONE, m).value;
  }

  lemma LoneWaits(m: Machine, asked: set<string>, s: Scene) returns (m': Machine)
    requires Shows(m, Dispatching(0, 1), asked, s)
    ensures Step(LONE, m, EndOfLevel) == Some(m') && Shows(m', Waiting(0), asked, s)
  {
    m' := WithControl(m, Waiting(0)).value;
  }

  lemma LoneFinishes(m: Machine, asked: set<string>, s: Scene) returns (m': Machine)
    requires Shows(m, Ending(EndSuspended), asked, s)
    ensures Step(LONE, m, Finish(true)) == Some(m')
    ensures m'.run.None? && m'.status == WfSuspended && !m'.spent
    ensures RecordOf(m', "a") == s.r && m'.decisions.Keys <= {"a"}
  {
    m' := m.(status := WfSuspended, run := None);
  }

  // The first run, up to its suspension.
  const FIRST_RUN := [StartRun, Dispatch(true)] + AsActs(FIRST)

  lemma LoneSuspends() returns (m: Machine)
    ensures Execute(LONE, FIRST_RUN + SUSPENDING) == Some(m)
    ensures m.run.None? && m.status == WfSuspended && !m.spent
    ensures RecordOf(m, "a") == AGAIN.r && m.decisions.Keys <= {"a"}
  {
    var m0 := LoneRuns();
    var m1 := LoneDispatches(m0, {}, BLANK.(l := Local(Idle, FRESH, false)));
    ExecuteOne(LONE, [StartRun], m0, Dispatch(true));
    assert [StartRun] + [Dispatch(true)] == [StartRun, Dispatch(true)];
    FirstPlays(8);
    assert FIRST[..8] == FIRST;
    var m2 := PlayRuns([StartRun, Dispatch(true)], m1, Dispatching(0, 1), {}, BLANK, FIRST);
    m := LoneEnds(m2);
  }

  lemma LoneEnds(m: Machine) returns (m': Machine)
    requires Execute(LONE, FIRST_RUN) == Some(m) && Shows(m, Dispatching(0, 1), {}, FirstScene(8))
    ensures Execute(LONE, FIRST_RUN + SUSPENDING) == Some(m')
    ensures m'.run.None? && m'.status == WfSuspended && !m'.spent
    ensures RecordOf(m', "a") == AGAIN.r && m'.decisions.Keys <= {"a"}
  {
    var waiting := LoneWaits(m, {}, FirstScene(8));
    var ending := LoneConcludes(waiting, {}, FirstScene(8));
    m' := LoneFinishes(ending, {}, FirstScene(8));
    Then3(LONE, FIRST_RUN, m, EndOfLevel, Conclude, Finish(true));
  }

  lemma LoneReplays(m: Machine) returns (m': Machine)
    requires m.run.None? && m.status == WfSuspended && !m.spent
    requires RecordOf(m, "a") == AGAIN.r && m.decisions.Keys <= {"a"}
    ensures Step(LONE, m, StartResume) == Some(m')
    ensures m'.run.Some? && m'.run.value == Run(map["a" := SUSPENDED_ONCE], {"a"}, false, ByCancel,
                                               map["a" := Local(Idle, SUSPENDED_ONCE, false)], {}, Preamble)
    ensures m' == m.(run := m'.run)
  {
    var locals := ReplayedLocals(LONE, m.log);
    assert locals == map["a" := Local(Idle, SUSPENDED_ONCE, false)];
    assert LiveViews(locals) == map["a" := SUSPENDED_ONCE];
    assert "a" in m.decisions && OpenDecisions(m.decisions) == {"a"};
    m' := Step(LONE, m, StartResume).value;
  }

  lemma LoneProceeds(m: Machine) returns (m': Machine)
    requires m.run.Some? && m.run.value.control.Preamble? && m.status == WfSuspended && !m.spent
    ensures var listed := Step(LONE, m, ListExpired(true));
            listed.Some? && Step(LONE, listed.value, Proceed) == Some(m')
    ensures m'.run == Some(m.run.value.(control := Dispatching(0, 0)))
    ensures m'.status == WfActive && !m'.spent
    ensures m'.decisions == m.decisions && RecordOf(m', "a") == RecordOf(m, "a")
  {
    var listed := Step(LONE, m, ListExpired(true)).value;
    m' := Step(LONE, listed, Proceed).value;
    AppendFrame(LONE, m.log, "", WorkflowStarted, "a");
  }

  const RESUMED := FIRST_RUN + SUSPENDING + RESUMING
  const HISTORY := RESUMED + AsActs(SECOND)

  lemma LoneResumes() returns (m: Machine)
    ensures Execute(LONE, RESUMED) == Some(m) && Shows(m, Dispatching(0, 1), {"a"}, AGAIN)
  {
    var acts := FIRST_RUN + SUSPENDING;
    var m0 := LoneSuspends();
    var m1 := LoneReplays(m0);
    var m2 := LoneProceeds(m1);
    assert Shows(m2, Dispatching(0, 0), {"a"}, AGAIN.(l := Local(Idle, SUSPENDED_ONCE, false)));
    m := LoneDispatches(m2, {"a"}, AGAIN.(l := Local(Idle, SUSPENDED_ONCE, false)));
    Then3(LONE, acts, m0, StartResume, ListExpired(true), Proceed);
    ExecuteOne(LONE, acts + [StartResume, ListExpired(true), Proceed], m2, Dispatch(true));
    assert acts + [StartResume, ListExpired(true), Proceed] + [Dispatch(true)] == acts + RESUMING;
  }

  // With every append committed: the step is suspended in memory, its decision was
  // open when the run began, and a resume would restore it as running.
  lemma SecondSuspensionReplaysAsRunning()
    ensures WellLevelled(LONE) && Execute(LONE, HISTORY).Some? && AllCommit(HISTORY)
    ensures var m := Execute(LONE, HISTORY).value;
            && m.run.Some? && "a" in m.run.value.asked && "a" in m.run.value.locals
            && m.run.value.locals["a"] == Local(Returned(false), SUSPENDED_ONCE, false)
            && ReplayStep(m.log, "a") == StepView(Running, 0)
  {
    var m := LoneResumes();
    SecondPlays(6);
    assert SECOND[..6] == SECOND;
    m := PlayRuns(RESUMED, m, Dispatching(0, 1), {"a"}, AGAIN, SECOND);
    HistoryCommits();
    LoneIsWellLevelled();
  }

  lemma HistoryCommits()
    ensures AllCommit(HISTORY)
  {
    assert forall a :: a in FIRST ==> Fits(Mode(true, false), a);
    assert forall a :: a in SECOND ==> Fits(Mode(true, false), a);
  }

  lemma Then3(cfg: Config, acts: seq<Act>, m: Machine, x: Act, y: Act, z: Act)
    requires Execute(cfg, acts) == Some(m) && Step(cfg, m, x).Some?
    requires Step(cfg, Step(cfg, m, x).value, y).Some?
    ensures Execute(cfg, acts + [x, y, z]) == Step(cfg, Step(cfg, Step(cfg, m, x).value, y).value, z)
  {
    ExecuteOne(cfg, acts, m, x);
    ExecuteOne(cfg, acts + [x], Step(cfg, m, x).value, y);
    ExecuteOne(cfg, acts + [x] + [y], Step(cfg, Step(cfg, m, x).value, y).value, z);
    assert acts + [x] + [y] + [z] == acts + [x, y, z];
  }

  // ----- A suspension that lasts -----

  // The same step under a workflow timeout with on_timeout suspend.
  const HELD := LONE.(timed := true, onTimeout := SuspendIt)
  const OUT_OF_TIME := [StartRun, TimeoutElapses, ContextEnds(ByTimeout), ContextDone]
  const TIMED_OUT := OUT_OF_TIME + [Finish(true)]
  const REFUSED := [StartResume, ListExpired(true), Proceed]

  function EndOnTime(m: Machine): Machine
    requires m.run.Some?
  {
    m.(spent := true, run := Some(m.run.value.(over := true, cause := ByTimeout, control := Ending(EndSuspended))))
  }

  lemma HeldStarts() returns (m: Machine)
    ensures Execute(HELD, [StartRun]) == Some(m) && m.run.Some? && m.status == WfActive && !m.spent
    ensures m.run.value.control == Dispatching(0, 0) && !m.run.value.over && |m.log| == 1 && m.log[0].stepId == ""
  {
    ExecuteOne(HELD, [], Init(), StartRun);
    assert [] + [StartRun] == [StartRun];
    m := Execute(HELD, [StartRun]).value;
  }

  // Its timeout strikes before the loop comes to the step.
  lemma HeldTimesOut(m: Machine)
    requires Execute(HELD, [StartRun]) == Some(m) && m.run.Some? && m.status == WfActive
    requires m.run.value.control == Dispatching(0, 0) && !m.run.value.over
    ensures Execute(HELD, OUT_OF_TIME) == Some(EndOnTime(m))
  {
    var m1 := m.(spent := true);
    var m2 := m1.(run := Some(m1.run.value.(over := true, cause := ByTimeout)));
    assert Step(HELD, m, TimeoutElapses) == Some(m1);
    assert Step(HELD, m1, ContextEnds(ByTimeout)) == Some(m2);
    assert Step(HELD, m2, ContextDone) == Some(EndOnTime(m));
    Then3(HELD, [StartRun], m, TimeoutElapses, ContextEnds(ByTimeout), ContextDone);
    assert OUT_OF_TIME == [StartRun] + [TimeoutElapses, ContextEnds(ByTimeout), ContextDone];
  }

  lemma HeldSuspends() returns (m: Machine)
    ensures Execute(HELD, TIMED_OUT) == Some(m) && m.run.None? && m.status == WfSuspended && m.spent
    ensures |m.log| == 1 && m.log[0].stepId == ""
  {
    var m0 := HeldStarts();
    HeldTimesOut(m0);
    m := EndOnTime(m0).(status := WfSuspended, run := None);
    assert Step(HELD, EndOnTime(m0), Finish(true)) == Some(m);
    ExecuteOne(HELD, OUT_OF_TIME, EndOnTime(m0), Finish(true));
  }

  lemma HeldIsWellLevelled()
    ensures WellLevelled(HELD)
  {
    assert HELD.levels[0][0] == "a" && "a" in HELD.levels[0];
    assert InSomeLevel(HELD, "a", 1);
  }

  // A workflow that on_timeout: suspend suspended, and whose step never started:
  // whatever is done with it, that step never does.
  lemma SuspendedForGood(more: seq<Act>)
    requires Execute(HELD, TIMED_OUT + more).Some?
    ensures WellLevelled(HELD) && Execute(HELD, TIMED_OUT).Some?
    ensures Execute(HELD, TIMED_OUT).value.run.None? && Execute(HELD, TIMED_OUT).value.status == WfSuspended
    ensures var m := Execute(HELD, TIMED_OUT + more).value;
            NextStep(HELD, m).None? && forall e :: e in m.log && e.stepId == "a" ==> !Reopens(e.kind)
  {
    HeldIsWellLevelled();
    var m := HeldSuspends();
    SpentTimeoutIsFinal(HELD, TIMED_OUT, more);
  }

  // A resume of it does come as far as the check of the time left.
  lemma ResumeIsRefused()
    ensures var m := Execute(HELD, TIMED_OUT + REFUSED);
            m.Some? && m.value.run.None? && m.value.status == WfActive
  {
    var m := HeldSuspends();
    var m1 := Step(HELD, m, StartResume).value;
    var m2 := Step(HELD, m1, ListExpired(true)).value;
    Then3(HELD, TIMED_OUT, m, StartResume, ListExpired(true), Proceed);
  }
}
