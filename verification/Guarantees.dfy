// The guarantees of event-sourced execution, for every history: any
// interleaving of the goroutines of a level, any crashes, recoveries and
// resumes, any signals, any appends that fail.
module Guarantees {
  import opened Wrappers
  import opened Lifecycle
  import opened EventLog
  import opened Decisions
  import opened Execution
  import opened Goroutine
  import opened Safety
  import Graph

  // The strongest mode a history fits.
  ghost function ModeOf(acts: seq<Act>): Mode {
    Mode(AllCommit(acts), Reliable(acts))
  }

  // ----- The log -----

  lemma {:induction false} SettledStaysSettled(log: seq<Event>, id: string, i: nat, j: nat)
    requires NeverReopened(log, id) && i < j <= |log|
    requires log[i].stepId == id && Settles(log[i].kind)
    ensures IsTerminal(ReplayStep(log[..j], id).status)
  {
    assert log[..j] == log[..j - 1] + [log[j - 1]];
    ReplayAppend(log[..j - 1], log[j - 1], id);
    if i < j - 1 {
      SettledStaysSettled(log, id, i, j - 1);
    }
  }

  // Nothing restarts: once the log holds a completion (or failure, or skip) of a
  // step, no later event starts, retries or re-asks it, across every crash and
  // resume and whatever appends were lost.
  lemma NoRestartAfterCompletion(cfg: Config, acts: seq<Act>, id: string, i: nat, j: nat)
    requires WellLevelled(cfg) && Execute(cfg, acts).Some? && id in cfg.steps
    requires var log := Execute(cfg, acts).value.log;
             i < j < |log| && log[i].stepId == id && log[j].stepId == id && Settles(log[i].kind)
    ensures !Reopens(Execute(cfg, acts).value.log[j].kind)
  {
    var m := Execute(cfg, acts).value;
    Reachable(cfg, acts, ModeOf(acts));
    assert StepInv(cfg, m, id, ModeOf(acts));
    SettledStaysSettled(m.log, id, i, j);
  }

  // Sequence numbers are exactly 1..n, so replay never reports a gap.
  lemma SequencesHaveNoGap(cfg: Config, acts: seq<Act>)
    requires WellLevelled(cfg) && Execute(cfg, acts).Some?
    ensures Contiguous(Execute(cfg, acts).value.log)
  {
    Reachable(cfg, acts, ModeOf(acts));
  }

  // The retry budget is spent once, not once per resume.
  lemma RetriesAreBounded(cfg: Config, acts: seq<Act>, id: string)
    requires WellLevelled(cfg) && Execute(cfg, acts).Some? && id in cfg.steps
    ensures CountKind(Execute(cfg, acts).value.log, id, StepRetrying) <= RetryBudget(cfg.steps[id])
  {
    var m := Execute(cfg, acts).value;
    Reachable(cfg, acts, ModeOf(acts));
    assert StepInv(cfg, m, id, ModeOf(acts));
    RetryCountIsLogged(m.log, id);
  }

  // ----- Replay against memory -----

  // The view a resume would restore, against the view in memory: they are equal
  // unless the step is suspended on a decision that was open when the run began,
  // and then replay has it running.
  predicate Restores(restored: StepView, live: StepView, asked: bool) {
    && (restored == live <==> !(live.status == Suspended && asked))
    && (restored == live || restored == live.(status := Running))
  }

  predicate SameEnd(restored: StepView, live: StepView) {
    IsTerminal(restored.status) || IsTerminal(live.status) ==> restored.status == live.status
  }

  predicate Simulates(def: StepDef, d: Option<Decision>, f: Frame, restored: StepView, l: Local, lossless: bool) {
    && (!InWindow(l.pc) && !Refused(l.pc) ==> SameEnd(restored, l.live))
    && (!InWindow(l.pc) ==> restored.retryCount == l.live.retryCount)
    && (InWindow(l.pc) ==> Advance(def, d, f.over, l, Write).Some?)
    && (InWindow(l.pc) && lossless ==>
          Restores(restored, Advance(def, d, f.over, l, Write).value.local.live, f.asked))
    && (lossless ==> !Refused(l.pc))
    && (lossless && Finished(l.pc) ==> Restores(restored, l.live, f.asked))
    && (l.pc == Idle ==> restored == l.live)
  }

  lemma TrackedIsSimulated(def: StepDef, r: Record, f: Frame, l: Local, mode: Mode)
    requires Tracks(def, r, f, l, mode)
    ensures Simulates(def, r.decision, f, r.view, l, mode.lossless)
  {
  }

  // What a resume would restore is what the run has in memory: the same
  // terminal status and retry count, except between an append and the write
  // that completes it, and for outcomes the log refused. When every append
  // committed nothing is refused, the pending write of a window yields the
  // restored state, and a finished step has that very state if and only if it is
  // not suspended on a decision that was open when this run began.
  lemma ReplaySimulatesLive(cfg: Config, acts: seq<Act>, id: string)
    requires WellLevelled(cfg) && Execute(cfg, acts).Some? && id in cfg.steps
    requires var m := Execute(cfg, acts).value; m.run.Some? && Tracking(m.run.value.control)
    ensures var m := Execute(cfg, acts).value;
            && id in m.run.value.locals && id in m.run.value.entry
            && Simulates(cfg.steps[id], Lookup(m.decisions, id), FrameOf(m.run.value, id),
                         ReplayedLocals(cfg, m.log)[id].live, m.run.value.locals[id], AllCommit(acts))
  {
    var m := Execute(cfg, acts).value;
    Reachable(cfg, acts, ModeOf(acts));
    assert StepInv(cfg, m, id, ModeOf(acts));
    TrackedIsSimulated(cfg.steps[id], RecordOf(m, id), FrameOf(m.run.value, id), m.run.value.locals[id], ModeOf(acts));
  }

  // ----- Dispatch -----

  predicate Stalled(pc: Pc) {
    pc == Panicked || pc.IgnoredUnlogged?
  }

  // What an error that was ignored without a trace takes: the step ignores
  // errors, and its own timeout fired or the store refused the append.
  predicate LossExplained(def: StepDef, l: Local, reliable: bool) {
    l.pc.IgnoredUnlogged? ==>
      && def.onError == Ignore && l.pc.why != RunOver
      && (l.pc.why == StepTimeout ==> def.timed && l.timedOut)
      && (reliable ==> l.pc.why == StepTimeout)
  }

  lemma {:induction false} DependencyIsBelow(cfg: Config, p: seq<string>, k: nat, i: nat) returns (j: nat)
    requires WellLevelled(cfg) && Graph.IsWalk(cfg.deps, p) && k < |cfg.levels| && p[0] in cfg.levels[k]
    requires 1 <= i < |p|
    ensures j < k && p[i] in cfg.levels[j]
  {
    var k' := k;
    if i > 1 {
      k' := DependencyIsBelow(cfg, p, k, i - 1);
    }
    assert Graph.EdgeAt(cfg.deps, p, i - 1);
    var x :| 0 <= x < |cfg.levels[k']| && cfg.levels[k'][x] == p[i - 1];
    assert EntryOk(cfg, k', x);
    assert InSomeLevel(cfg, p[i], k');
    j :| 0 <= j < k' && p[i] in cfg.levels[j];
  }

  lemma BelowIsSettled(cfg: Config, run: Run, k: nat, i: nat, j: nat, id: string)
    requires LoopAt(cfg, run, k, i) && j < k && id in cfg.levels[j]
    ensures Settled(run, id)
  {
    var x :| 0 <= x < |cfg.levels[j]| && cfg.levels[j][x] == id;
    assert PositionOk(cfg, run, k, i, j, x);
  }

  lemma ReachedMeansOver(cfg: Config, m: Machine, p: seq<string>, i: nat, mode: Mode)
    requires WellLevelled(cfg) && Inv(cfg, m, mode)
    requires Graph.IsWalk(cfg.deps, p) && 1 <= i < |p| && NextStep(cfg, m) == Some(p[0])
    ensures var run := m.run.value;
            && p[i] in cfg.steps && p[i] in run.locals && p[i] in run.entry
            && (IsTerminal(run.locals[p[i]].live.status) <==> !Stalled(run.locals[p[i]].pc))
            && LossExplained(cfg.steps[p[i]], run.locals[p[i]], mode.reliable)
            && (run.locals[p[i]].live.status == Failed ==> run.entry[p[i]].status == Failed)
  {
    var run := m.run.value;
    var k := run.control.level;
    var j := DependencyIsBelow(cfg, p, k, i);
    BelowIsSettled(cfg, run, k, run.control.index, j, p[i]);
    assert StepInv(cfg, m, p[i], mode);
  }

  // When the loop comes to a step, each of its transitive dependencies is over,
  // unless its action panicked or an ignored error could not be logged; those
  // two are exactly the exceptions, and with a store that refuses no append the
  // second takes a step with a timeout and on_error ignore whose timeout fired.
  // A dependency that failed had failed before this run began.
  lemma DispatchIsSafe(cfg: Config, acts: seq<Act>, p: seq<string>, i: nat)
    requires WellLevelled(cfg) && Execute(cfg, acts).Some?
    requires Graph.IsWalk(cfg.deps, p) && 1 <= i < |p|
    requires NextStep(cfg, Execute(cfg, acts).value) == Some(p[0])
    ensures var run := Execute(cfg, acts).value.run.value;
            && p[i] in cfg.steps && p[i] in run.locals && p[i] in run.entry
            && (IsTerminal(run.locals[p[i]].live.status) <==> !Stalled(run.locals[p[i]].pc))
            && LossExplained(cfg.steps[p[i]], run.locals[p[i]], Reliable(acts))
            && (run.locals[p[i]].live.status == Failed ==> run.entry[p[i]].status == Failed)
  {
    Reachable(cfg, acts, ModeOf(acts));
    ReachedMeansOver(cfg, Execute(cfg, acts).value, p, i, ModeOf(acts));
  }

  ghost predicate NoPanics(acts: seq<Act>) {
    forall i :: 0 <= i < |acts| ==> !IsPanic(acts[i])
  }

  predicate IsPanic(a: Act) {
    a.StepAction? && a.act == Panic
  }

  predicate PanickedIn(m: Machine, id: string) {
    m.run.Some? && id in m.run.value.locals && m.run.value.locals[id].pc == Panicked
  }

  lemma OnlyPanicsPanic(def: StepDef, d: Option<Decision>, over: bool, l: Local, a: StepAct)
    requires a != Panic && Advance(def, d, over, l, a).Some?
    ensures Advance(def, d, over, l, a).value.local.pc != Panicked
  {
  }

  lemma PanickedMove(cfg: Config, m: Machine, id: string, act: StepAct, other: string)
    requires StepMoves(cfg, m, id, act).Some? && act != Panic && PanickedIn(StepMoves(cfg, m, id, act).value, other)
    ensures PanickedIn(m, other)
  {
    OnlyPanicsPanic(cfg.steps[id], Lookup(m.decisions, id), m.run.value.over, m.run.value.locals[id], act);
  }

  lemma PanickedAfter(cfg: Config, m: Machine, a: Act, id: string)
    requires Step(cfg, m, a).Some? && !IsPanic(a) && PanickedIn(Step(cfg, m, a).value, id)
    ensures PanickedIn(m, id)
  {
    match a {
      case StepAction(mover, act) => PanickedMove(cfg, m, mover, act, id);
      case _ =>
    }
  }

  lemma {:induction false} PanicsLeaveTraces(cfg: Config, acts: seq<Act>, id: string)
    requires Execute(cfg, acts).Some? && NoPanics(acts)
    ensures !PanickedIn(Execute(cfg, acts).value, id)
  {
    if acts != [] {
      var n := |acts| - 1;
      assert NoPanics(acts[..n]) && !IsPanic(acts[n]);
      PanicsLeaveTraces(cfg, acts[..n], id);
      if PanickedIn(Execute(cfg, acts).value, id) {
        PanickedAfter(cfg, Execute(cfg, acts[..n]).value, acts[n], id);
      }
    }
  }

  // With a store that refuses nothing and no panics, a step is reached only when
  // every transitive dependency is over that does not both have a timeout and
  // ignore errors; and it is completed or skipped unless it had failed at entry.
  lemma SmoothDispatch(cfg: Config, acts: seq<Act>, p: seq<string>, i: nat)
    requires WellLevelled(cfg) && Execute(cfg, acts).Some? && Reliable(acts) && NoPanics(acts)
    requires Graph.IsWalk(cfg.deps, p) && 1 <= i < |p|
    requires NextStep(cfg, Execute(cfg, acts).value) == Some(p[0])
    requires p[i] in cfg.steps ==> !(cfg.steps[p[i]].timed && cfg.steps[p[i]].onError == Ignore)
    ensures var run := Execute(cfg, acts).value.run.value;
            && p[i] in run.locals && p[i] in run.entry
            && IsTerminal(run.locals[p[i]].live.status)
            && (run.entry[p[i]].status != Failed ==> run.locals[p[i]].live.status in {Completed, Skipped})
  {
    DispatchIsSafe(cfg, acts, p, i);
    PanicsLeaveTraces(cfg, acts, p[i]);
  }

  // ----- Ignored errors and timeouts -----

  // One goroutine on its own: what each action saw of its decision and its run.
  datatype Move = Move(decision: Option<Decision>, over: bool, act: StepAct)

  function Follow(def: StepDef, l: Local, moves: seq<Move>): Option<Local>
    decreases |moves|
  {
    if moves == [] then Some(l)
    else
      var e := Advance(def, moves[0].decision, moves[0].over, l, moves[0].act);
      if e.None? then None else Follow(def, e.value.local, moves[1..])
  }

  // Timed out in its first attempt and before the event that ends it, errors
  // ignored, no retry left.
  predicate Doomed(def: StepDef, l: Local) {
    && l.timedOut && def.onError == Ignore && !RetriesLeft(def, l.live.retryCount)
    && (l.pc == Working(false) || l.pc.Undecided? || l.pc.DecisionCreated? || l.pc.DecisionLogged? ||
        l.pc.Resuspending? || l.pc.Skipping? || l.pc.Succeeded? || l.pc.Erred? || l.pc.Ignoring? ||
        l.pc.IgnoreRefused? || Stalled(l.pc))
  }

  lemma DoomIsKept(def: StepDef, m: Move, l: Local)
    requires Doomed(def, l) && Advance(def, m.decision, m.over, l, m.act).Some?
    ensures Doomed(def, Advance(def, m.decision, m.over, l, m.act).value.local)
  {
  }

  // A step that ignores errors and whose timeout fires during its only attempt
  // always ends stalled, whether its action succeeds, fails or panics, and
  // however the store behaves: nothing says so, and it stays running.
  lemma {:induction false} LateIgnoreStalls(def: StepDef, l: Local, moves: seq<Move>)
    requires Doomed(def, l)
    ensures var end := Follow(def, l, moves); end.Some? && Finished(end.value.pc) ==> Stalled(end.value.pc)
    decreases |moves|
  {
    if moves != [] {
      var e := Advance(def, moves[0].decision, moves[0].over, l, moves[0].act);
      if e.Some? {
        DoomIsKept(def, moves[0], l);
        LateIgnoreStalls(def, e.value.local, moves[1..]);
      }
    }
  }

  // ----- The end of a run -----

  lemma EndedIsSettled(cfg: Config, run: Run, id: string)
    requires WellLevelled(cfg) && id in cfg.steps && LoopAt(cfg, run, |cfg.levels|, 0)
    ensures Settled(run, id)
  {
    var k, i := PositionOf(cfg, id);
    assert PositionOk(cfg, run, |cfg.levels|, 0, k, i);
  }

  lemma SettledAgrees(cfg: Config, m: Machine, id: string, mode: Mode)
    requires id in cfg.steps && StepInv(cfg, m, id, mode)
    requires m.run.Some? && Tracking(m.run.value.control) && Settled(m.run.value, id)
    ensures var l := m.run.value.locals[id];
            && (IsTerminal(l.live.status) <==> !Stalled(l.pc))
            && (!Stalled(l.pc) ==> ReplayStep(m.log, id).status == l.live.status)
            && LossExplained(cfg.steps[id], l, mode.reliable)
  {
  }

  // A workflow is recorded as completed only with every step over, in memory
  // and in the log, with the same two exceptions.
  lemma CompletedMeansAllOver(cfg: Config, acts: seq<Act>, id: string)
    requires WellLevelled(cfg) && Execute(cfg, acts).Some? && id in cfg.steps
    requires var m := Execute(cfg, acts).value; m.run.Some? && m.run.value.control == Ending(EndCompleted)
    ensures var m := Execute(cfg, acts).value; var locals := m.run.value.locals;
            && id in locals
            && (IsTerminal(locals[id].live.status) <==> !Stalled(locals[id].pc))
            && (!Stalled(locals[id].pc) ==> ReplayStep(m.log, id).status == locals[id].live.status)
            && LossExplained(cfg.steps[id], locals[id], Reliable(acts))
  {
    Reachable(cfg, acts, ModeOf(acts));
    var m := Execute(cfg, acts).value;
    EndedIsSettled(cfg, m.run.value, id);
    assert StepInv(cfg, m, id, ModeOf(acts));
    SettledAgrees(cfg, m, id, ModeOf(acts));
  }

  // In a history without panics, with every append committed or with a store that
  // refuses nothing and a step that does not both have a timeout and ignore errors,
  // a completed run leaves the step over in memory and in the log; one that failed
  // had failed at entry.
  lemma CompletedCleanly(cfg: Config, acts: seq<Act>, id: string)
    requires WellLevelled(cfg) && Execute(cfg, acts).Some? && id in cfg.steps && NoPanics(acts)
    requires AllCommit(acts) || (Reliable(acts) && !(cfg.steps[id].timed && cfg.steps[id].onError == Ignore))
    requires var m := Execute(cfg, acts).value; m.run.Some? && m.run.value.control == Ending(EndCompleted)
    ensures var m := Execute(cfg, acts).value; var run := m.run.value;
            && id in run.locals && id in run.entry
            && IsTerminal(run.locals[id].live.status)
            && ReplayStep(m.log, id).status == run.locals[id].live.status
            && (run.locals[id].live.status == Failed ==> run.entry[id].status == Failed)
  {
    PanicsLeaveTraces(cfg, acts, id);
    var m := Execute(cfg, acts).value;
    Reachable(cfg, acts, ModeOf(acts));
    EndedIsSettled(cfg, m.run.value, id);
    assert StepInv(cfg, m, id, ModeOf(acts));
    SettledCleanly(cfg, m, id, ModeOf(acts));
  }

  lemma SettledCleanly(cfg: Config, m: Machine, id: string, mode: Mode)
    requires id in cfg.steps && StepInv(cfg, m, id, mode)
    requires mode.lossless || (mode.reliable && !(cfg.steps[id].timed && cfg.steps[id].onError == Ignore))
    requires m.run.Some? && Tracking(m.run.value.control) && Settled(m.run.value, id) && !PanickedIn(m, id)
    ensures var run := m.run.value;
            && id in run.entry && IsTerminal(run.locals[id].live.status)
            && ReplayStep(m.log, id).status == run.locals[id].live.status
            && (run.locals[id].live.status == Failed ==> run.entry[id].status == Failed)
  {
  }

  // ----- The workflow row and its timeout -----

  // While a run is in its level loop, or ending, the row says active; before that
  // it may still say suspended. The timeout counts from the start, and a run that
  // ended by it has spent it.
  predicate RowAndClock(m: Machine) {
    && (m.spent ==> m.status != WfPending)
    && (m.run.Some? ==>
          && (m.run.value.over && m.run.value.cause == ByTimeout ==> m.spent)
          && m.status in {WfActive, WfSuspended}
          && (InLoop(m) || m.run.value.control.Ending? ==> m.status == WfActive))
  }

  predicate InLoop(m: Machine) {
    m.run.Some? && (m.run.value.control.Dispatching? || m.run.value.control.Waiting?)
  }

  lemma MovesKeepRow(cfg: Config, m: Machine, id: string, act: StepAct)
    requires RowAndClock(m) && StepMoves(cfg, m, id, act).Some?
    ensures RowAndClock(StepMoves(cfg, m, id, act).value)
  {
  }

  lemma LoopKeepsRow(cfg: Config, m: Machine, a: Act)
    requires RowAndClock(m) && Step(cfg, m, a).Some? && IsLoopAct(a) && !a.StepAction?
    ensures RowAndClock(Step(cfg, m, a).value)
  {
  }

  predicate IsPreambleAct(a: Act) {
    || a.ListExpired? || a.ExpireWithFallback? || a.ExpireWithoutFallback? || a.LogExpiry? || a.AbortResume?
    || a.AbandonResume? || a.Proceed?
  }

  lemma PreambleKeepsRow(cfg: Config, m: Machine, a: Act)
    requires RowAndClock(m) && Step(cfg, m, a).Some? && IsPreambleAct(a)
    ensures RowAndClock(Step(cfg, m, a).value)
  {
  }

  lemma OthersKeepRow(cfg: Config, m: Machine, a: Act)
    requires RowAndClock(m) && Step(cfg, m, a).Some? && !IsLoopAct(a) && !IsPreambleAct(a)
    ensures RowAndClock(Step(cfg, m, a).value)
  {
  }

  lemma {:induction false} RowAndClockAlways(cfg: Config, acts: seq<Act>)
    requires Execute(cfg, acts).Some?
    ensures RowAndClock(Execute(cfg, acts).value)
  {
    if acts != [] {
      var n := |acts| - 1;
      RowAndClockAlways(cfg, acts[..n]);
      var m := Execute(cfg, acts[..n]).value;
      if acts[n].StepAction? {
        MovesKeepRow(cfg, m, acts[n].stepId, acts[n].act);
      } else if IsLoopAct(acts[n]) {
        LoopKeepsRow(cfg, m, acts[n]);
      } else if IsPreambleAct(acts[n]) {
        PreambleKeepsRow(cfg, m, acts[n]);
      } else {
        OthersKeepRow(cfg, m, acts[n]);
      }
    }
  }

  // Nothing runs, and no time is left.
  ghost predicate Shut(m: Machine) {
    m.spent && m.status != WfPending && !InLoop(m) && (m.run.Some? ==> Quiet(m.run.value))
  }

  // The log may grow, but by no event that starts, retries or asks a step.
  ghost predicate NothingStarts(cfg: Config, before: seq<Event>, after: seq<Event>) {
    && before <= after
    && forall j :: |before| <= j < |after| && after[j].stepId in cfg.steps ==> !Reopens(after[j].kind)
  }

  lemma NothingStartsTransitive(cfg: Config, a: seq<Event>, b: seq<Event>, c: seq<Event>)
    requires NothingStarts(cfg, a, b) && NothingStarts(cfg, b, c)
    ensures NothingStarts(cfg, a, c)
  {
  }

  lemma StaysShut(cfg: Config, m: Machine, a: Act)
    requires Shut(m) && Step(cfg, m, a).Some?
    ensures Shut(Step(cfg, m, a).value) && NothingStarts(cfg, m.log, Step(cfg, m, a).value.log)
  {
    if IsLoopAct(a) {
      LoopStaysShut(cfg, m, a);
    } else if IsPreambleAct(a) {
      PreambleStaysShut(cfg, m, a);
    } else {
      OthersStayShut(cfg, m, a);
    }
  }

  lemma LoopStaysShut(cfg: Config, m: Machine, a: Act)
    requires Shut(m) && Step(cfg, m, a).Some? && IsLoopAct(a)
    ensures Shut(Step(cfg, m, a).value) && NothingStarts(cfg, m.log, Step(cfg, m, a).value.log)
  {
    if a.StepAction? {
      var run := m.run.value;
      OnlyGoroutinesMove(cfg.steps[a.stepId], Lookup(m.decisions, a.stepId), run.over, run.locals[a.stepId], a.act);
    }
  }

  lemma PreambleStaysShut(cfg: Config, m: Machine, a: Act)
    requires Shut(m) && Step(cfg, m, a).Some? && IsPreambleAct(a)
    ensures Shut(Step(cfg, m, a).value) && NothingStarts(cfg, m.log, Step(cfg, m, a).value.log)
  {
  }

  lemma OthersStayShut(cfg: Config, m: Machine, a: Act)
    requires Shut(m) && Step(cfg, m, a).Some? && !IsLoopAct(a) && !IsPreambleAct(a)
    ensures Shut(Step(cfg, m, a).value) && NothingStarts(cfg, m.log, Step(cfg, m, a).value.log)
  {
  }

  lemma LastStaysShut(cfg: Config, acts: seq<Act>)
    requires acts != [] && Execute(cfg, acts[..|acts| - 1]).Some? && Execute(cfg, acts).Some?
    requires Shut(Execute(cfg, acts[..|acts| - 1]).value)
    ensures Shut(Execute(cfg, acts).value)
    ensures NothingStarts(cfg, Execute(cfg, acts[..|acts| - 1]).value.log, Execute(cfg, acts).value.log)
  {
    StaysShut(cfg, Execute(cfg, acts[..|acts| - 1]).value, acts[|acts| - 1]);
  }

  lemma PrefixExecutes(cfg: Config, acts: seq<Act>)
    requires acts != [] && Execute(cfg, acts).Some?
    ensures Execute(cfg, acts[..|acts| - 1]).Some?
  {
  }

  lemma {:induction false} ShutForever(cfg: Config, acts: seq<Act>, more: seq<Act>)
    requires Execute(cfg, acts).Some? && Execute(cfg, acts + more).Some? && Shut(Execute(cfg, acts).value)
    ensures Shut(Execute(cfg, acts + more).value)
    ensures NothingStarts(cfg, Execute(cfg, acts).value.log, Execute(cfg, acts + more).value.log)
  {
    if more == [] {
      assert acts + more == acts;
    } else {
      var all, sooner := acts + more, acts + more[..|more| - 1];
      assert all[..|all| - 1] == sooner;
      PrefixExecutes(cfg, all);
      ShutForever(cfg, acts, more[..|more| - 1]);
      LastStaysShut(cfg, all);
      NothingStartsTransitive(cfg, Execute(cfg, acts).value.log, Execute(cfg, sooner).value.log,
                              Execute(cfg, all).value.log);
    }
  }

  // Once a workflow's timeout has elapsed and its level loop is not under way,
  // nothing of it ever runs again: whatever is resumed, signalled or recovered, the
  // loop comes to no step and no step is started, retried or asked.
  lemma SpentTimeoutIsFinal(cfg: Config, acts: seq<Act>, more: seq<Act>)
    requires WellLevelled(cfg) && Execute(cfg, acts).Some? && Execute(cfg, acts + more).Some?
    requires Execute(cfg, acts).value.spent && !InLoop(Execute(cfg, acts).value)
    ensures var m, m' := Execute(cfg, acts).value, Execute(cfg, acts + more).value;
            !InLoop(m') && NextStep(cfg, m').None? && NothingStarts(cfg, m.log, m'.log)
  {
    var m := Execute(cfg, acts).value;
    RowAndClockAlways(cfg, acts);
    Reachable(cfg, acts, ModeOf(acts));
    if m.run.Some? && !m.run.value.control.Ending? {
      LevelStartIsQuiet(cfg, m.run.value, 0);
    }
    ShutForever(cfg, acts, more);
  }

  // So a run that its workflow's timeout ended is the last, whatever on_timeout
  // says: a workflow suspended by its timeout cannot be carried on.
  lemma TimedOutRunIsTheLast(cfg: Config, acts: seq<Act>, more: seq<Act>)
    requires WellLevelled(cfg) && Execute(cfg, acts).Some? && Execute(cfg, acts + more).Some?
    requires var m := Execute(cfg, acts).value;
             m.run.Some? && m.run.value.control.Ending? && m.run.value.over && m.run.value.cause == ByTimeout
    ensures var m, m' := Execute(cfg, acts).value, Execute(cfg, acts + more).value;
            !InLoop(m') && NextStep(cfg, m').None? && NothingStarts(cfg, m.log, m'.log)
  {
    RowAndClockAlways(cfg, acts);
    SpentTimeoutIsFinal(cfg, acts, more);
  }

  lemma FinishSetsRow(cfg: Config, m: Machine, persisted: bool)
    requires m.run.Some? && m.run.value.control.Ending? && m.status == WfActive
    ensures var m' := Step(cfg, m, Finish(persisted)); var outcome := m.run.value.control.outcome;
            && m'.Some? && m'.value.run.None?
            && (m'.value.status == WfActive <==> outcome == EndCancelled || !persisted)
            && (m'.value.status == WfSuspended <==> outcome == EndSuspended && persisted)
  {
  }

  // A run leaves the row active when it could not be persisted or when a deadline
  // cancelled it under on_timeout cancel, and in no other case.
  lemma CancelledRowStaysActive(cfg: Config, acts: seq<Act>, persisted: bool)
    requires Execute(cfg, acts).Some?
    requires var m := Execute(cfg, acts).value; m.run.Some? && m.run.value.control.Ending?
    ensures var m' := Step(cfg, Execute(cfg, acts).value, Finish(persisted));
            && m'.Some? && m'.value.run.None?
            && (m'.value.status == WfActive <==>
                  Execute(cfg, acts).value.run.value.control.outcome == EndCancelled || !persisted)
  {
    RowAndClockAlways(cfg, acts);
    FinishSetsRow(cfg, Execute(cfg, acts).value, persisted);
  }

  // ----- Decisions -----

  lemma MoveEvolves(cfg: Config, m: Machine, id: string, act: StepAct)
    requires StepMoves(cfg, m, id, act).Some?
    ensures Evolves(m.decisions, StepMoves(cfg, m, id, act).value.decisions)
  {
    if StepMoves(cfg, m, id, act).value.decisions != m.decisions {
      InsertIsFresh(cfg.steps[id], Lookup(m.decisions, id), m.run.value.over, m.run.value.locals[id], act);
    }
  }

  predicate MayDecide(a: Act) {
    a.ExpireWithFallback? || a.ExpireWithoutFallback? || a.SubStepDecision? || a.SignalAnswer? || a.SignalCancel? ||
    a.StepAction?
  }

  lemma OthersKeepDecisions(cfg: Config, m: Machine, a: Act)
    requires Step(cfg, m, a).Some? && !MayDecide(a)
    ensures Step(cfg, m, a).value.decisions == m.decisions
  {
  }

  lemma StepEvolves(cfg: Config, m: Machine, a: Act)
    requires AllSound(m.decisions) && Step(cfg, m, a).Some?
    ensures Evolves(m.decisions, Step(cfg, m, a).value.decisions)
  {
    match a {
      case ExpireWithFallback(id) => ExpireKeeps(m.decisions, id);
      case ExpireWithoutFallback(id) => ExpireKeeps(m.decisions, id);
      case SubStepDecision(id, ask) => CreateKeeps(m.decisions, id, ask);
      case SignalAnswer(id, agent, choice) => SignalKeeps(m.decisions, id, agent, choice);
      case SignalCancel(id, agent) => SignalKeeps(m.decisions, id, agent, "");
      case StepAction(id, act) => MoveEvolves(cfg, m, id, act);
      case _ => OthersKeepDecisions(cfg, m, a);
    }
  }

  lemma InsertIsFresh(def: StepDef, d: Option<Decision>, over: bool, l: Local, a: StepAct)
    requires Advance(def, d, over, l, a).Some? && Advance(def, d, over, l, a).value.inserted
    ensures d.None?
  {
  }

  lemma LastEvolves(cfg: Config, acts: seq<Act>)
    requires WellLevelled(cfg) && acts != [] && Execute(cfg, acts).Some?
    ensures Execute(cfg, acts[..|acts| - 1]).Some?
    ensures Evolves(Execute(cfg, acts[..|acts| - 1]).value.decisions, Execute(cfg, acts).value.decisions)
  {
    var n := |acts| - 1;
    Reachable(cfg, acts[..n], ModeOf(acts[..n]));
    StepEvolves(cfg, Execute(cfg, acts[..n]).value, acts[n]);
  }

  // A decision row is never dropped or asked anew, and once resolved or
  // cancelled it never changes, over any continuation of any history.
  lemma {:induction false} DecisionsAreFinal(cfg: Config, acts: seq<Act>, more: seq<Act>)
    requires WellLevelled(cfg) && Execute(cfg, acts).Some? && Execute(cfg, acts + more).Some?
    ensures Evolves(Execute(cfg, acts).value.decisions, Execute(cfg, acts + more).value.decisions)
  {
    if more == [] {
      assert acts + more == acts;
    } else {
      var all, sooner := acts + more, acts + more[..|more| - 1];
      assert all[..|all| - 1] == sooner;
      LastEvolves(cfg, all);
      DecisionsAreFinal(cfg, acts, more[..|more| - 1]);
      EvolvesTransitive(Execute(cfg, acts).value.decisions, Execute(cfg, sooner).value.decisions,
                        Execute(cfg, all).value.decisions);
    }
  }

  // Each step is asked at most once, and every stored resolution is sound.
  lemma AskedOnce(cfg: Config, acts: seq<Act>, id: string)
    requires WellLevelled(cfg) && Execute(cfg, acts).Some?
    ensures AllSound(Execute(cfg, acts).value.decisions)
    ensures id in cfg.steps ==> CountKind(Execute(cfg, acts).value.log, id, DecisionRequested) <= 1
  {
    Reachable(cfg, acts, ModeOf(acts));
    if id in cfg.steps {
      assert StepInv(cfg, Execute(cfg, acts).value, id, ModeOf(acts));
    }
  }

  // A reasoning step is completed only on a resolved decision, unless a retry ran
  // the action path in its place or its error was ignored.
  lemma ReasoningNeedsResolution(cfg: Config, acts: seq<Act>, id: string)
    requires WellLevelled(cfg) && Execute(cfg, acts).Some? && id in cfg.steps && cfg.steps[id].kind == Reasoning
    requires ReplayStep(Execute(cfg, acts).value.log, id).status == Completed
    ensures var m := Execute(cfg, acts).value;
            || IsResolved(Lookup(m.decisions, id))
            || CountKind(m.log, id, StepRetrying) > 0
            || cfg.steps[id].onError == Ignore
  {
    var m := Execute(cfg, acts).value;
    Reachable(cfg, acts, ModeOf(acts));
    assert StepInv(cfg, m, id, ModeOf(acts));
    RetryCountIsLogged(m.log, id);
  }
}
