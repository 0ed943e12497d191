// Invariants of every reachable state of the executor, over any sequence of
// one Run, crashes, recoveries, resumes, signals and idle cancellations.
module Safety {
  import opened Wrappers
  import opened Lifecycle
  import opened EventLog
  import opened Decisions
  import opened Execution
  import opened Goroutine

  // What ParseDAG guarantees of the levels it hands to the executor.
  ghost predicate WellLevelled(cfg: Config) {
    && "" !in cfg.steps
    && cfg.deps.Keys == cfg.steps.Keys
    && (forall k, i {:trigger EntryOk(cfg, k, i)} ::
          0 <= k < |cfg.levels| && 0 <= i < |cfg.levels[k]| ==> EntryOk(cfg, k, i))
    && (forall k, i, k', i' {:trigger OnePlace(cfg, k, i, k', i')} ::
          0 <= k < |cfg.levels| && 0 <= i < |cfg.levels[k]| && 0 <= k' < |cfg.levels| && 0 <= i' < |cfg.levels[k']|
          ==> OnePlace(cfg, k, i, k', i'))
    && (forall s {:trigger InSomeLevel(cfg, s, |cfg.levels|)} :: s in cfg.steps ==> InSomeLevel(cfg, s, |cfg.levels|))
  }

  ghost predicate InSomeLevel(cfg: Config, s: string, below: int)
    requires below <= |cfg.levels|
  {
    exists k :: 0 <= k < below && s in cfg.levels[k]
  }

  // A level holds steps, and their dependencies are in earlier levels.
  ghost predicate EntryOk(cfg: Config, k: nat, i: nat)
    requires k < |cfg.levels| && i < |cfg.levels[k]|
  {
    var s := cfg.levels[k][i];
    s in cfg.steps && s in cfg.deps && forall d :: d in cfg.deps[s] ==> InSomeLevel(cfg, d, k)
  }

  // A step has one place in the levels.
  ghost predicate OnePlace(cfg: Config, k: nat, i: nat, k': nat, i': nat)
    requires k < |cfg.levels| && i < |cfg.levels[k]| && k' < |cfg.levels| && i' < |cfg.levels[k']|
  {
    cfg.levels[k][i] == cfg.levels[k'][i'] ==> k == k' && i == i'
  }

  // ----- Per step -----

  // No event of the step reopens it once the log showed it as over.
  ghost predicate NeverReopened(log: seq<Event>, id: string) {
    forall j :: 0 <= j < |log| && log[j].stepId == id && Reopens(log[j].kind)
                ==> !IsTerminal(ReplayStep(log[..j], id).status)
  }

  // While the run is up to the point where it may cascade a cancellation, and
  // not while a resume is failing the workflow.
  predicate Tracking(c: Control) {
    match c
    case Aborting => false
    case Ending(outcome) => outcome != EndCancelled
    case _ => true
  }

  ghost predicate StepInv(cfg: Config, m: Machine, id: string, mode: Mode)
    requires id in cfg.steps
  {
    var r := RecordOf(m, id);
    && NeverReopened(m.log, id)
    && Sound(cfg.steps[id], r)
    && (m.status == WfPending ==> r == Record(FRESH, 0, None))
    && (m.run.Some? && Tracking(m.run.value.control) ==>
          id in m.run.value.locals && id in m.run.value.entry &&
          Tracks(cfg.steps[id], r, FrameOf(m.run.value, id), m.run.value.locals[id], mode))
  }

  function FrameOf(run: Run, id: string): Frame
    requires id in run.entry
  {
    Frame(run.entry[id], id in run.asked, run.over)
  }

  // ----- The level loop -----

  // A step the loop has left behind.
  predicate Settled(run: Run, id: string) {
    && id in run.locals && id !in run.rejected
    && var l := run.locals[id];
       || (l.pc == Idle && IsTerminal(l.live.status))
       || (l.pc == Returned(false) && l.live.status in {Completed, Skipped})
       || l.pc == Panicked
       || (l.pc.IgnoredUnlogged? && l.pc.why != RunOver)
  }

  // A step of the current level the loop has looked at already.
  predicate Seen(run: Run, id: string) {
    id in run.locals && (run.locals[id].pc == Idle ==> IsTerminal(run.locals[id].live.status) || id in run.rejected)
  }

  predicate Untouched(run: Run, id: string) {
    id in run.locals && run.locals[id].pc == Idle && id !in run.rejected
  }

  // The loop stands at level k, index i: earlier levels are settled, earlier
  // steps of the level seen, the rest untouched.
  ghost predicate LoopAt(cfg: Config, run: Run, k: nat, i: nat) {
    && k <= |cfg.levels|
    && (k < |cfg.levels| ==> i <= |cfg.levels[k]|)
    && (forall k', i' {:trigger PositionOk(cfg, run, k, i, k', i')} ::
          0 <= k' < |cfg.levels| && 0 <= i' < |cfg.levels[k']| ==> PositionOk(cfg, run, k, i, k', i'))
  }

  ghost predicate PositionOk(cfg: Config, run: Run, k: nat, i: nat, k': nat, i': nat)
    requires k' < |cfg.levels| && i' < |cfg.levels[k']|
  {
    var id := cfg.levels[k'][i'];
    && (k' < k ==> Settled(run, id))
    && (k' == k && i' < i ==> Seen(run, id))
    && (k' > k || (k' == k && i' >= i) ==> Untouched(run, id))
  }

  // No goroutine is between entry and return.
  ghost predicate Quiet(run: Run) {
    forall id :: id in run.locals ==> AtRest(run.locals[id].pc)
  }

  ghost predicate LoopInv(cfg: Config, run: Run) {
    match run.control
    case Dispatching(k, i) => LoopAt(cfg, run, k, i)
    case Waiting(k) => k < |cfg.levels| && LoopAt(cfg, run, k, |cfg.levels[k]|)
    case Ending(outcome) => Quiet(run) && (outcome == EndCompleted ==> LoopAt(cfg, run, |cfg.levels|, 0))
    case _ => LoopAt(cfg, run, 0, 0)
  }

  ghost predicate Inv(cfg: Config, m: Machine, mode: Mode) {
    && Contiguous(m.log)
    && AllSound(m.decisions)
    && (m.run.Some? ==> m.run.value.locals.Keys == cfg.steps.Keys && m.run.value.entry.Keys == cfg.steps.Keys
                        && LoopInv(cfg, m.run.value) && m.status != WfPending)
    && forall id {:trigger StepInv(cfg, m, id, mode)} :: id in cfg.steps ==> StepInv(cfg, m, id, mode)
  }

  // ----- Appending -----

  lemma AppendIsContiguous(cfg: Config, log: seq<Event>, id: string, kind: EventKind)
    requires Contiguous(log)
    ensures Contiguous(AppendTo(cfg, log, id, kind))
  {
    ContiguousMax(log);
  }

  // An event leaves every other step, and if neutral its own, as it was.
  lemma AppendFrame(cfg: Config, log: seq<Event>, own: string, kind: EventKind, id: string)
    ensures var longer := AppendTo(cfg, log, own, kind);
            && ReplayStep(longer, id) == (if id == own then Apply(ReplayStep(log, id), kind) else ReplayStep(log, id))
            && CountKind(longer, id, DecisionRequested) ==
               CountKind(log, id, DecisionRequested) + (if id == own && kind == DecisionRequested then 1 else 0)
            && (NeverReopened(log, id) && (id == own && Reopens(kind) ==> !IsTerminal(ReplayStep(log, id).status))
                ==> NeverReopened(longer, id))
  {
    var e := Event(cfg.workflowId, own, kind, MaxSequence(log) + 1);
    ReplayAppend(log, e, id);
    CountAppend(log, e, id, DecisionRequested);
    var longer := log + [e];
    if NeverReopened(log, id) && (id == own && Reopens(kind) ==> !IsTerminal(ReplayStep(log, id).status)) {
      forall j | 0 <= j < |longer| && longer[j].stepId == id && Reopens(longer[j].kind)
        ensures !IsTerminal(ReplayStep(longer[..j], id).status)
      {
        assert longer[..j] == log[..j];
        assert log[..|log|] == log;
      }
    }
  }

  // ----- Actions that leave every step's goroutine alone -----

  // The log grows by at most one event of `own`; the run changes at most its control.
  ghost predicate Aside(cfg: Config, m: Machine, m': Machine, own: string, kind: EventKind) {
    && (m'.log == m.log || m'.log == AppendTo(cfg, m.log, own, kind))
    && (m'.status == WfPending ==> m.status == WfPending)
    && Evolves(m.decisions, m'.decisions)
    && (forall id :: id in cfg.steps && id in m'.decisions ==> id in m.decisions)
    && (m'.run.Some? ==> m.run.Some? && m'.run.value.locals == m.run.value.locals
                         && m'.run.value.entry == m.run.value.entry && m'.run.value.asked == m.run.value.asked
                         && (m.run.value.over ==> m'.run.value.over)
                         && (Tracking(m'.run.value.control) ==> Tracking(m.run.value.control)))
  }

  predicate SameButDecision(r: Record, r': Record) {
    && r'.view == r.view && r'.requests == r.requests
    && (r'.decision.Some? <==> r.decision.Some?)
    && (IsResolved(r.decision) ==> IsResolved(r'.decision))
    && (IsOpen(r'.decision) ==> IsOpen(r.decision))
  }

  lemma TracksFrame(def: StepDef, r: Record, r': Record, f: Frame, f': Frame, l: Local, mode: Mode)
    requires SameButDecision(r, r') && Sound(def, r)
    requires f'.entry == f.entry && f'.asked == f.asked && (f.over ==> f'.over)
    ensures Sound(def, r')
    ensures Tracks(def, r, f, l, mode) ==> Tracks(def, r', f', l, mode)
  {
  }

  // A decision changes only as Evolves allows, and is not created here.
  lemma AsideDecision(cfg: Config, m: Machine, m': Machine, own: string, kind: EventKind, id: string)
    requires Aside(cfg, m, m', own, kind) && id in cfg.steps
    ensures Lookup(m'.decisions, id).Some? <==> Lookup(m.decisions, id).Some?
    ensures IsResolved(Lookup(m.decisions, id)) ==> IsResolved(Lookup(m'.decisions, id))
    ensures IsOpen(Lookup(m'.decisions, id)) ==> IsOpen(Lookup(m.decisions, id))
  {
    if id in m.decisions {
      assert EvolvesAt(m.decisions, m'.decisions, id);
    }
  }

  // The step's own settling event: only what survives a crash is at stake.
  lemma SettlingKeepsSound(def: StepDef, r: Record, r': Record, kind: EventKind)
    requires Sound(def, r) && Settles(kind) && kind != StepCompleted
    requires r'.view == Apply(r.view, kind) && SameButDecision(r.(view := r'.view), r')
    ensures Sound(def, r')
  {
  }

  lemma AsideRecord(cfg: Config, m: Machine, m': Machine, own: string, kind: EventKind, id: string)
    requires Aside(cfg, m, m', own, kind) && id in cfg.steps && NeverReopened(m.log, id)
    requires id != own || !Reopens(kind)
    ensures NeverReopened(m'.log, id)
    ensures var view' := ReplayStep(m'.log, id);
            && (m'.log == m.log || id != own || Neutral(kind) ==> SameButDecision(RecordOf(m, id), RecordOf(m', id)))
            && (m'.log != m.log && id == own && kind != DecisionRequested ==>
                  && view' == Apply(RecordOf(m, id).view, kind)
                  && SameButDecision(RecordOf(m, id).(view := view'), RecordOf(m', id)))
  {
    AsideDecision(cfg, m, m', own, kind, id);
    if m'.log != m.log {
      AppendFrame(cfg, m.log, own, kind, id);
    }
  }

  lemma AsideKeepsStep(cfg: Config, m: Machine, m': Machine, own: string, kind: EventKind, id: string, mode: Mode)
    requires Aside(cfg, m, m', own, kind) && id in cfg.steps && StepInv(cfg, m, id, mode)
    requires Neutral(kind) || id != own ||
             (Settles(kind) && kind != StepCompleted && m'.status != WfPending &&
              (m'.run.Some? ==> !Tracking(m'.run.value.control)))
    ensures StepInv(cfg, m', id, mode)
  {
    var def, r, r' := cfg.steps[id], RecordOf(m, id), RecordOf(m', id);
    AsideRecord(cfg, m, m', own, kind, id);
    if m'.log == m.log || id != own || Neutral(kind) {
      if m'.run.Some? && Tracking(m'.run.value.control) {
        TracksFrame(def, r, r', FrameOf(m.run.value, id), FrameOf(m'.run.value, id), m.run.value.locals[id], mode);
      } else {
        var f := Frame(FRESH, false, false);
        TracksFrame(def, r, r', f, f, Local(Idle, FRESH, false), mode);
      }
    } else {
      SettlingKeepsSound(def, r, r', kind);
    }
  }

  lemma AsideKeepsInv(cfg: Config, m: Machine, m': Machine, own: string, kind: EventKind, mode: Mode)
    requires Inv(cfg, m, mode) && Aside(cfg, m, m', own, kind)
    requires Neutral(kind) || own !in cfg.steps ||
             (Settles(kind) && kind != StepCompleted && m'.status != WfPending &&
              (m'.run.Some? ==> !Tracking(m'.run.value.control)))
    requires AllSound(m'.decisions)
    requires m'.run.Some? ==> LoopInv(cfg, m'.run.value) && m'.status != WfPending
    ensures Inv(cfg, m', mode)
  {
    if m'.log != m.log {
      AppendIsContiguous(cfg, m.log, own, kind);
    }
    forall id | id in cfg.steps ensures StepInv(cfg, m', id, mode) {
      assert StepInv(cfg, m, id, mode);
      AsideKeepsStep(cfg, m, m', own, kind, id, mode);
    }
  }

  // ----- The level loop's own moves -----

  lemma SameSteps(cfg: Config, run: Run, run': Run, k: nat, i: nat)
    requires LoopAt(cfg, run, k, i)
    requires run'.locals == run.locals && run'.rejected == run.rejected
    ensures LoopAt(cfg, run', k, i)
  {
    forall k', i' | 0 <= k' < |cfg.levels| && 0 <= i' < |cfg.levels[k']| ensures PositionOk(cfg, run', k, i, k', i') {
      assert PositionOk(cfg, run, k, i, k', i');
    }
  }

  lemma PositionOf(cfg: Config, id: string) returns (k: nat, i: nat)
    requires WellLevelled(cfg) && id in cfg.steps
    ensures k < |cfg.levels| && i < |cfg.levels[k]| && cfg.levels[k][i] == id
  {
    assert InSomeLevel(cfg, id, |cfg.levels|);
    k :| 0 <= k < |cfg.levels| && id in cfg.levels[k];
    i :| 0 <= i < |cfg.levels[k]| && cfg.levels[k][i] == id;
  }

  // Before a level's first dispatch no goroutine is under way.
  lemma LevelStartIsQuiet(cfg: Config, run: Run, k: nat)
    requires WellLevelled(cfg) && run.locals.Keys == cfg.steps.Keys && LoopAt(cfg, run, k, 0)
    ensures Quiet(run)
  {
    forall id | id in run.locals ensures AtRest(run.locals[id].pc) {
      var k', i' := PositionOf(cfg, id);
      assert PositionOk(cfg, run, k, 0, k', i');
    }
  }

  lemma NewRunIsUntouched(cfg: Config, run: Run)
    requires WellLevelled(cfg) && run.locals.Keys == cfg.steps.Keys && run.rejected == {}
    requires forall id :: id in run.locals ==> run.locals[id].pc == Idle
    ensures LoopAt(cfg, run, 0, 0)
  {
    forall k', i' | 0 <= k' < |cfg.levels| && 0 <= i' < |cfg.levels[k']|
      ensures PositionOk(cfg, run, 0, 0, k', i')
    {
      assert EntryOk(cfg, k', i');
    }
  }

  // wg.Wait plus the checks after it: a level is left only with every step settled.
  lemma ConcludedStepIsSettled(def: StepDef, r: Record, run: Run, id: string, mode: Mode)
    requires id in run.locals && id in run.entry && Tracks(def, r, FrameOf(run, id), run.locals[id], mode)
    requires !run.over
    requires Seen(run, id) && AtRest(run.locals[id].pc)
    requires !ReportsFailure(run, id) && run.locals[id].live.status != Suspended
    ensures Settled(run, id)
  {
  }

  // What the checks after wg.Wait establish of each step before the loop moves on.
  predicate Concludable(run: Run, id: string) {
    && id in run.locals && AtRest(run.locals[id].pc)
    && !ReportsFailure(run, id) && run.locals[id].live.status != Suspended
  }

  lemma ConcludedLevelIsSettled(cfg: Config, m: Machine, k: nat, mode: Mode)
    requires WellLevelled(cfg) && Inv(cfg, m, mode) && m.run.Some? && m.run.value.control == Waiting(k)
    requires k < |cfg.levels| && !m.run.value.over && forall id :: id in cfg.levels[k] ==> Concludable(m.run.value, id)
    ensures LoopAt(cfg, m.run.value, k + 1, 0)
  {
    var run, next, len := m.run.value, k + 1, |cfg.levels[k]|;
    forall k', i' | 0 <= k' < |cfg.levels| && 0 <= i' < |cfg.levels[k']|
      ensures PositionOk(cfg, run, next, 0, k', i')
    {
      var id := cfg.levels[k'][i'];
      assert PositionOk(cfg, run, k, len, k', i');
      if k' == k {
        assert EntryOk(cfg, k', i') && StepInv(cfg, m, id, mode);
        assert id in cfg.levels[k];
        ConcludedStepIsSettled(cfg.steps[id], RecordOf(m, id), run, id, mode);
      }
    }
  }

  lemma WaitedLevelIsQuiet(cfg: Config, run: Run, k: nat)
    requires WellLevelled(cfg) && run.locals.Keys == cfg.steps.Keys && k < |cfg.levels|
    requires LoopAt(cfg, run, k, |cfg.levels[k]|)
    requires forall id :: id in cfg.levels[k] ==> id in run.locals && AtRest(run.locals[id].pc)
    ensures Quiet(run)
  {
    forall id | id in run.locals ensures AtRest(run.locals[id].pc) {
      var k', i' := PositionOf(cfg, id);
      assert PositionOk(cfg, run, k, |cfg.levels[k]|, k', i');
    }
  }

  // ----- One lemma per kind of action -----

  lemma FreshTracks(def: StepDef, mode: Mode)
    ensures Tracks(def, Record(FRESH, 0, None), Frame(FRESH, false, false), Local(Idle, FRESH, false), mode)
  {
  }

  lemma StartRecords(cfg: Config, m: Machine, id: string)
    requires Step(cfg, m, StartRun).Some? && id != "" && NeverReopened(m.log, id)
    ensures RecordOf(Step(cfg, m, StartRun).value, id) == RecordOf(m, id)
    ensures NeverReopened(Step(cfg, m, StartRun).value.log, id)
  {
    AppendFrame(cfg, m.log, "", WorkflowStarted, id);
  }

  lemma StartFrames(cfg: Config, m: Machine, id: string)
    requires Step(cfg, m, StartRun).Some? && id in cfg.steps && Lookup(m.decisions, id).None?
    ensures var run := Step(cfg, m, StartRun).value.run.value;
            && id in run.entry && FrameOf(run, id) == Frame(FRESH, false, false)
            && id in run.locals && run.locals[id] == Local(Idle, FRESH, false)
  {
  }

  lemma RunKeepsStep(cfg: Config, m: Machine, id: string, mode: Mode)
    requires Step(cfg, m, StartRun).Some? && id in cfg.steps && id != "" && StepInv(cfg, m, id, mode)
    ensures StepInv(cfg, Step(cfg, m, StartRun).value, id, mode)
  {
    assert RecordOf(m, id) == Record(FRESH, 0, None);
    StartRecords(cfg, m, id);
    StartFrames(cfg, m, id);
    FreshTracks(cfg.steps[id], mode);
  }

  lemma StartRunKeeps(cfg: Config, m: Machine, mode: Mode)
    requires WellLevelled(cfg) && Inv(cfg, m, mode) && Step(cfg, m, StartRun).Some?
    ensures Inv(cfg, Step(cfg, m, StartRun).value, mode)
  {
    var m' := Step(cfg, m, StartRun).value;
    AppendIsContiguous(cfg, m.log, "", WorkflowStarted);
    NewRunIsUntouched(cfg, m'.run.value);
    forall id | id in cfg.steps ensures StepInv(cfg, m', id, mode) {
      assert StepInv(cfg, m, id, mode);
      RunKeepsStep(cfg, m, id, mode);
    }
  }

  lemma ResumeKeepsStep(cfg: Config, m: Machine, id: string, mode: Mode)
    requires Step(cfg, m, StartResume).Some? && id in cfg.steps && StepInv(cfg, m, id, mode)
    ensures StepInv(cfg, Step(cfg, m, StartResume).value, id, mode)
  {
    var m' := Step(cfg, m, StartResume).value;
    assert RecordOf(m', id) == RecordOf(m, id);
    assert m'.run.value.locals[id] == Local(Idle, ReplayStep(m.log, id), false);
  }

  lemma StartResumeKeeps(cfg: Config, m: Machine, mode: Mode)
    requires WellLevelled(cfg) && Inv(cfg, m, mode) && Step(cfg, m, StartResume).Some?
    ensures Inv(cfg, Step(cfg, m, StartResume).value, mode)
  {
    var m' := Step(cfg, m, StartResume).value;
    NewRunIsUntouched(cfg, m'.run.value);
    forall id | id in cfg.steps ensures StepInv(cfg, m', id, mode) {
      assert StepInv(cfg, m, id, mode);
      ResumeKeepsStep(cfg, m, id, mode);
    }
  }

  lemma DispatchKeepsLoop(cfg: Config, run: Run, run': Run, k: nat, i: nat, next: string)
    requires WellLevelled(cfg) && LoopAt(cfg, run, k, i)
    requires k < |cfg.levels| && i < |cfg.levels[k]| && cfg.levels[k][i] == next && next in run.locals
    requires run'.locals.Keys == run.locals.Keys
    requires forall id :: id in run.locals && id != next ==> run'.locals[id] == run.locals[id]
    requires run.rejected <= run'.rejected <= run.rejected + {next}
    requires Seen(run', next)
    ensures LoopAt(cfg, run', k, i + 1)
  {
    var i1 := i + 1;
    forall k', i' | 0 <= k' < |cfg.levels| && 0 <= i' < |cfg.levels[k']|
      ensures PositionOk(cfg, run', k, i1, k', i')
    {
      assert PositionOk(cfg, run, k, i, k', i');
      assert OnePlace(cfg, k', i', k, i);
    }
  }

  lemma DispatchKeepsStep(cfg: Config, m: Machine, accepted: bool, id: string, mode: Mode)
    requires DispatchNext(cfg, m, accepted).Some? && id in cfg.steps && StepInv(cfg, m, id, mode)
    requires NextStep(cfg, m) == Some(id) ==> m.run.value.locals[id].pc == Idle
    ensures StepInv(cfg, DispatchNext(cfg, m, accepted).value, id, mode)
  {
    var m' := DispatchNext(cfg, m, accepted).value;
    assert RecordOf(m', id) == RecordOf(m, id);
  }

  lemma DispatchKeepsControl(cfg: Config, m: Machine, accepted: bool, mode: Mode)
    requires WellLevelled(cfg) && Inv(cfg, m, mode) && DispatchNext(cfg, m, accepted).Some?
    ensures LoopInv(cfg, DispatchNext(cfg, m, accepted).value.run.value)
    ensures m.run.value.locals[NextStep(cfg, m).value].pc == Idle
  {
    var m' := DispatchNext(cfg, m, accepted).value;
    var k, i := m.run.value.control.level, m.run.value.control.index;
    assert PositionOk(cfg, m.run.value, k, i, k, i);
    DispatchKeepsLoop(cfg, m.run.value, m'.run.value, k, i, cfg.levels[k][i]);
  }

  // A move of the run alone.
  lemma RunMoveKeeps(cfg: Config, m: Machine, m': Machine, mode: Mode)
    requires Inv(cfg, m, mode) && m'.run.Some?
    requires m'.log == m.log && m'.decisions == m.decisions && m'.status == m.status
    requires m.run.Some? && m'.run.value.locals.Keys == m.run.value.locals.Keys
    requires m'.run.value.entry == m.run.value.entry && LoopInv(cfg, m'.run.value)
    requires forall id {:trigger StepInv(cfg, m', id, mode)} :: id in cfg.steps ==> StepInv(cfg, m', id, mode)
    ensures Inv(cfg, m', mode)
  {
  }

  lemma DispatchMovesRun(cfg: Config, m: Machine, accepted: bool)
    requires DispatchNext(cfg, m, accepted).Some?
    ensures var m' := DispatchNext(cfg, m, accepted).value;
            && m.run.Some? && m'.run.Some? && m'.log == m.log && m'.decisions == m.decisions && m'.status == m.status
            && m'.run.value.locals.Keys == m.run.value.locals.Keys && m'.run.value.entry == m.run.value.entry
  {
  }

  lemma DispatchKeeps(cfg: Config, m: Machine, accepted: bool, mode: Mode)
    requires WellLevelled(cfg) && Inv(cfg, m, mode) && DispatchNext(cfg, m, accepted).Some?
    ensures Inv(cfg, DispatchNext(cfg, m, accepted).value, mode)
  {
    var m' := DispatchNext(cfg, m, accepted).value;
    DispatchMovesRun(cfg, m, accepted);
    DispatchKeepsControl(cfg, m, accepted, mode);
    forall id | id in cfg.steps ensures StepInv(cfg, m', id, mode) {
      assert StepInv(cfg, m, id, mode);
      DispatchKeepsStep(cfg, m, accepted, id, mode);
    }
    RunMoveKeeps(cfg, m, m', mode);
  }

  // A goroutine that can move belongs to the level the loop is at.
  lemma GoroutineIsTracked(cfg: Config, m: Machine, id: string, mode: Mode)
    requires WellLevelled(cfg) && Inv(cfg, m, mode) && m.run.Some?
    requires id in cfg.steps && !AtRest(m.run.value.locals[id].pc)
    ensures m.run.value.control.Dispatching? || m.run.value.control.Waiting?
  {
    if !m.run.value.control.Dispatching? && !m.run.value.control.Waiting? && !m.run.value.control.Ending? {
      LevelStartIsQuiet(cfg, m.run.value, 0);
    }
  }

  lemma MoveKeepsLoop(cfg: Config, run: Run, run': Run, k: nat, i: nat, id: string)
    requires LoopAt(cfg, run, k, i) && id in run.locals && !AtRest(run.locals[id].pc)
    requires id in run'.locals && run'.locals == run.locals[id := run'.locals[id]] && run'.rejected == run.rejected
    requires run'.locals[id].pc != Idle
    ensures LoopAt(cfg, run', k, i)
  {
    forall k', i' | 0 <= k' < |cfg.levels| && 0 <= i' < |cfg.levels[k']|
      ensures PositionOk(cfg, run', k, i, k', i')
    {
      assert PositionOk(cfg, run, k, i, k', i');
    }
  }

  // The goroutine that moves.
  lemma MoverRecord(cfg: Config, m: Machine, id: string, act: StepAct)
    requires StepMoves(cfg, m, id, act).Some?
    ensures var r := RecordOf(m, id);
            var e := Advance(cfg.steps[id], r.decision, m.run.value.over, m.run.value.locals[id], act).value;
            && RecordOf(StepMoves(cfg, m, id, act).value, id) == After(r, e, cfg.steps[id].ask)
            && (NeverReopened(m.log, id) && (e.event.Some? && Reopens(e.event.value) ==> !IsTerminal(r.view.status))
                ==> NeverReopened(StepMoves(cfg, m, id, act).value.log, id))
  {
    var e := Advance(cfg.steps[id], Lookup(m.decisions, id), m.run.value.over, m.run.value.locals[id], act).value;
    if e.event.Some? {
      AppendFrame(cfg, m.log, id, e.event.value, id);
    }
  }

  lemma MoverKeepsStep(cfg: Config, m: Machine, id: string, act: StepAct, mode: Mode)
    requires StepMoves(cfg, m, id, act).Some? && Tracking(m.run.value.control)
    requires m.status != WfPending && (Fits(mode, act))
    requires StepInv(cfg, m, id, mode)
    ensures StepInv(cfg, StepMoves(cfg, m, id, act).value, id, mode)
  {
    var run, r := m.run.value, RecordOf(m, id);
    var e := Advance(cfg.steps[id], r.decision, run.over, run.locals[id], act).value;
    AdvanceKeeps(cfg.steps[id], r, FrameOf(run, id), run.locals[id], act, e, mode);
    MoverRecord(cfg, m, id, act);
  }

  // The others stay.
  lemma StepActionKeepsStep(cfg: Config, m: Machine, id: string, act: StepAct, other: string, mode: Mode)
    requires StepMoves(cfg, m, id, act).Some? && other in cfg.steps && Tracking(m.run.value.control) && other != id
    requires m.status != WfPending && StepInv(cfg, m, other, mode)
    ensures StepInv(cfg, StepMoves(cfg, m, id, act).value, other, mode)
  {
    var m' := StepMoves(cfg, m, id, act).value;
    var e := Advance(cfg.steps[id], Lookup(m.decisions, id), m.run.value.over, m.run.value.locals[id], act).value;
    if e.event.Some? {
      AppendFrame(cfg, m.log, id, e.event.value, other);
    }
    assert RecordOf(m', other) == RecordOf(m, other);
  }

  lemma MovedRun(cfg: Config, m: Machine, id: string, act: StepAct, mode: Mode)
    requires StepMoves(cfg, m, id, act).Some? && StepInv(cfg, m, id, mode) && Tracking(m.run.value.control)
    requires Contiguous(m.log) && AllSound(m.decisions) && (Fits(mode, act))
    ensures var m' := StepMoves(cfg, m, id, act).value;
            && Contiguous(m'.log) && AllSound(m'.decisions) && m'.status == m.status
            && m'.run.Some? && id in m'.run.value.locals && m'.run.value.locals[id].pc != Idle
            && m'.run == Some(m.run.value.(locals := m.run.value.locals[id := m'.run.value.locals[id]]))
  {
    var run, r := m.run.value, RecordOf(m, id);
    var e := Advance(cfg.steps[id], r.decision, run.over, run.locals[id], act).value;
    AdvanceKeeps(cfg.steps[id], r, FrameOf(run, id), run.locals[id], act, e, mode);
    if e.event.Some? {
      AppendIsContiguous(cfg, m.log, id, e.event.value);
    }
  }

  lemma OnlyGoroutinesMove(def: StepDef, decision: Option<Decision>, over: bool, l: Local, a: StepAct)
    requires Advance(def, decision, over, l, a).Some?
    ensures !AtRest(l.pc)
  {
  }

  lemma StepActionKeeps(cfg: Config, m: Machine, id: string, act: StepAct, mode: Mode)
    requires WellLevelled(cfg) && Inv(cfg, m, mode) && StepMoves(cfg, m, id, act).Some?
    requires Fits(mode, act)
    ensures Inv(cfg, StepMoves(cfg, m, id, act).value, mode)
  {
    var m' := StepMoves(cfg, m, id, act).value;
    var run := m.run.value;
    assert StepInv(cfg, m, id, mode);
    OnlyGoroutinesMove(cfg.steps[id], Lookup(m.decisions, id), run.over, run.locals[id], act);
    GoroutineIsTracked(cfg, m, id, mode);
    MovedRun(cfg, m, id, act, mode);
    var k := run.control.level;
    var i := if run.control.Dispatching? then run.control.index else |cfg.levels[k]|;
    MoveKeepsLoop(cfg, run, m'.run.value, k, i, id);
    forall other | other in cfg.steps ensures StepInv(cfg, m', other, mode) {
      assert StepInv(cfg, m, other, mode);
      if other == id {
        MoverKeepsStep(cfg, m, id, act, mode);
      } else {
        StepActionKeepsStep(cfg, m, id, act, other, mode);
      }
    }
  }

  // A control move that leaves log, decisions and steps alone.
  lemma ControlKeeps(cfg: Config, m: Machine, c: Control, mode: Mode)
    requires WellLevelled(cfg) && Inv(cfg, m, mode) && m.run.Some?
    requires LoopInv(cfg, m.run.value.(control := c))
    requires Tracking(c) ==> Tracking(m.run.value.control)
    ensures Inv(cfg, WithControl(m, c).value, mode)
  {
    AsideKeepsInv(cfg, m, WithControl(m, c).value, "", WorkflowStarted, mode);
  }

  lemma ConcludeMoves(cfg: Config, m: Machine)
    requires m.run.Some? && m.run.value.control.Waiting? && ConcludeLevel(cfg, m).Some?
    ensures var run := m.run.value;
            var k := run.control.level;
            && k < |cfg.levels| && ConcludeLevel(cfg, m).value.run.Some?
            && var c := ConcludeLevel(cfg, m).value.run.value.control;
               && ConcludeLevel(cfg, m) == WithControl(m, c)
               && (c.Dispatching? ==> c == Dispatching(k + 1, 0) && !run.over
                                      && forall id :: id in cfg.levels[k] ==> Concludable(run, id))
               && (!c.Dispatching? ==> c.Ending? && c.outcome != EndCompleted)
               && forall id :: id in cfg.levels[k] ==> id in run.locals && AtRest(run.locals[id].pc)
  {
  }

  lemma ConcludeKeeps(cfg: Config, m: Machine, mode: Mode)
    requires WellLevelled(cfg) && Inv(cfg, m, mode) && m.run.Some? && m.run.value.control.Waiting?
    requires ConcludeLevel(cfg, m).Some?
    ensures Inv(cfg, ConcludeLevel(cfg, m).value, mode)
  {
    var run := m.run.value;
    var k := run.control.level;
    var c := ConcludeLevel(cfg, m).value.run.value.control;
    ConcludeMoves(cfg, m);
    if c.Dispatching? {
      ConcludedLevelIsSettled(cfg, m, k, mode);
      SameSteps(cfg, run, run.(control := c), k + 1, 0);
    } else {
      WaitedLevelIsQuiet(cfg, run, k);
    }
    ControlKeeps(cfg, m, c, mode);
  }

  lemma ContextEndsKeeps(cfg: Config, m: Machine, cause: EndCause, mode: Mode)
    requires WellLevelled(cfg) && Inv(cfg, m, mode) && Step(cfg, m, ContextEnds(cause)).Some?
    ensures Inv(cfg, Step(cfg, m, ContextEnds(cause)).value, mode)
  {
    var m' := Step(cfg, m, ContextEnds(cause)).value;
    var run := m.run.value;
    SameSteps(cfg, run, m'.run.value, run.control.level,
              if run.control.Dispatching? then run.control.index else |cfg.levels[run.control.level]|);
    AsideKeepsInv(cfg, m, m', "", WorkflowStarted, mode);
  }

  lemma EndOfLevelKeeps(cfg: Config, m: Machine, mode: Mode)
    requires WellLevelled(cfg) && Inv(cfg, m, mode) && Step(cfg, m, EndOfLevel).Some?
    ensures Inv(cfg, Step(cfg, m, EndOfLevel).value, mode)
  {
    var run := m.run.value;
    var c := Waiting(run.control.level);
    SameSteps(cfg, run, run.(control := c), run.control.level, run.control.index);
    ControlKeeps(cfg, m, c, mode);
  }

  lemma LoopEndKeeps(cfg: Config, m: Machine, a: Act, mode: Mode)
    requires WellLevelled(cfg) && Inv(cfg, m, mode) && Step(cfg, m, a).Some?
    requires a.ContextDone? || a.LoopDone?
    ensures Inv(cfg, Step(cfg, m, a).value, mode)
  {
    var run := m.run.value;
    var c := Ending(if a.ContextDone? then EndOfContext(cfg, run) else EndCompleted);
    SameSteps(cfg, run, run.(control := c), run.control.level, 0);
    LevelStartIsQuiet(cfg, run.(control := c), run.control.level);
    ControlKeeps(cfg, m, c, mode);
  }

  // The preamble of a resume: the run is untouched, decisions may close.
  lemma PreambleMoveKeeps(cfg: Config, m: Machine, m': Machine, own: string, kind: EventKind, mode: Mode)
    requires WellLevelled(cfg) && Inv(cfg, m, mode) && m.run.Some? && LoopAt(cfg, m.run.value, 0, 0)
    requires Aside(cfg, m, m', own, kind) && AllSound(m'.decisions)
    requires Neutral(kind) || (kind == StepFailed && m'.run.Some? && m'.run.value.control == Aborting)
    requires m'.run.Some? ==> m'.run.value.rejected == m.run.value.rejected && m'.status != WfPending &&
                              !m'.run.value.control.Waiting? && !m'.run.value.control.Ending? &&
                              (m'.run.value.control.Dispatching? ==> m'.run.value.control == Dispatching(0, 0))
    ensures Inv(cfg, m', mode)
  {
    if m'.run.Some? {
      SameSteps(cfg, m.run.value, m'.run.value, 0, 0);
    }
    AsideKeepsInv(cfg, m, m', own, kind, mode);
  }

  lemma ExpiryKeeps(cfg: Config, m: Machine, a: Act, mode: Mode)
    requires WellLevelled(cfg) && Inv(cfg, m, mode) && Step(cfg, m, a).Some?
    requires a.ExpireWithFallback? || a.ExpireWithoutFallback?
    ensures Inv(cfg, Step(cfg, m, a).value, mode)
  {
    ExpireKeeps(m.decisions, a.stepId);
    PreambleMoveKeeps(cfg, m, Step(cfg, m, a).value, "", WorkflowStarted, mode);
  }

  lemma PreambleKeeps(cfg: Config, m: Machine, a: Act, mode: Mode)
    requires WellLevelled(cfg) && Inv(cfg, m, mode) && Step(cfg, m, a).Some?
    requires a.ListExpired? || a.LogExpiry? || a.AbortResume? || a.AbandonResume?
    ensures Inv(cfg, Step(cfg, m, a).value, mode)
  {
    var m' := Step(cfg, m, a).value;
    if a.LogExpiry? {
      PreambleMoveKeeps(cfg, m, m', m.run.value.control.stepId, StepFailed, mode);
    } else {
      PreambleMoveKeeps(cfg, m, m', "", WorkflowStarted, mode);
    }
  }

  lemma ProceedKeeps(cfg: Config, m: Machine, mode: Mode)
    requires WellLevelled(cfg) && Inv(cfg, m, mode) && Step(cfg, m, Proceed).Some?
    ensures Inv(cfg, Step(cfg, m, Proceed).value, mode)
  {
    PreambleMoveKeeps(cfg, m, Step(cfg, m, Proceed).value, "", WorkflowStarted, mode);
  }

  // What happens around a run: the loop does not notice.
  lemma OutsideMoveKeeps(cfg: Config, m: Machine, m': Machine, own: string, kind: EventKind, mode: Mode)
    requires WellLevelled(cfg) && Inv(cfg, m, mode)
    requires Aside(cfg, m, m', own, kind) && AllSound(m'.decisions) && m'.run in {None, m.run}
    requires Neutral(kind) || own !in cfg.steps ||
             (kind == StepSkipped && m'.status != WfPending && (m'.run.Some? ==> !Tracking(m'.run.value.control)))
    requires m'.run.Some? ==> m'.status == m.status
    ensures Inv(cfg, m', mode)
  {
    AsideKeepsInv(cfg, m, m', own, kind, mode);
  }

  lemma SkipEventKeeps(cfg: Config, m: Machine, a: Act, mode: Mode)
    requires WellLevelled(cfg) && Inv(cfg, m, mode) && Step(cfg, m, a).Some? && (a.CascadeSkip? || a.CancelSkip?)
    ensures Inv(cfg, Step(cfg, m, a).value, mode)
  {
    OutsideMoveKeeps(cfg, m, Step(cfg, m, a).value, a.stepId, StepSkipped, mode);
  }

  lemma OtherEventKeeps(cfg: Config, m: Machine, a: Act, mode: Mode)
    requires WellLevelled(cfg) && Inv(cfg, m, mode) && Step(cfg, m, a).Some? && (a.AppendNote? || a.SubStepEvent?)
    ensures Inv(cfg, Step(cfg, m, a).value, mode)
  {
    OutsideMoveKeeps(cfg, m, Step(cfg, m, a).value, a.stepId, a.kind, mode);
  }

  lemma TimeKeeps(cfg: Config, m: Machine, mode: Mode)
    requires WellLevelled(cfg) && Inv(cfg, m, mode) && Step(cfg, m, TimeoutElapses).Some?
    ensures Inv(cfg, Step(cfg, m, TimeoutElapses).value, mode)
  {
    OutsideMoveKeeps(cfg, m, Step(cfg, m, TimeoutElapses).value, "", WorkflowStarted, mode);
  }

  lemma SubStepDecisionKeeps(cfg: Config, m: Machine, a: Act, mode: Mode)
    requires WellLevelled(cfg) && Inv(cfg, m, mode) && Step(cfg, m, a).Some? && a.SubStepDecision?
    ensures Inv(cfg, Step(cfg, m, a).value, mode)
  {
    CreateKeeps(m.decisions, a.stepId, a.ask);
    OutsideMoveKeeps(cfg, m, Step(cfg, m, a).value, "", WorkflowStarted, mode);
  }

  lemma SignalsKeep(cfg: Config, m: Machine, a: Act, mode: Mode)
    requires WellLevelled(cfg) && Inv(cfg, m, mode) && Step(cfg, m, a).Some? && (a.SignalAnswer? || a.SignalCancel?)
    ensures Inv(cfg, Step(cfg, m, a).value, mode)
  {
    SignalKeeps(m.decisions, a.stepId, a.agent, if a.SignalAnswer? then a.choice else "");
    OutsideMoveKeeps(cfg, m, Step(cfg, m, a).value, "", WorkflowStarted, mode);
  }

  lemma StoppedKeeps(cfg: Config, m: Machine, a: Act, mode: Mode)
    requires WellLevelled(cfg) && Inv(cfg, m, mode) && Step(cfg, m, a).Some?
    requires a.Crash? || a.Recover? || a.Finish? || a.CancelWorkflow?
    ensures Inv(cfg, Step(cfg, m, a).value, mode)
  {
    var kind := if a.Recover? then Note("workflow_interrupted") else WorkflowCancelled;
    OutsideMoveKeeps(cfg, m, Step(cfg, m, a).value, "", kind, mode);
  }

  ghost predicate ActFits(mode: Mode, a: Act) {
    a.StepAction? ==> Fits(mode, a.act)
  }

  // The actions of Run, Resume and the level loop.
  predicate IsLoopAct(a: Act) {
    || a.StartRun? || a.StartResume? || a.Dispatch? || a.StepAction? || a.ContextEnds? || a.Conclude?
    || a.EndOfLevel? || a.ContextDone? || a.LoopDone?
  }

  lemma LoopActKeeps(cfg: Config, m: Machine, a: Act, mode: Mode)
    requires WellLevelled(cfg) && Inv(cfg, m, mode) && Step(cfg, m, a).Some?
    requires ActFits(mode, a) && IsLoopAct(a)
    ensures Inv(cfg, Step(cfg, m, a).value, mode)
  {
    match a {
      case StartRun => StartRunKeeps(cfg, m, mode);
      case StartResume => StartResumeKeeps(cfg, m, mode);
      case Dispatch(accepted) => DispatchKeeps(cfg, m, accepted, mode);
      case StepAction(id, act) => StepActionKeeps(cfg, m, id, act, mode);
      case Conclude => ConcludeKeeps(cfg, m, mode);
      case ContextEnds(cause) => ContextEndsKeeps(cfg, m, cause, mode);
      case EndOfLevel => EndOfLevelKeeps(cfg, m, mode);
      case _ => LoopEndKeeps(cfg, m, a, mode);
    }
  }

  lemma StepKeeps(cfg: Config, m: Machine, a: Act, mode: Mode)
    requires WellLevelled(cfg) && Inv(cfg, m, mode) && Step(cfg, m, a).Some? && ActFits(mode, a)
    ensures Inv(cfg, Step(cfg, m, a).value, mode)
  {
    if IsLoopAct(a) {
      LoopActKeeps(cfg, m, a, mode);
    } else if a.ExpireWithFallback? || a.ExpireWithoutFallback? {
      ExpiryKeeps(cfg, m, a, mode);
    } else if a.ListExpired? || a.LogExpiry? || a.AbortResume? || a.AbandonResume? {
      PreambleKeeps(cfg, m, a, mode);
    } else if a.Proceed? {
      ProceedKeeps(cfg, m, mode);
    } else if a.CascadeSkip? || a.CancelSkip? {
      SkipEventKeeps(cfg, m, a, mode);
    } else if a.AppendNote? || a.SubStepEvent? {
      OtherEventKeeps(cfg, m, a, mode);
    } else if a.TimeoutElapses? {
      TimeKeeps(cfg, m, mode);
    } else if a.SubStepDecision? {
      SubStepDecisionKeeps(cfg, m, a, mode);
    } else if a.SignalAnswer? || a.SignalCancel? {
      SignalsKeep(cfg, m, a, mode);
    } else {
      StoppedKeeps(cfg, m, a, mode);
    }
  }

  lemma InitHolds(cfg: Config, mode: Mode)
    ensures Inv(cfg, Init(), mode)
  {
    forall id | id in cfg.steps ensures StepInv(cfg, Init(), id, mode) {
      assert RecordOf(Init(), id) == Record(FRESH, 0, None);
    }
  }

  // Every append of a step commits.
  ghost predicate AllCommit(acts: seq<Act>) {
    forall i :: 0 <= i < |acts| ==> ActFits(Mode(true, false), acts[i])
  }

  // The store refuses no append of a step: those that fail do so on a context
  // that is over.
  ghost predicate Reliable(acts: seq<Act>) {
    forall i :: 0 <= i < |acts| ==> ActFits(Mode(false, true), acts[i])
  }

  ghost predicate ActsFit(mode: Mode, acts: seq<Act>) {
    (mode.lossless ==> AllCommit(acts)) && (mode.reliable ==> Reliable(acts))
  }

  // The invariant holds after every history.
  lemma {:induction false} Reachable(cfg: Config, acts: seq<Act>, mode: Mode)
    requires WellLevelled(cfg) && Execute(cfg, acts).Some? && ActsFit(mode, acts)
    ensures Inv(cfg, Execute(cfg, acts).value, mode)
  {
    if acts == [] {
      InitHolds(cfg, mode);
    } else {
      var n := |acts| - 1;
      Reachable(cfg, acts[..n], mode);
      assert ActFits(mode, acts[n]);
      StepKeeps(cfg, Execute(cfg, acts[..n]).value, acts[n], mode);
    }
  }
}
