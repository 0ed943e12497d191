// The event table: per-workflow sequence numbers on append, the contiguity
// check and the fold that rebuilds step states on resume.
module EventLog {
  import opened Wrappers
  import opened Lifecycle

  // A row; workflow-level events have the empty step id.
  datatype Event = Event(workflowId: string, stepId: string, kind: EventKind, sequence: int)

  datatype StoreError = AppendFailed | SequenceGap | InvalidTransition | HookRefused

  // The rows of one workflow, oldest first.
  function Rows(table: seq<Event>, workflowId: string): seq<Event> {
    if table == [] then []
    else
      var last := |table| - 1;
      Rows(table[..last], workflowId) + if table[last].workflowId == workflowId then [table[last]] else []
  }

  // COALESCE(MAX(sequence), 0) over the workflow's rows.
  function MaxSequence(rows: seq<Event>): int {
    if rows == [] then 0
    else
      var m := MaxSequence(rows[..|rows| - 1]);
      var s := rows[|rows| - 1].sequence;
      if |rows| == 1 || s > m then s else m
  }

  predicate Contiguous(rows: seq<Event>) {
    forall i :: 0 <= i < |rows| ==> rows[i].sequence == i + 1
  }

  lemma {:induction false} ContiguousMax(rows: seq<Event>)
    requires Contiguous(rows)
    ensures MaxSequence(rows) == |rows|
  {
    if rows != [] {
      ContiguousMax(rows[..|rows| - 1]);
    }
  }

  // ----- Replay, one step at a time -----

  // What the log says about one step: the fold of its own events.
  function ReplayStep(rows: seq<Event>, stepId: string): StepView {
    if rows == [] then FRESH
    else
      var v := ReplayStep(rows[..|rows| - 1], stepId);
      var e := rows[|rows| - 1];
      if e.stepId == stepId then Apply(v, e.kind) else v
  }

  // An event moves its own step and no other.
  lemma ReplayAppend(rows: seq<Event>, e: Event, stepId: string)
    ensures ReplayStep(rows + [e], stepId)
         == if e.stepId == stepId then Apply(ReplayStep(rows, stepId), e.kind) else ReplayStep(rows, stepId)
  {
    assert (rows + [e])[..|rows|] == rows;
  }

  function CountKind(rows: seq<Event>, stepId: string, kind: EventKind): nat {
    if rows == [] then 0
    else
      var e := rows[|rows| - 1];
      CountKind(rows[..|rows| - 1], stepId, kind) + if e.stepId == stepId && e.kind == kind then 1 else 0
  }

  lemma CountAppend(rows: seq<Event>, e: Event, stepId: string, kind: EventKind)
    ensures CountKind(rows + [e], stepId, kind)
         == CountKind(rows, stepId, kind) + if e.stepId == stepId && e.kind == kind then 1 else 0
  {
    assert (rows + [e])[..|rows|] == rows;
  }

  // The retry count that replay restores is the number of retries ever logged.
  lemma {:induction false} RetryCountIsLogged(rows: seq<Event>, stepId: string)
    ensures ReplayStep(rows, stepId).retryCount == CountKind(rows, stepId, StepRetrying)
  {
    if rows != [] {
      RetryCountIsLogged(rows[..|rows| - 1], stepId);
    }
  }

  ghost predicate Mentions(rows: seq<Event>, stepId: string) {
    exists i :: 0 <= i < |rows| && rows[i].stepId == stepId
  }

  // The states ReplayEvents must return: an entry for each step mentioned.
  ghost predicate IsReplay(rows: seq<Event>, states: map<string, StepView>) {
    && (forall id :: id in states <==> id != "" && Mentions(rows, id))
    && forall id :: id in states ==> states[id] == ReplayStep(rows, id)
  }

  // What a resume would restore, for every step of every workflow.
  ghost predicate SameReplay(before: seq<Event>, after: seq<Event>) {
    forall w, id {:trigger Restores(before, after, w, id)} :: Restores(before, after, w, id)
  }

  ghost predicate Restores(before: seq<Event>, after: seq<Event>, w: string, id: string) {
    ReplayStep(Rows(after, w), id) == ReplayStep(Rows(before, w), id)
  }

  lemma NothingChanges(table: seq<Event>)
    ensures SameReplay(table, table)
  {
    forall w, id ensures Restores(table, table, w, id) {}
  }

  lemma SameReplayTransitive(a: seq<Event>, b: seq<Event>, c: seq<Event>)
    requires SameReplay(a, b) && SameReplay(b, c)
    ensures SameReplay(a, c)
  {
    forall w, id ensures Restores(a, c, w, id) {
      assert Restores(a, b, w, id) && Restores(b, c, w, id);
    }
  }

  class EventTable {
    var table: seq<Event>

    ghost predicate Valid()
      reads this
    {
      forall w {:trigger Rows(table, w)} :: Contiguous(Rows(table, w))
    }

    constructor ()
      ensures Valid() && table == []
    {
      table := [];
    }

    // One transaction: the next sequence number of the workflow and the insert.
    // `commits` is whether the transaction goes through, which an expired
    // context prevents.
    method AppendEvent(workflowId: string, stepId: string, kind: EventKind, commits: bool)
      returns (r: Result<int, StoreError>)
      requires Valid()
      modifies this
      ensures Valid()
      ensures r.Ok? <==> commits
      ensures !commits ==> table == old(table)
      ensures commits ==> r.value == |Rows(old(table), workflowId)| + 1 &&
                          table == old(table) + [Event(workflowId, stepId, kind, r.value)]
      ensures forall w :: Rows(table, w) ==
                Rows(old(table), w) + if commits && w == workflowId then [table[|table| - 1]] else []
    {
      if !commits {
        return Err(AppendFailed);
      }
      ghost var before := table;
      ContiguousMax(Rows(table, workflowId));
      var sequence := MaxSequence(Rows(table, workflowId)) + 1;
      var e := Event(workflowId, stepId, kind, sequence);
      table := table + [e];
      assert table[..|before|] == before;
      r := Ok(sequence);
    }

    // An event replay has no case for, appended at best effort.
    method AppendNote(workflowId: string, stepId: string, name: string, commits: bool)
      requires Valid()
      modifies this
      ensures Valid() && SameReplay(old(table), table)
      ensures table == old(table) +
              if commits then [Event(workflowId, stepId, Note(name), |Rows(old(table), workflowId)| + 1)] else []
    {
      var _ := AppendEvent(workflowId, stepId, Note(name), commits);
      forall w, id ensures Restores(old(table), table, w, id) {
        var rows := Rows(old(table), w);
        if commits && w == workflowId {
          ReplayAppend(rows, table[|table| - 1], id);
        } else {
          assert rows + [] == rows;
        }
      }
      assert old(table) + [] == old(table);
    }

    // Replay never trips over a gap in a table built by AppendEvent, and folds
    // each step's events in order.
    method ReplayEvents(workflowId: string) returns (r: Result<map<string, StepView>, StoreError>)
      ensures r.Ok? <==> Contiguous(Rows(table, workflowId))
      ensures Valid() ==> r.Ok?
      ensures r.Ok? ==> IsReplay(Rows(table, workflowId), r.value)
      ensures r.Err? ==> r.error == SequenceGap
    {
      var events := Rows(table, workflowId);
      for i := 0 to |events|
        invariant forall j :: 0 <= j < i ==> events[j].sequence == j + 1
      {
        if events[i].sequence != i + 1 {
          return Err(SequenceGap);
        }
      }
      var states: map<string, StepView> := map[];
      for i := 0 to |events|
        invariant IsReplay(events[..i], states)
      {
        var e := events[i];
        ghost var before := states;
        assert events[..i + 1] == events[..i] + [e];
        if e.stepId != "" {
          if e.stepId !in states {
            states := states[e.stepId := FRESH];
          }
          states := states[e.stepId := Apply(states[e.stepId], e.kind)];
        }
        IsReplayStep(events[..i], e, before, states);
      }
      assert events[..|events|] == events;
      return Ok(states);
    }

    // StepFSM.Transition: the table is consulted, then the before hooks, the event
    // goes out, then the after hooks; any of them may refuse, the last when the
    // event is out already. The caller's `from` is trusted.
    method StepTransition(workflowId: string, stepId: string, from: StepStatus, to: StepStatus,
                          beforeOk: bool, commits: bool, afterOk: bool)
      returns (r: Result<int, StoreError>)
      requires Valid()
      modifies this
      ensures Valid()
      ensures r.Ok? <==> IsValidStepTransition(from, to) && beforeOk && (to == Scheduled || commits) && afterOk
      ensures var logged := IsValidStepTransition(from, to) && beforeOk && to != Scheduled && commits;
              && (!logged ==> table == old(table))
              && forall w :: Rows(table, w) ==
                   Rows(old(table), w) +
                   if logged && w == workflowId
                   then [Event(workflowId, stepId, StepEventKind(to).value, |Rows(old(table), workflowId)| + 1)]
                   else []
    {
      if !IsValidStepTransition(from, to) {
        return Err(InvalidTransition);
      }
      if !beforeOk {
        return Err(HookRefused);
      }
      r := Ok(0);
      var kind := StepEventKind(to);
      if kind.Some? {
        r := AppendEvent(workflowId, stepId, kind.value, commits);
        if r.Err? {
          return;
        }
      }
      if !afterOk {
        r := Err(HookRefused);
      }
    }

    // CancelWorkflow: announces the cancellation, then skips every step whose
    // status has a transition to skipped, until an append fails. `announces` and
    // `refused` say which appends do not commit. Map order is Go's, so any order.
    method CancelWorkflow(workflowId: string, current: WorkflowStatus, stepStates: map<string, StepStatus>,
                          announces: bool, refused: set<string>)
      returns (r: Result<int, StoreError>)
      requires Valid() && "" !in stepStates
      modifies this
      ensures Valid()
      ensures r.Ok? <==> IsValidWorkflowTransition(current, WfCancelled) && announces &&
                         forall id :: id in stepStates && CanSkip(stepStates[id]) ==> id !in refused
      ensures r.Err? && !(IsValidWorkflowTransition(current, WfCancelled) && announces) ==> table == old(table)
      ensures r.Ok? ==> SkippedExcept(Rows(old(table), workflowId), Rows(table, workflowId), stepStates, {})
      ensures r.Err? ==> exists todo ::
                SkippedExcept(Rows(old(table), workflowId), Rows(table, workflowId), stepStates, todo)
      ensures forall w :: w != workflowId ==> Rows(table, w) == Rows(old(table), w)
    {
      ghost var before := Rows(table, workflowId);
      assert SkippedExcept(before, before, stepStates, stepStates.Keys);
      if !IsValidWorkflowTransition(current, WfCancelled) {
        return Err(InvalidTransition);
      }
      var announced := AppendEvent(workflowId, "", WorkflowCancelled, announces);
      if announced.Err? {
        return announced;
      }
      var todo := stepStates.Keys;
      AnnouncementSkipsNothing(before, table[|table| - 1], stepStates);
      while todo != {}
        invariant Valid() && todo <= stepStates.Keys
        invariant forall id :: id in stepStates && id !in todo && CanSkip(stepStates[id]) ==> id !in refused
        invariant SkippedExcept(before, Rows(table, workflowId), stepStates, todo)
        invariant forall w :: w != workflowId ==> Rows(table, w) == Rows(old(table), w)
      {
        var id :| id in todo;
        var skipped := SkipStep(workflowId, stepStates, id, id !in refused, before, todo);
        if !skipped {
          return Err(AppendFailed);
        }
        todo := todo - {id};
      }
      return Ok(0);
    }

    // One turn of that loop.
    method SkipStep(workflowId: string, stepStates: map<string, StepStatus>, id: string, commits: bool,
                    ghost before: seq<Event>, ghost todo: set<string>) returns (ok: bool)
      requires Valid() && "" !in stepStates && id in stepStates && id in todo
      requires SkippedExcept(before, Rows(table, workflowId), stepStates, todo)
      modifies this
      ensures Valid() && (ok <==> commits || !CanSkip(stepStates[id]))
      ensures SkippedExcept(before, Rows(table, workflowId), stepStates, if ok then todo - {id} else todo)
      ensures forall w :: w != workflowId ==> Rows(table, w) == Rows(old(table), w)
    {
      ghost var rows := Rows(table, workflowId);
      if !IsTerminal(stepStates[id]) && CanSkip(stepStates[id]) {
        var skipped := StepTransition(workflowId, id, stepStates[id], Skipped, true, commits, true);
        if skipped.Err? {
          return false;
        }
      }
      SkipOne(before, rows, Rows(table, workflowId), stepStates, todo, id);
      return true;
    }
  }

  // Replay has every skippable step of the map outside `todo` as skipped, and
  // the rest as before.
  ghost predicate SkippedExcept(before: seq<Event>, rows: seq<Event>, stepStates: map<string, StepStatus>,
                                todo: set<string>)
  {
    forall id {:trigger ReplayStep(rows, id)} ::
      ReplayStep(rows, id) ==
      if id in stepStates && id !in todo && CanSkip(stepStates[id])
      then ReplayStep(before, id).(status := Skipped)
      else ReplayStep(before, id)
  }

  lemma AnnouncementSkipsNothing(before: seq<Event>, e: Event, stepStates: map<string, StepStatus>)
    requires e.kind == WorkflowCancelled
    ensures SkippedExcept(before, before + [e], stepStates, stepStates.Keys)
  {
    forall id ensures ReplayStep(before + [e], id) == ReplayStep(before, id) {
      ReplayAppend(before, e, id);
    }
  }

  lemma SkipOne(before: seq<Event>, rows: seq<Event>, rows': seq<Event>,
                stepStates: map<string, StepStatus>, todo: set<string>, id: string)
    requires SkippedExcept(before, rows, stepStates, todo) && id in todo && id in stepStates
    requires if CanSkip(stepStates[id])
             then exists e :: rows' == rows + [e] && e.stepId == id && e.kind == StepSkipped
             else rows' == rows
    ensures SkippedExcept(before, rows', stepStates, todo - {id})
  {
    if CanSkip(stepStates[id]) {
      var e :| rows' == rows + [e] && e.stepId == id && e.kind == StepSkipped;
      forall other ensures ReplayStep(rows', other) ==
                           if other in stepStates && other !in todo - {id} && CanSkip(stepStates[other])
                           then ReplayStep(before, other).(status := Skipped)
                           else ReplayStep(before, other)
      {
        ReplayAppend(rows, e, other);
      }
    }
  }

  lemma IsReplayStep(rows: seq<Event>, e: Event, before: map<string, StepView>, after: map<string, StepView>)
    requires IsReplay(rows, before)
    requires after == if e.stepId == "" then before
                      else before[e.stepId := Apply(if e.stepId in before then before[e.stepId] else FRESH, e.kind)]
    ensures IsReplay(rows + [e], after)
  {
    var longer := rows + [e];
    forall id ensures Mentions(longer, id) <==> id == e.stepId || Mentions(rows, id) {
      if Mentions(rows, id) {
        var i :| 0 <= i < |rows| && rows[i].stepId == id;
        assert longer[i].stepId == id;
      }
      assert longer[|rows|] == e;
    }
    if e.stepId !in before {
      NeverMentioned(rows, e.stepId);
    }
    forall id | id in after ensures after[id] == ReplayStep(longer, id) {
      ReplayAppend(rows, e, id);
    }
  }

  lemma {:induction false} NeverMentioned(rows: seq<Event>, id: string)
    ensures !Mentions(rows, id) ==> ReplayStep(rows, id) == FRESH
  {
    if rows != [] {
      var shorter := rows[..|rows| - 1];
      NeverMentioned(shorter, id);
      if Mentions(shorter, id) {
        var i :| 0 <= i < |shorter| && shorter[i].stepId == id;
        assert rows[i].stepId == id;
      }
      assert rows[|rows| - 1].stepId == id ==> Mentions(rows, id);
    }
  }
}
