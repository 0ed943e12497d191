// recoverOrphanedWorkflows: on start-up, workflows a crash left active become
// suspended, so that they can be resumed.
module Recovery {
  import opened Lifecycle
  import opened EventLog

  const INTERRUPTED := "workflow_interrupted"

  ghost function Orphans(statuses: map<string, WorkflowStatus>): set<string> {
    set w | w in statuses && statuses[w] == WfActive
  }

  ghost function WithSuspended(statuses: map<string, WorkflowStatus>, ws: set<string>): map<string, WorkflowStatus> {
    map w | w in statuses :: if w in ws then WfSuspended else statuses[w]
  }

  lemma NoneSuspended(statuses: map<string, WorkflowStatus>)
    ensures WithSuspended(statuses, {}) == statuses
  {
  }

  lemma OneMoreSuspended(statuses: map<string, WorkflowStatus>, ws: set<string>, w: string)
    requires w in statuses
    ensures WithSuspended(statuses, ws)[w := WfSuspended] == WithSuspended(statuses, ws + {w})
  {
  }

  class Store {
    var statuses: map<string, WorkflowStatus>
    const log: EventTable

    constructor (statuses: map<string, WorkflowStatus>, log: EventTable)
      ensures this.statuses == statuses && this.log == log
    {
      this.statuses, this.log := statuses, log;
    }

    // `stuck` are the workflows whose row cannot be updated, `unlogged` those
    // whose event does not commit. The scan is in any order.
    method RecoverOrphanedWorkflows(scanned: bool, stuck: set<string>, unlogged: set<string>) returns (recovered: nat)
      requires log.Valid()
      modifies this, log
      ensures log.Valid() && SameReplay(old(log.table), log.table)
      ensures statuses == WithSuspended(old(statuses), if scanned then Orphans(old(statuses)) - stuck else {})
      ensures recovered == if scanned then |Orphans(old(statuses)) - stuck| else 0
    {
      NoneSuspended(statuses);
      NothingChanges(log.table);
      if !scanned {
        return 0;
      }
      var workflows := set w | w in statuses && statuses[w] == WfActive;
      recovered := SuspendAll(workflows, stuck, unlogged);
    }

    method SuspendAll(workflows: set<string>, stuck: set<string>, unlogged: set<string>) returns (recovered: nat)
      requires log.Valid() && workflows <= statuses.Keys
      modifies this, log
      ensures log.Valid() && SameReplay(old(log.table), log.table)
      ensures statuses == WithSuspended(old(statuses), workflows - stuck)
      ensures recovered == |workflows - stuck|
    {
      ghost var before, start, freed := statuses, log.table, {};
      var todo := workflows;
      recovered := 0;
      NoneSuspended(statuses);
      NothingChanges(log.table);
      while todo != {}
        invariant todo <= workflows && freed !! todo && recovered == |freed|
        invariant forall w :: w in freed <==> w in workflows && w !in todo && w !in stuck
        invariant log.Valid() && SameReplay(start, log.table)
        invariant statuses == WithSuspended(before, freed)
      {
        var w :| w in todo;
        if w !in stuck {
          SuspendOrphan(w, w !in unlogged, before, freed, start);
          freed := freed + {w};
          recovered := recovered + 1;
        }
        todo := todo - {w};
      }
      assert freed == workflows - stuck;
    }

    method SuspendOrphan(w: string, commits: bool, ghost before: map<string, WorkflowStatus>, ghost freed: set<string>,
                         ghost start: seq<Event>)
      requires w in before && statuses == WithSuspended(before, freed)
      requires log.Valid() && SameReplay(start, log.table)
      modifies this, log
      ensures statuses == WithSuspended(before, freed + {w})
      ensures log.Valid() && SameReplay(start, log.table)
    {
      OneMoreSuspended(before, freed, w);
      statuses := statuses[w := WfSuspended];
      ghost var logged := log.table;
      log.AppendNote(w, "", INTERRUPTED, commits);
      SameReplayTransitive(start, logged, log.table);
    }
  }
}
