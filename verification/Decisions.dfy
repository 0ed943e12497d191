// Pending decisions: the guarded updates of the decision table, the validation
// of a choice, and the two ways a decision gets its resolution.
module Decisions {
  import opened Wrappers

  datatype DecisionStatus =
    | Open                                         // status 'pending'
    | Resolved(choice: string, resolvedBy: string)
    | Cancelled

  datatype Decision = Decision(
    options: seq<string>,      // option ids; none means free-form
    fallback: string,          // empty when not configured
    hasTimeout: bool,
    targetAgent: string,       // empty when any agent may answer
    status: DecisionStatus)

  datatype DecisionError = AlreadyExists | NotPending | InvalidChoice | WrongAgent | NoDecision | NotLogged

  type DecisionMap = map<string, Decision>

  // ----- Choices -----

  predicate IsOption(options: seq<string>, choice: string) {
    options == [] || choice in options
  }

  // ValidateResolution: linear search; no options means any choice.
  method ValidateResolution(options: seq<string>, choice: string) returns (ok: bool)
    ensures ok <==> IsOption(options, choice)
  {
    if |options| == 0 {
      return true;
    }
    for i := 0 to |options|
      invariant choice !in options[..i]
    {
      if options[i] == choice {
        return true;
      }
    }
    assert options[..|options|] == options;
    return false;
  }

  // What a stored resolution may say: a listed option (any non-empty choice for
  // free-form), the configured fallback, or nothing for a timeout without one.
  predicate SoundResolution(d: Decision) {
    d.status.Resolved? ==>
      || (d.status.choice != "" && IsOption(d.options, d.status.choice))
      || (d.hasTimeout && d.status.resolvedBy == "system" && d.status.choice == d.fallback)
  }

  // ----- The table's updates, each atomic and guarded -----

  // A primary key on the decision id: a second insert fails.
  function Create(ds: DecisionMap, id: string, d: Decision): Result<DecisionMap, DecisionError> {
    if id in ds then Err(AlreadyExists) else Ok(ds[id := d.(status := Open)])
  }

  // UPDATE ... WHERE id = ? AND status = 'pending'.
  function SetStatus(ds: DecisionMap, id: string, s: DecisionStatus): Result<DecisionMap, DecisionError> {
    if id in ds && ds[id].status == Open then Ok(ds[id := ds[id].(status := s)]) else Err(NotPending)
  }

  // The decision part of Signal on a workflow that is not running.
  function AnswerBySignal(ds: DecisionMap, id: string, agent: string, choice: string)
    : Result<DecisionMap, DecisionError>
  {
    if !(id in ds && ds[id].status == Open) then Err(NoDecision)
    else if ds[id].targetAgent != "" && agent != "" && agent != ds[id].targetAgent then Err(WrongAgent)
    else if choice == "" || !IsOption(ds[id].options, choice) then Err(InvalidChoice)
    else SetStatus(ds, id, Resolved(choice, agent))
  }

  function CancelBySignal(ds: DecisionMap, id: string, agent: string): Result<DecisionMap, DecisionError> {
    if !(id in ds && ds[id].status == Open) then Err(NoDecision)
    else if ds[id].targetAgent != "" && agent != "" && agent != ds[id].targetAgent then Err(WrongAgent)
    else SetStatus(ds, id, Cancelled)
  }

  // Expiry on resume: the fallback, which is empty when none is configured.
  function Expire(ds: DecisionMap, id: string): Result<DecisionMap, DecisionError> {
    if id in ds then SetStatus(ds, id, Resolved(ds[id].fallback, "system")) else Err(NotPending)
  }

  function ExpireOne(ds: DecisionMap, id: string): DecisionMap {
    var r := Expire(ds, id);
    if r.Ok? then r.value else ds
  }

  // Expiry over a listing, up to the first expired decision without a fallback.
  function ExpireListed(ds: DecisionMap, listing: seq<string>, expired: set<string>): (DecisionMap, Option<string>) {
    if listing == [] then (ds, None)
    else
      var id := listing[0];
      if !(id in ds && ds[id].hasTimeout && id in expired) then ExpireListed(ds, listing[1..], expired)
      else if ds[id].fallback == "" then (ExpireOne(ds, id), Some(id))
      else ExpireListed(ExpireOne(ds, id), listing[1..], expired)
  }

  // ----- What every update keeps -----

  // Rows are never dropped, a closed decision is never touched again, and the
  // question asked never changes.
  ghost predicate Evolves(before: DecisionMap, after: DecisionMap) {
    forall id :: id in before ==> EvolvesAt(before, after, id)
  }

  ghost predicate EvolvesAt(before: DecisionMap, after: DecisionMap, id: string)
    requires id in before
  {
    && id in after
    && (!before[id].status.Open? ==> after[id] == before[id])
    && after[id] == before[id].(status := after[id].status)
  }

  ghost predicate AllSound(ds: DecisionMap) {
    forall id :: id in ds ==> SoundResolution(ds[id])
  }

  lemma EvolvesTransitive(a: DecisionMap, b: DecisionMap, c: DecisionMap)
    requires Evolves(a, b) && Evolves(b, c)
    ensures Evolves(a, c)
  {
    forall id | id in a ensures EvolvesAt(a, c, id) {
      assert EvolvesAt(a, b, id) && EvolvesAt(b, c, id);
    }
  }

  lemma CreateKeeps(ds: DecisionMap, id: string, d: Decision)
    requires AllSound(ds)
    ensures var r := Create(ds, id, d); r.Ok? ==> Evolves(ds, r.value) && AllSound(r.value)
  {
  }

  lemma SignalKeeps(ds: DecisionMap, id: string, agent: string, choice: string)
    requires AllSound(ds)
    ensures var r := AnswerBySignal(ds, id, agent, choice); r.Ok? ==> Evolves(ds, r.value) && AllSound(r.value)
    ensures var r := CancelBySignal(ds, id, agent); r.Ok? ==> Evolves(ds, r.value) && AllSound(r.value)
  {
  }

  lemma ExpireKeeps(ds: DecisionMap, id: string)
    requires AllSound(ds) && id in ds && ds[id].hasTimeout
    ensures var r := Expire(ds, id); r.Ok? ==> Evolves(ds, r.value) && AllSound(r.value)
  {
  }

  // ----- The table as the store keeps it -----

  class DecisionTable {
    var rows: DecisionMap

    constructor ()
      ensures rows == map[]
    {
      rows := map[];
    }

    method CreateDecision(id: string, d: Decision) returns (r: Result<(), DecisionError>)
      modifies this
      ensures r.Ok? <==> id !in old(rows)
      ensures rows == if r.Ok? then Create(old(rows), id, d).value else old(rows)
      ensures Evolves(old(rows), rows)
    {
      if id in rows {
        return Err(AlreadyExists);
      }
      rows := rows[id := d.(status := Open)];
      return Ok(());
    }

    method UpdatePending(id: string, s: DecisionStatus) returns (r: Result<(), DecisionError>)
      modifies this
      ensures r.Ok? <==> id in old(rows) && old(rows)[id].status == Open
      ensures rows == if r.Ok? then old(rows)[id := old(rows)[id].(status := s)] else old(rows)
      ensures Evolves(old(rows), rows)
    {
      if id in rows && rows[id].status == Open {
        rows := rows[id := rows[id].(status := s)];
        return Ok(());
      }
      return Err(NotPending);
    }

    // Signal on a workflow that is not running: the signal is logged, then come
    // routing, choice validation and the update, and a resolution is logged last.
    // `announced` and `resolutionLogged` are whether the two appends commit. An
    // error leaves the rows alone exactly when it comes before the update.
    method Signal(id: string, agent: string, cancel: bool, choice: string, announced: bool, resolutionLogged: bool)
      returns (r: Result<(), DecisionError>)
      requires AllSound(rows)
      modifies this
      ensures AllSound(rows) && Evolves(old(rows), rows)
      ensures var spec := if cancel then CancelBySignal(old(rows), id, agent)
                          else AnswerBySignal(old(rows), id, agent, choice);
              && rows == (if announced && spec.Ok? then spec.value else old(rows))
              && (r.Ok? <==> announced && spec.Ok? && (cancel || resolutionLogged))
              && (r.Err? ==> r.error == if announced && spec.Err? then spec.error else NotLogged)
              && (r.Err? ==> (rows == old(rows) <==> !announced || spec.Err?))
    {
      if !announced {
        return Err(NotLogged);
      }
      if !(id in rows && rows[id].status == Open) {
        return Err(NoDecision);
      }
      var d := rows[id];
      if d.targetAgent != "" && agent != "" && agent != d.targetAgent {
        return Err(WrongAgent);
      }
      if cancel {
        r := UpdatePending(id, Cancelled);
        return;
      }
      if choice == "" {
        return Err(InvalidChoice);
      }
      var valid := ValidateResolution(d.options, choice);
      if !valid {
        return Err(InvalidChoice);
      }
      r := UpdatePending(id, Resolved(choice, agent));
      if !resolutionLogged {
        return Err(NotLogged);
      }
    }

    // resolveExpiredDecisions over a listing of open decisions: fallbacks are
    // applied until an expired decision without one aborts the resume.
    method ResolveExpired(listing: seq<string>, expired: set<string>) returns (aborted: Option<string>)
      requires AllSound(rows)
      requires forall id :: id in listing ==> id in rows
      modifies this
      ensures (rows, aborted) == ExpireListed(old(rows), listing, expired)
      ensures AllSound(rows) && Evolves(old(rows), rows) && rows.Keys == old(rows).Keys
    {
      for i := 0 to |listing|
        invariant ExpireListed(old(rows), listing, expired) == ExpireListed(rows, listing[i..], expired)
        invariant AllSound(rows) && Evolves(old(rows), rows) && rows.Keys == old(rows).Keys
      {
        var id := listing[i];
        assert id in listing;
        assert listing[i..][1..] == listing[i + 1..];
        if rows[id].hasTimeout && id in expired {
          ghost var before := rows;
          ExpireKeeps(rows, id);
          var r := UpdatePending(id, Resolved(rows[id].fallback, "system"));
          EvolvesTransitive(old(rows), before, rows);
          assert rows == ExpireOne(before, id);
          if rows[id].fallback == "" {
            return Some(id);
          }
        }
      }
      assert listing[|listing|..] == [];
      return None;
    }
  }

  // Without an abort every expired decision of the listing had a fallback and is
  // closed now; with one, the aborting decision had none and is closed too. What
  // is not listed, not expired or has no timeout stays as it was.
  lemma {:induction false} ExpiryOutcome(ds: DecisionMap, listing: seq<string>, expired: set<string>, id: string)
    requires id in ds
    ensures var (after, aborted) := ExpireListed(ds, listing, expired);
            && id in after && after[id].fallback == ds[id].fallback && after[id].hasTimeout == ds[id].hasTimeout
            && (!ds[id].status.Open? || id !in listing || id !in expired || !ds[id].hasTimeout ==> after[id] == ds[id])
            && (after[id] != ds[id] ==> after[id].status == Resolved(ds[id].fallback, "system"))
            && (aborted.None? && id in listing && id in expired && ds[id].hasTimeout ==>
                  ds[id].fallback != "" && !after[id].status.Open?)
            && (aborted == Some(id) ==> id in listing && ds[id].fallback == "" && !after[id].status.Open?)
  {
    if listing != [] {
      var first := listing[0];
      if !(first in ds && ds[first].hasTimeout && first in expired) {
        ExpiryOutcome(ds, listing[1..], expired, id);
      } else if ds[first].fallback != "" {
        ExpiryOutcome(ExpireOne(ds, first), listing[1..], expired, id);
      }
    }
  }
}
