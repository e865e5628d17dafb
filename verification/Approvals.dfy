/** The decision endpoints of a run, as code over the tables of the run. */
module Approvals {
  import opened Json
  import opened ToolCalls

  /** The tables of one run as the handlers see them; the ghost fields record what the laws count. */
  class RunTables {
    var rows: seq<Row>
    var log: seq<Event>
    var run: RunStatus
    ghost var tasks: seq<Task>
    ghost var past: History

    ghost function State(): Db
      reads this
    {
      Db(rows, log, run, tasks, past)
    }

    constructor ()
      ensures State() == EMPTY
    {
      rows, log, run := [], [], Queued;
      tasks, past := [], NO_HISTORY;
    }

    /** append_run_event: the event's sequence number is its position in the log, counted from 1. */
    method Append(e: Event)
      modifies this`log
      ensures log == old(log) + [e]
    {
      log := log + [e];
    }

    method SetStatus(id: nat, status: CallStatus)
      requires id < |rows|
      modifies this`rows
      ensures rows == old(rows)[id := old(rows)[id].(status := status)]
    {
      rows := rows[id := rows[id].(status := status)];
    }
  }

  datatype Decision = DecideApprove | DecideReject | DecideEdit

  datatype Response =
    | Replied(status: CallStatus)
    | Started
    | NotFound
    | Unprocessable
    | Conflict
    | BadRequest
    | ServerError

  /** The registry: which tools exist, and what a tool's schema makes of the arguments it is given. */
  datatype Toolbox = Toolbox(known: set<string>, validate: (string, Json) -> Option<Json>)

  /** The arguments an approval runs with: those sent along, unless none or an empty object was sent. */
  function ApprovedArgs(edited: Option<seq<Member>>, row: Row): Json {
    match edited
    case Some(ms) => if ms == [] then row.args else Obj(ms)
    case None => row.args
  }

  /** Status to executing, then the approved and started events; both endpoints do this before they execute. */
  method StartApproved(db: RunTables, id: nat)
    requires id < |db.rows|
    modifies db
    ensures db.State() == Begin(old(db.State()), id)
  {
    db.past := db.past.(stale := Note(db.past.stale, !OpenStatus(db.rows[id].status), id));
    db.SetStatus(id, Executing);
    db.Append(ToolApproved(id));
    db.Append(ToolStarted(id));
  }

  method RejectCall(db: RunTables, id: nat)
    requires id < |db.rows|
    modifies db
    ensures db.State() == Reject(old(db.State()), id)
  {
    db.past := db.past.(openRejects := Note(db.past.openRejects, OpenStatus(db.rows[id].status), id));
    db.SetStatus(id, Rejected);
    db.Append(ToolRejected(id));
  }

  method EditCall(db: RunTables, id: nat, args: Json)
    requires id < |db.rows|
    modifies db
    ensures db.State() == Edit(old(db.State()), id, args)
    ensures var row := old(db.rows)[id];
            db.rows == old(db.rows)[id := Row(row.tool, args, Proposed, row.requiresApproval, row.origin)]
  {
    db.past := db.past.(reopened := Note(db.past.reopened, !OpenStatus(db.rows[id].status), id));
    db.rows := db.rows[id := db.rows[id].(args := args)];
    db.SetStatus(id, Proposed);
    db.Append(ToolEdited(id));
  }

  /** The call begins with the arguments that were sent, as its schema takes them, or with its own if none, or an empty
      object, was sent; nothing else about it changes, and no other row. */
  predicate Executes(rows: seq<Row>, rows': seq<Row>, id: nat, edited: Option<seq<Member>>, tools: Toolbox)
    requires id < |rows|
  {
    var row := rows[id];
    var sent := if edited.None? || edited.value == [] then row.args else Obj(edited.value);
    var args := tools.validate(row.tool, sent);
    args.Some? && rows' == rows[id := Row(row.tool, args.value, Executing, row.requiresApproval, row.origin)]
  }

  /** The approve branch: what the answer is for every status of the call, and when it starts executing. */
  method ApproveCall(db: RunTables, id: nat, edited: Option<seq<Member>>, tools: Toolbox) returns (resp: Response)
    requires id < |db.rows|
    modifies db
    ensures var row := old(db.rows)[id];
            var args := tools.validate(row.tool, ApprovedArgs(edited, row));
            && (row.status in {Executing, Succeeded} ==> resp == Replied(row.status))
            && (row.status in {Failed, Rejected} ==> resp == Conflict)
            && (OpenStatus(row.status) && row.tool !in tools.known ==> resp == BadRequest)
            && (OpenStatus(row.status) && row.tool in tools.known && args.None? ==> resp == ServerError)
            && (OpenStatus(row.status) && row.tool in tools.known && args.Some? ==>
                  resp == Started && db.State() == Approve(old(db.State()), id, args.value))
    ensures resp == Started ==> Executes(old(db.rows), db.rows, id, edited, tools)
    ensures resp != Started ==> db.State() == old(db.State())
  {
    var row := db.rows[id];
    if row.status == Executing {
      return Replied(Executing);
    }
    if row.status == Succeeded {
      return Replied(Succeeded);
    }
    if row.status != Pending && row.status != Proposed && row.status != AwaitingApproval {
      return Conflict;
    }
    if row.tool !in tools.known {
      return BadRequest;
    }
    var validated := tools.validate(row.tool, ApprovedArgs(edited, row));
    if validated.None? {
      return ServerError;
    }
    db.rows := db.rows[id := row.(args := validated.value)];
    StartApproved(db, id);
    db.tasks := db.tasks + [Single(id, db.run)];
    return Started;
  }

  /** POST /runs/{id}/decisions, up to the first commit. Only approval looks at the status of the call. A reject closes the
      row, an edit gives it exactly the sent arguments and proposes it again, an approval starts it with the arguments it
      is approved with; tool, flag and origin stay, and so do all other rows. */
  method Decide(db: RunTables, id: nat, decision: Decision, edited: Option<seq<Member>>, tools: Toolbox)
    returns (resp: Response)
    modifies db
    ensures resp == NotFound <==> id >= |old(db.rows)|
    ensures resp in {NotFound, Unprocessable, Conflict, BadRequest, ServerError} ==> db.State() == old(db.State())
    ensures id < |old(db.rows)| && decision == DecideReject ==>
              var row := old(db.rows)[id];
              && resp == Replied(Rejected) && db.State() == Reject(old(db.State()), id)
              && db.rows == old(db.rows)[id := Row(row.tool, row.args, Rejected, row.requiresApproval, row.origin)]
              && db.log == old(db.log) + [ToolRejected(id)] && db.run == old(db.run)
    ensures id < |old(db.rows)| && decision == DecideEdit && edited.None? ==> resp == Unprocessable
    ensures id < |old(db.rows)| && decision == DecideEdit && edited.Some? ==>
              var row := old(db.rows)[id];
              && resp == Replied(Proposed) && db.State() == Edit(old(db.State()), id, Obj(edited.value))
              && db.rows ==
                 old(db.rows)[id := Row(row.tool, Obj(edited.value), Proposed, row.requiresApproval, row.origin)]
              && db.log == old(db.log) + [ToolEdited(id)] && db.run == old(db.run)
    ensures id < |old(db.rows)| && decision == DecideApprove ==>
              var row := old(db.rows)[id];
              var args := tools.validate(row.tool, ApprovedArgs(edited, row));
              && (resp == Started <==> OpenStatus(row.status) && row.tool in tools.known && args.Some?)
              && (resp == Started ==>
                    && db.State() == Approve(old(db.State()), id, args.value)
                    && Executes(old(db.rows), db.rows, id, edited, tools)
                    && db.log == old(db.log) + [ToolApproved(id)] + [ToolStarted(id)] && db.run == old(db.run))
              && (resp != Started ==> db.State() == old(db.State()))
  {
    if id >= |db.rows| {
      return NotFound;
    }
    if decision == DecideReject {
      RejectCall(db, id);
      return Replied(Rejected);
    }
    if decision == DecideEdit {
      if edited.None? {
        return Unprocessable;
      }
      EditCall(db, id, Obj(edited.value));
      return Replied(Proposed);
    }
    resp := ApproveCall(db, id, edited, tools);
  }

  /** The open calls of a tab, oldest first: a scan over the rows of the run. */
  method ListProposed(db: RunTables, stepId: string) returns (ids: seq<nat>)
    ensures ids == OpenIn(db.rows, stepId)
  {
    ids := [];
    var i := 0;
    while i < |db.rows|
      invariant i <= |db.rows|
      invariant ids == OpenIn(db.rows[..i], stepId)
    {
      assert db.rows[..i + 1][..i] == db.rows[..i];
      if OpenStatus(db.rows[i].status) && db.rows[i].origin == WorkflowStep(stepId) {
        ids := ids + [i];
      }
      i := i + 1;
    }
    assert db.rows[..i] == db.rows;
  }

  /** What was decided is done: the run moves on, as the status read at the start of the request says. */
  method CloseStep(db: RunTables, seen: RunStatus, events: seq<Event>)
    modifies db
    ensures db.State() == Logged(old(db.State()), events, Settle(seen, old(db.run)))
  {
    if seen == AwaitingDecision {
      db.run := Completed;
    }
    db.log := db.log + events;
  }

  /** POST /runs/{id}/step_decisions, reject branch: every listed call is rejected in one commit. */
  method RejectStep(db: RunTables, stepId: string) returns (resp: Response)
    modifies db
    ensures db.State() == StepReject(old(db.State()), stepId)
    ensures resp == if OpenIn(old(db.rows), stepId) == [] then NotFound else Replied(Rejected)
    ensures resp != NotFound ==>
              && |db.log| >= 2 && db.log[|db.log| - 2..] == [AdvanceEvent(stepId, "rejected"), RunCompleted]
              && db.run == if old(db.run) == AwaitingDecision then Completed else old(db.run)
  {
    var ids := ListProposed(db, stepId);
    if ids == [] {
      return NotFound;
    }
    ghost var before := db.State();
    var seen := db.run;
    var k := 0;
    while k < |ids|
      invariant k <= |ids|
      invariant |db.rows| == |before.rows| && db.run == seen
      invariant RejectAll(before, ids) == RejectAll(db.State(), ids[k..])
    {
      assert ids[k..][1..] == ids[k + 1..];
      RejectCall(db, ids[k]);
      k := k + 1;
    }
    CloseStep(db, seen, [AdvanceEvent(stepId, "rejected"), RunCompleted]);
    return Replied(Rejected);
  }

  /** The same endpoint, approve branch, up to its first commit. */
  method ApproveStep(db: RunTables, stepId: string) returns (resp: Response)
    modifies db
    ensures db.State() == StepApprove(old(db.State()), stepId)
    ensures resp == if OpenIn(old(db.rows), stepId) == [] then NotFound else Started
    ensures resp == Started ==>
              var id := OpenIn(old(db.rows), stepId)[0];
              var row := old(db.rows)[id];
              && db.rows == old(db.rows)[id := Row(row.tool, row.args, Executing, row.requiresApproval, row.origin)]
              && db.log == old(db.log) + [ToolApproved(id)] + [ToolStarted(id)] && db.run == old(db.run)
  {
    var ids := ListProposed(db, stepId);
    if ids == [] {
      return NotFound;
    }
    StartApproved(db, ids[0]);
    db.tasks := db.tasks + [Bundle(ids[0], stepId, ids[1..], db.run)];
    return Started;
  }

  /** POST /runs/{id}/cancel: an unfinished run is cancelled, a finished one stays as it is. */
  method CancelRun(db: RunTables)
    modifies db`log, db`run
    ensures db.State() == if old(db.run) in {Completed, Errored, Cancelled} then old(db.State())
                          else Logged(old(db.State()), [RunError("cancelled")], Cancelled)
    ensures old(db.run) in {Completed, Errored, Cancelled} ==> db.run == old(db.run) && db.log == old(db.log)
    ensures old(db.run) !in {Completed, Errored, Cancelled} ==>
              db.run == Cancelled && db.log == old(db.log) + [RunError("cancelled")]
  {
    if db.run != Completed && db.run != Errored && db.run != Cancelled {
      db.run := Cancelled;
      db.Append(RunError("cancelled"));
    }
  }

  /** The tool of a suspended approval has run and its result is stored, whatever the status is by now. */
  method SettleCall(db: RunTables, ghost i: nat, id: nat)
    requires i < |db.tasks| && TaskFits(db.State(), db.tasks[i]) && db.tasks[i].id == id
    modifies db
    ensures db.State() == Settled(old(db.State()), i)
  {
    db.tasks := DropTask(db.tasks, i);
    db.past := db.past.(execs := db.past.execs + [id], execAt := db.past.execAt + [|db.log|]);
    db.past := db.past.(lostEdits := Note(db.past.lostEdits, OpenStatus(db.rows[id].status), id));
    db.SetStatus(id, Succeeded);
    db.Append(ToolCompleted(id));
  }

  /** A suspended approval breaks off or is refused: nothing is committed, the call keeps its status. */
  method GiveUp(db: RunTables, ghost i: nat, id: nat, outcome: Outcome)
    requires i < |db.tasks| && TaskFits(db.State(), db.tasks[i]) && db.tasks[i].id == id && outcome != Done
    modifies db`tasks, db`past
    ensures db.State() == Finish(old(db.State()), i, outcome, [])
  {
    if outcome == NeverRan {
      db.past := db.past.(aborted := db.past.aborted + [id]);
    } else {
      db.past := db.past.(execs := db.past.execs + [id], execAt := db.past.execAt + [|db.log|]);
    }
    db.tasks := DropTask(db.tasks, i);
  }

  /** The tool of a suspended approval is done; a bundle starts its next call in the same block. */
  method GoOn(db: RunTables, ghost i: nat, t: Task, entered: seq<Event>)
    requires i < |db.tasks| && db.tasks[i] == t && TaskFits(db.State(), t)
    modifies db
    ensures db.State() == Finish(old(db.State()), i, Done, entered)
  {
    SettleCall(db, i, t.id);
    match t {
      case Single(_, seen) =>
        CloseStep(db, seen, []);
        assert db.log == old(db.log) + [ToolCompleted(t.id)];
      case Bundle(_, stepId, rest, seen) =>
        if rest != [] {
          StartApproved(db, rest[0]);
          db.tasks := PutTask(db.tasks, i, Bundle(rest[0], stepId, rest[1..], seen));
        } else {
          CloseStep(db, seen, ApprovedTail(stepId, entered));
        }
    }
  }

  /** The call has succeeded with everything else about it as it was, and the next call of a bundle executes. */
  predicate Stores(rows: seq<Row>, rows': seq<Row>, t: Task)
    requires t.id < |rows| && (t.Bundle? ==> InTable(t.rest, |rows|))
  {
    var row := rows[t.id];
    var stored := rows[t.id := Row(row.tool, row.args, Succeeded, row.requiresApproval, row.origin)];
    if t.Single? || t.rest == [] then rows' == stored
    else
      var next := stored[t.rest[0]];
      rows' == stored[t.rest[0] := Row(next.tool, next.args, Executing, next.requiresApproval, next.origin)]
  }

  /** The events of a stored result: the call has completed; a bundle announces its next call, or that the tab is left. */
  predicate Tells(log: seq<Event>, log': seq<Event>, t: Task, entered: seq<Event>) {
    if t.Single? then log' == log + [ToolCompleted(t.id)]
    else if t.rest == [] then
      log' == log + [ToolCompleted(t.id)] + ([AdvanceEvent(t.stepId, "approved")] + entered + [RunCompleted])
    else log' == log + [ToolCompleted(t.id)] + [ToolApproved(t.rest[0])] + [ToolStarted(t.rest[0])]
  }

  /** One suspended approval runs on, however its tool turns out. Unless it is done, the tables stay as they are. */
  method Resume(db: RunTables, ghost i: nat, t: Task, outcome: Outcome, entered: seq<Event>)
    requires i < |db.tasks| && db.tasks[i] == t && TaskFits(db.State(), t)
    modifies db
    ensures db.State() == Finish(old(db.State()), i, outcome, entered)
    ensures outcome != Done ==> db.rows == old(db.rows) && db.log == old(db.log) && db.run == old(db.run)
    ensures outcome == Done ==> Stores(old(db.rows), db.rows, t) && Tells(old(db.log), db.log, t, entered)
    ensures outcome == Done ==>
              db.run == if (t.Bundle? && t.rest != []) || t.seen != AwaitingDecision then old(db.run) else Completed
  {
    if outcome != Done {
      GiveUp(db, i, t.id, outcome);
    } else {
      GoOn(db, i, t, entered);
    }
  }
}
