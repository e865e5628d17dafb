/** The life of the tool calls of one run: who may approve, reject or edit a call, and when a call executes.
    Every block between two database commits is one atomic action; executing an approved call is a later action. */
module ToolCalls {
  import opened Json

  datatype CallStatus = Pending | Proposed | AwaitingApproval | Executing | Succeeded | Failed | Rejected

  datatype RunStatus = Queued | Running | AwaitingDecision | Completed | Errored | Cancelled

  /** Which step row a call hangs on: one opened by the model loop, or one of the wizard's tabs. */
  datatype Origin = ModelLoop | WorkflowStep(stepId: string)

  datatype Row = Row(tool: string, args: Json, status: CallStatus, requiresApproval: bool, origin: Origin)

  /** One event of the run's log. The id of a tool call is its index in the table of rows. */
  datatype Event =
    | StepStarted(step: nat)
    | StepCompleted(step: nat)
    | MessageDelta(messageId: nat, delta: string)
    | ToolProposed(id: nat)
    | ToolStarted(id: nat)
    | ToolCompleted(id: nat)
    | ToolFailed(id: nat)
    | ProposalRefused(callId: string)
    | ToolApproved(id: nat)
    | ToolRejected(id: nat)
    | ToolEdited(id: nat)
    | AdvanceEvent(stepId: string, outcome: string)
    | RunAwaitingDecision
    | RunCompleted
    | RunError(cause: string)

  /** An approval whose block is committed but whose tool has not run to its end yet. It remembers the run status its
      request read when it began: sessions do not refresh what they loaded when they commit. A bundle also remembers
      the calls it listed then, in the order it will approve them. */
  datatype Task =
    | Single(id: nat, seen: RunStatus)
    | Bundle(id: nat, stepId: string, rest: seq<nat>, seen: RunStatus)

  /** What the properties count: executions in order, with the length of the log at that moment; executions made by
      the runner; approvals that ended without running the tool; rejects that closed an open call; edits that reopened
      a closed call; edits lost because an older execution completed over them; and approvals of closed calls. */
  datatype History = History(
    execs: seq<nat>, execAt: seq<nat>, byRunner: seq<nat>, aborted: seq<nat>, openRejects: seq<nat>,
    reopened: seq<nat>, lostEdits: seq<nat>, stale: seq<nat>)

  /** The tables of one run, the suspended approvals, and the history. */
  datatype Db = Db(rows: seq<Row>, log: seq<Event>, run: RunStatus, tasks: seq<Task>, past: History)

  predicate OpenStatus(st: CallStatus) {
    st == Pending || st == Proposed || st == AwaitingApproval
  }

  predicate Open(s: Db, id: nat) {
    id < |s.rows| && OpenStatus(s.rows[id].status)
  }

  /** Events other than the three user decisions. */
  predicate Neutral(e: Event) {
    !e.ToolApproved? && !e.ToolRejected? && !e.ToolEdited?
  }

  predicate AllNeutral(es: seq<Event>) {
    forall e :: e in es ==> Neutral(e)
  }

  /** The list with the id added, if it is to be noted. */
  function Note(ids: seq<nat>, b: bool, id: nat): seq<nat> {
    if b then ids + [id] else ids
  }

  predicate InTable(ids: seq<nat>, rows: nat) {
    forall k :: 0 <= k < |ids| ==> ids[k] < rows
  }

  /** The ids of the open calls of a wizard tab, oldest first. */
  function OpenIn(rows: seq<Row>, stepId: string): (ids: seq<nat>)
    ensures InTable(ids, |rows|)
  {
    if rows == [] then []
    else
      var n := |rows| - 1;
      OpenIn(rows[..n], stepId) +
        (if OpenStatus(rows[n].status) && rows[n].origin == WorkflowStep(stepId) then [n] else [])
  }

  // ----- the atomic blocks -----

  /** A row the runner commits, and whether the runner executed it in the same block. */
  datatype NewRow = NewRow(row: Row, ran: bool)

  predicate GoodNewRow(r: NewRow) {
    if r.ran then !r.row.requiresApproval && !OpenStatus(r.row.status) else OpenStatus(r.row.status)
  }

  function RanIds(batch: seq<NewRow>, first: nat): seq<nat> {
    if batch == [] then []
    else (if batch[0].ran then [first] else []) + RanIds(batch[1..], first + 1)
  }

  function RowsOf(batch: seq<NewRow>): (rows: seq<Row>)
    ensures |rows| == |batch|
    ensures forall i :: 0 <= i < |rows| ==> rows[i] == batch[i].row
  {
    if batch == [] then [] else [batch[0].row] + RowsOf(batch[1..])
  }

  /** The runner executed these calls. */
  function RunnerRan(h: History, ran: seq<nat>, logged: nat): History {
    h.(execs := h.execs + ran, execAt := h.execAt + seq(|ran|, _ => logged), byRunner := h.byRunner + ran)
  }

  /** The runner commits the rows of a batch, some of them already executed. */
  function Commit(s: Db, batch: seq<NewRow>, events: seq<Event>, run: RunStatus): Db {
    var ran := RanIds(batch, |s.rows|);
    s.(rows := s.rows + RowsOf(batch), log := s.log + events, run := run,
       past := RunnerRan(s.past, ran, |s.log|))
  }

  function Reject(s: Db, id: nat): Db
    requires id < |s.rows|
  {
    s.(rows := s.rows[id := s.rows[id].(status := Rejected)], log := s.log + [ToolRejected(id)],
       past := s.past.(openRejects := Note(s.past.openRejects, Open(s, id), id)))
  }

  function RejectAll(s: Db, ids: seq<nat>): (r: Db)
    requires InTable(ids, |s.rows|)
    ensures |r.rows| == |s.rows|
    decreases |ids|
  {
    if ids == [] then s else RejectAll(Reject(s, ids[0]), ids[1..])
  }

  /** The run is completed if the status the request has read says that it waits for a decision; what the status is by
      now does not matter. */
  function Settle(seen: RunStatus, run: RunStatus): RunStatus {
    if seen == AwaitingDecision then Completed else run
  }

  function StepReject(s: Db, stepId: string): Db {
    var ids := OpenIn(s.rows, stepId);
    if ids == [] then s
    else
      var r := RejectAll(s, ids);
      Logged(r, [AdvanceEvent(stepId, "rejected"), RunCompleted], Settle(s.run, r.run))
  }

  function Edit(s: Db, id: nat, args: Json): Db
    requires id < |s.rows|
  {
    s.(rows := s.rows[id := s.rows[id].(args := args, status := Proposed)], log := s.log + [ToolEdited(id)],
       past := s.past.(reopened := Note(s.past.reopened, !Open(s, id), id)))
  }

  /** Status to executing, with the approved and started events. */
  function Begin(s: Db, id: nat): Db
    requires id < |s.rows|
  {
    s.(rows := s.rows[id := s.rows[id].(status := Executing)], log := s.log + [ToolApproved(id)] + [ToolStarted(id)],
       past := s.past.(stale := Note(s.past.stale, !Open(s, id), id)))
  }

  /** One approved call; only an open call is accepted. */
  function Approve(s: Db, id: nat, args: Json): Db
    requires Open(s, id)
  {
    var b := Begin(s.(rows := s.rows[id := s.rows[id].(args := args)]), id);
    b.(tasks := b.tasks + [Single(id, s.run)])
  }

  /** Approving a tab lists its open calls and approves the first of them. */
  function StepApprove(s: Db, stepId: string): Db {
    var ids := OpenIn(s.rows, stepId);
    if ids == [] then s
    else
      var b := Begin(s, ids[0]);
      b.(tasks := b.tasks + [Bundle(ids[0], stepId, ids[1..], s.run)])
  }

  /** How the execution of an approved call ends: the tool ran and its result is stored; the tool ran but the
      block failed, so the row keeps its status; or the tool never ran (no permission, unknown tool, bad arguments). */
  datatype Outcome = Done | Broke | NeverRan

  function DropTask(tasks: seq<Task>, i: nat): seq<Task>
    requires i < |tasks|
  {
    tasks[..i] + tasks[i + 1..]
  }

  function Executed(s: Db, id: nat): Db {
    s.(past := s.past.(execs := s.past.execs + [id], execAt := s.past.execAt + [|s.log|]))
  }

  /** The stored result overwrites whatever status the row has by then. */
  function StoreResult(s: Db, id: nat): Db
    requires id < |s.rows|
  {
    s.(rows := s.rows[id := s.rows[id].(status := Succeeded)], log := s.log + [ToolCompleted(id)],
       past := s.past.(lostEdits := Note(s.past.lostEdits, Open(s, id), id)))
  }

  /** Task i has executed its call and is gone. */
  function Dropped(s: Db, i: nat): Db
    requires i < |s.tasks|
  {
    Executed(s, s.tasks[i].id).(tasks := DropTask(s.tasks, i))
  }

  /** Task i has executed its call and stored the result. */
  function Settled(s: Db, i: nat): Db
    requires i < |s.tasks| && TaskFits(s, s.tasks[i])
  {
    StoreResult(Dropped(s, i), s.tasks[i].id)
  }

  function PutTask(tasks: seq<Task>, i: nat, t: Task): seq<Task>
    requires i <= |tasks|
  {
    tasks[..i] + [t] + tasks[i..]
  }

  function Logged(s: Db, events: seq<Event>, run: RunStatus): Db {
    s.(log := s.log + events, run := run)
  }

  /** What the last call of an approved bundle logs: the tab is approved, the next tab is entered, the run is done. */
  function ApprovedTail(stepId: string, entered: seq<Event>): seq<Event> {
    [AdvanceEvent(stepId, "approved")] + entered + [RunCompleted]
  }

  /** One suspended approval runs on. A bundle goes on to its next call without looking at that call's status. */
  function Finish(s: Db, i: nat, outcome: Outcome, events: seq<Event>): Db
    requires i < |s.tasks| && TaskFits(s, s.tasks[i])
  {
    var t := s.tasks[i];
    match outcome
    case NeverRan => s.(tasks := DropTask(s.tasks, i), past := s.past.(aborted := s.past.aborted + [t.id]))
    case Broke => Dropped(s, i)
    case Done =>
      var d := Settled(s, i);
      match t {
        case Single(_, seen) => d.(run := Settle(seen, d.run))
        case Bundle(_, stepId, rest, seen) =>
          if rest == [] then
            Logged(d, ApprovedTail(stepId, events), Settle(seen, d.run))
          else
            Begin(d, rest[0]).(tasks := PutTask(d.tasks, i, Bundle(rest[0], stepId, rest[1..], seen)))
      }
  }

  // ----- runs of the machine -----

  datatype Action =
    | ACommit(batch: seq<NewRow>, events: seq<Event>, run: RunStatus)
    | AReject(id: nat)
    | AEdit(id: nat, args: Json)
    | AApprove(id: nat, args: Json)
    | AStepReject(stepId: string)
    | AStepApprove(stepId: string)
    | AFinish(task: nat, outcome: Outcome, events: seq<Event>)

  /** When a block can be committed. A runner or wizard block that only logs or sets the run status is a commit
      with an empty batch. */
  predicate Enabled(s: Db, a: Action) {
    match a
    case ACommit(batch, events, _) => (forall r :: r in batch ==> GoodNewRow(r)) && AllNeutral(events)
    case AReject(id) => id < |s.rows|
    case AEdit(id, _) => id < |s.rows|
    case AApprove(id, _) => Open(s, id)
    case AStepReject(_) => true
    case AStepApprove(_) => true
    case AFinish(i, _, events) => i < |s.tasks| && TaskFits(s, s.tasks[i]) && AllNeutral(events)
  }

  predicate TaskFits(s: Db, t: Task) {
    t.id < |s.rows| && (t.Bundle? ==> InTable(t.rest, |s.rows|))
  }

  function Next(s: Db, a: Action): Db
    requires Enabled(s, a)
  {
    match a
    case ACommit(batch, events, run) => Commit(s, batch, events, run)
    case AReject(id) => Reject(s, id)
    case AEdit(id, args) => Edit(s, id, args)
    case AApprove(id, args) => Approve(s, id, args)
    case AStepReject(stepId) => StepReject(s, stepId)
    case AStepApprove(stepId) => StepApprove(s, stepId)
    case AFinish(i, outcome, events) => Finish(s, i, outcome, events)
  }

  const NO_HISTORY := History([], [], [], [], [], [], [], [])

  const EMPTY := Db([], [], Queued, [], NO_HISTORY)

  predicate ValidRun(s: Db, acts: seq<Action>)
    decreases |acts|
  {
    acts == [] || (Enabled(s, acts[0]) && ValidRun(Next(s, acts[0]), acts[1..]))
  }

  function After(s: Db, acts: seq<Action>): Db
    requires ValidRun(s, acts)
    decreases |acts|
  {
    if acts == [] then s else After(Next(s, acts[0]), acts[1..])
  }

  lemma TailOfSum(a: seq<Action>, b: seq<Action>)
    requires a != []
    ensures (a + b)[0] == a[0] && (a + b)[1..] == a[1..] + b
  {
  }

  /** Runs compose. */
  lemma {:induction false} RunConcat(s: Db, a: seq<Action>, b: seq<Action>)
    requires ValidRun(s, a) && ValidRun(After(s, a), b)
    ensures ValidRun(s, a + b) && After(s, a + b) == After(After(s, a), b)
    decreases |a|
  {
    if a == [] {
      assert a + b == b;
    } else {
      TailOfSum(a, b);
      RunConcat(Next(s, a[0]), a[1..], b);
    }
  }

  /** A batch of which nothing ran. */
  lemma {:induction false} NoneRan(batch: seq<NewRow>, first: nat)
    requires forall i :: 0 <= i < |batch| ==> !batch[i].ran
    ensures RanIds(batch, first) == []
  {
    if batch != [] {
      NoneRan(batch[1..], first + 1);
    }
  }

  /** A commit of a batch of which nothing ran leaves the history alone. */
  lemma NothingRan(batch: seq<NewRow>, s: Db)
    requires forall i :: 0 <= i < |batch| ==> !batch[i].ran
    ensures RanIds(batch, |s.rows|) == [] && RunnerRan(s.past, [], |s.log|) == s.past
  {
    NoneRan(batch, |s.rows|);
    var e: seq<nat> := [];
    assert s.past.execs + e == s.past.execs && s.past.byRunner + e == s.past.byRunner;
    assert s.past.execAt + seq(0, _ => |s.log|) == s.past.execAt;
  }

  /** The user leaves a tab that has a call: its row, its event, and the run waits. */
  function LeaveTab(stepId: string, row: Row): Action {
    ACommit([NewRow(row, false)], [AdvanceEvent(stepId, "requested")], AwaitingDecision)
  }

  // ----- counting -----

  // of an event in a log

  /** Among the first n events. */
  function CountTo(s: seq<Event>, x: Event, n: nat): nat
    requires n <= |s|
  {
    if n == 0 then 0 else CountTo(s, x, n - 1) + (if s[n - 1] == x then 1 else 0)
  }

  function Count(s: seq<Event>, x: Event): nat {
    CountTo(s, x, |s|)
  }

  lemma {:induction false} CountToSame(s: seq<Event>, t: seq<Event>, x: Event, n: nat)
    requires n <= |s| && n <= |t| && forall i :: 0 <= i < n ==> s[i] == t[i]
    ensures CountTo(s, x, n) == CountTo(t, x, n)
  {
    if n > 0 {
      CountToSame(s, t, x, n - 1);
    }
  }

  lemma CountSnoc(s: seq<Event>, y: Event, x: Event)
    ensures Count(s + [y], x) == Count(s, x) + (if y == x then 1 else 0)
  {
    CountToSame(s + [y], s, x, |s|);
  }

  lemma {:induction false} CountConcat(a: seq<Event>, b: seq<Event>, x: Event)
    ensures Count(a + b, x) == Count(a, x) + Count(b, x)
  {
    if b == [] {
      assert a + b == a;
    } else {
      var init, y := b[..|b| - 1], b[|b| - 1];
      CountConcat(a, init, x);
      assert a + b == (a + init) + [y] && b == init + [y];
      CountSnoc(a + init, y, x);
      CountSnoc(init, y, x);
    }
  }

  lemma {:induction false} CountToMember(s: seq<Event>, x: Event, n: nat)
    requires n <= |s|
    ensures CountTo(s, x, n) > 0 <==> exists i :: 0 <= i < n && s[i] == x
  {
    if n > 0 {
      CountToMember(s, x, n - 1);
    }
  }

  lemma CountMember(s: seq<Event>, x: Event)
    ensures Count(s, x) > 0 <==> x in s
  {
    CountToMember(s, x, |s|);
  }

  // of a call in a list of calls

  function TimesTo(s: seq<nat>, x: nat, n: nat): nat
    requires n <= |s|
  {
    if n == 0 then 0 else TimesTo(s, x, n - 1) + (if s[n - 1] == x then 1 else 0)
  }

  function Times(s: seq<nat>, x: nat): nat {
    TimesTo(s, x, |s|)
  }

  lemma {:induction false} TimesToSame(s: seq<nat>, t: seq<nat>, x: nat, n: nat)
    requires n <= |s| && n <= |t| && forall i :: 0 <= i < n ==> s[i] == t[i]
    ensures TimesTo(s, x, n) == TimesTo(t, x, n)
  {
    if n > 0 {
      TimesToSame(s, t, x, n - 1);
    }
  }

  lemma TimesSnoc(s: seq<nat>, y: nat, x: nat)
    ensures Times(s + [y], x) == Times(s, x) + (if y == x then 1 else 0)
  {
    TimesToSame(s + [y], s, x, |s|);
  }

  lemma {:induction false} TimesConcat(a: seq<nat>, b: seq<nat>, x: nat)
    ensures Times(a + b, x) == Times(a, x) + Times(b, x)
  {
    if b == [] {
      assert a + b == a;
    } else {
      var init, y := b[..|b| - 1], b[|b| - 1];
      TimesConcat(a, init, x);
      assert a + b == (a + init) + [y] && b == init + [y];
      TimesSnoc(a + init, y, x);
      TimesSnoc(init, y, x);
    }
  }

  lemma {:induction false} TimesToMember(s: seq<nat>, x: nat, n: nat)
    requires n <= |s|
    ensures TimesTo(s, x, n) > 0 <==> exists i :: 0 <= i < n && s[i] == x
  {
    if n > 0 {
      TimesToMember(s, x, n - 1);
    }
  }

  lemma TimesMember(s: seq<nat>, x: nat)
    ensures Times(s, x) > 0 <==> x in s
  {
    TimesToMember(s, x, |s|);
  }

  lemma TimesNote(ids: seq<nat>, b: bool, id: nat, x: nat)
    ensures Times(Note(ids, b, id), x) == Times(ids, x) + (if b && id == x then 1 else 0)
  {
    TimesSnoc(ids, id, x);
  }

  function Approvals(s: Db, id: nat): nat { Count(s.log, ToolApproved(id)) }
  function Edits(s: Db, id: nat): nat { Count(s.log, ToolEdited(id)) }
  function Rejects(s: Db, id: nat): nat { Count(s.log, ToolRejected(id)) }
  function Executions(s: Db, id: nat): nat { Times(s.past.execs, id) }
  function InFlight(s: Db, id: nat): nat { Current(s.tasks, id) }
  function OpenCount(s: Db, id: nat): nat { if Open(s, id) then 1 else 0 }

  /** How many suspended approvals are executing a call now. */
  function Current(tasks: seq<Task>, id: nat): nat {
    CurrentTo(tasks, id, |tasks|)
  }

  function CurrentTo(tasks: seq<Task>, id: nat, n: nat): nat
    requires n <= |tasks|
  {
    if n == 0 then 0 else CurrentTo(tasks, id, n - 1) + (if tasks[n - 1].id == id then 1 else 0)
  }

  lemma {:induction false} CurrentToSame(s: seq<Task>, t: seq<Task>, id: nat, n: nat)
    requires n <= |s| && n <= |t| && forall i :: 0 <= i < n ==> s[i] == t[i]
    ensures CurrentTo(s, id, n) == CurrentTo(t, id, n)
  {
    if n > 0 {
      CurrentToSame(s, t, id, n - 1);
    }
  }

  lemma CurrentSnoc(tasks: seq<Task>, t: Task, id: nat)
    ensures Current(tasks + [t], id) == Current(tasks, id) + (if t.id == id then 1 else 0)
  {
    CurrentToSame(tasks + [t], tasks, id, |tasks|);
  }

  lemma {:induction false} CurrentSplits(a: seq<Task>, b: seq<Task>, id: nat)
    ensures Current(a + b, id) == Current(a, id) + Current(b, id)
  {
    if b == [] {
      assert a + b == a;
    } else {
      var init, t := b[..|b| - 1], b[|b| - 1];
      CurrentSplits(a, init, id);
      assert a + b == (a + init) + [t] && b == init + [t];
      CurrentSnoc(a + init, t, id);
      CurrentSnoc(init, t, id);
    }
  }

  /** A task in its place counts for exactly its own call. */
  lemma CurrentAt(tasks: seq<Task>, i: nat, t: Task, id: nat)
    requires i <= |tasks|
    ensures Current(tasks[..i] + [t] + tasks[i..], id) == Current(tasks, id) + (if t.id == id then 1 else 0)
  {
    var a, b := tasks[..i], tasks[i..];
    CurrentSplits(a, b, id);
    assert a + b == tasks;
    CurrentSplits(a + [t], b, id);
    CurrentSnoc(a, t, id);
  }

  lemma {:induction false} RanOnce(batch: seq<NewRow>, first: nat, id: nat)
    ensures Times(RanIds(batch, first), id) ==
            if first <= id < first + |batch| && batch[id - first].ran then 1 else 0
  {
    if batch != [] {
      var rest := RanIds(batch[1..], first + 1);
      RanOnce(batch[1..], first + 1, id);
      TimesConcat(if batch[0].ran then [first] else [], rest, id);
      TimesSnoc([], first, id);
      assert [] + [first] == [first];
    }
  }

  /** The listing of a tab is exactly its open calls, in order. */
  lemma {:induction false} OpenInExact(rows: seq<Row>, stepId: string)
    ensures var ids := OpenIn(rows, stepId);
            && (forall k, j :: 0 <= k < j < |ids| ==> ids[k] < ids[j])
            && (forall id: nat :: id in ids <==>
                  id < |rows| && OpenStatus(rows[id].status) && rows[id].origin == WorkflowStep(stepId))
  {
    if rows != [] {
      OpenInExact(rows[..|rows| - 1], stepId);
    }
  }
}
