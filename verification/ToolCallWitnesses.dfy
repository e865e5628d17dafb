/** Concrete runs of the tool-call machine on which what the endpoints are meant to give fails. Every block of them is one
    that a handler commits. */
module ToolCallWitnesses {
  import opened Json
  import opened ToolCalls
  import opened ToolCallLaws

  /** What the runs look at in a state: the calls of the tab by status, what is suspended, what has executed, and the
      status of the run. Nothing was edited. */
  datatype Shot = Shot(calls: seq<CallStatus>, tasks: seq<Task>, execs: seq<nat>, run: RunStatus)

  const TAB: string := "summary"

  predicate Shows(s: Db, shot: Shot) {
    && |s.rows| == |shot.calls|
    && (forall i :: 0 <= i < |s.rows| ==>
          s.rows[i].status == shot.calls[i] && s.rows[i].origin == WorkflowStep(TAB))
    && s.tasks == shot.tasks && s.past.execs == shot.execs && s.run == shot.run
    && forall e :: e in s.log ==> !e.ToolEdited?
  }

  predicate Leads(s: Db, a: Action, shot: Shot) {
    Enabled(s, a) && Shows(Next(s, a), shot)
  }

  predicate ProposedOnTab(r: Row) {
    r.status == Proposed && r.origin == WorkflowStep(TAB)
  }

  // ----- the blocks -----

  lemma Left(s: Db, shot: Shot, row: Row)
    requires Shows(s, shot) && ProposedOnTab(row)
    ensures Leads(s, LeaveTab(TAB, row), shot.(calls := shot.calls + [Proposed], run := AwaitingDecision))
  {
    var batch := [NewRow(row, false)];
    assert batch[1..] == [];
    NothingRan(batch, s);
    assert RowsOf(batch) == [row];
  }

  lemma TwoOpen(rows: seq<Row>)
    requires |rows| == 2 && ProposedOnTab(rows[0]) && ProposedOnTab(rows[1])
    ensures OpenIn(rows, TAB) == [0, 1]
  {
    assert rows[..1][..0] == [];
    assert OpenIn(rows[..1], TAB) == OpenIn([], TAB) + [0] == [0];
  }

  const WAITING := Bundle(0, TAB, [1], AwaitingDecision)
  const LAST := Bundle(1, TAB, [], AwaitingDecision)

  lemma TabApproved(s: Db)
    requires Shows(s, Shot([Proposed, Proposed], [], [], AwaitingDecision))
    ensures Leads(s, AStepApprove(TAB), Shot([Executing, Proposed], [WAITING], [], AwaitingDecision))
  {
    TwoOpen(s.rows);
    assert [0, 1][1..] == [1];
    assert StepApprove(s, TAB) == Begin(s, 0).(tasks := s.tasks + [WAITING]);
  }

  lemma SecondApproved(s: Db, args: Json)
    requires Shows(s, Shot([Executing, Proposed], [WAITING], [], AwaitingDecision))
    ensures Leads(s, AApprove(1, args),
                  Shot([Executing, Executing], [WAITING, Single(1, AwaitingDecision)], [], AwaitingDecision))
  {
  }

  lemma SecondExecuted(s: Db)
    requires Shows(s, Shot([Executing, Executing], [WAITING, Single(1, AwaitingDecision)], [], AwaitingDecision))
    ensures Leads(s, AFinish(1, Done, []), Shot([Executing, Succeeded], [WAITING], [1], Completed))
  {
    assert DropTask(s.tasks, 1) == [WAITING];
  }

  lemma SecondRejected(s: Db)
    requires Shows(s, Shot([Executing, Proposed], [WAITING], [], AwaitingDecision))
    ensures Leads(s, AReject(1), Shot([Executing, Rejected], [WAITING], [], AwaitingDecision))
  {
  }

  lemma FirstSettled(s: Db, shot: Shot)
    requires Shows(s, shot) && |shot.calls| == 2 && shot.calls[0] == Executing && shot.tasks == [WAITING]
    ensures Shows(Settled(s, 0), Shot([Succeeded, shot.calls[1]], [], shot.execs + [0], shot.run))
  {
  }

  lemma BundleMovesOn(s: Db, shot: Shot)
    requires Shows(s, shot) && |shot.calls| == 2 && shot.calls[0] == Executing && shot.tasks == [WAITING]
    ensures Leads(s, AFinish(0, Done, []), Shot([Succeeded, Executing], [LAST], shot.execs + [0], shot.run))
  {
    FirstSettled(s, shot);
    var d := Settled(s, 0);
    assert PutTask(d.tasks, 0, LAST) == [LAST] && WAITING.rest[1..] == [];
    assert Finish(s, 0, Done, []) == Begin(d, 1).(tasks := PutTask(d.tasks, 0, LAST));
  }

  lemma LastSettled(s: Db, shot: Shot)
    requires Shows(s, shot) && shot.calls == [Succeeded, Executing] && shot.tasks == [LAST]
    ensures Shows(Settled(s, 0), Shot([Succeeded, Succeeded], [], shot.execs + [1], shot.run))
  {
  }

  lemma BundleEnds(s: Db, shot: Shot)
    requires Shows(s, shot) && shot.calls == [Succeeded, Executing] && shot.tasks == [LAST]
    ensures Leads(s, AFinish(0, Done, []), Shot([Succeeded, Succeeded], [], shot.execs + [1], Completed))
  {
    LastSettled(s, shot);
    assert ApprovedTail(TAB, []) == [AdvanceEvent(TAB, "approved"), RunCompleted];
  }

  // ----- the runs -----

  /** A run that ends with these executions and without an edit. */
  predicate RunsTo(s: Db, acts: seq<Action>, execs: seq<nat>) {
    ValidRun(s, acts) && After(s, acts).past.execs == execs && forall e :: e in After(s, acts).log ==> !e.ToolEdited?
  }

  lemma StepRunsTo(s: Db, a: Action, rest: seq<Action>, execs: seq<nat>)
    requires Enabled(s, a) && RunsTo(Next(s, a), rest, execs)
    ensures RunsTo(s, [a] + rest, execs)
  {
    assert ([a] + rest)[1..] == rest;
  }

  const BUNDLED := [AFinish(0, Done, []), AFinish(0, Done, [])]

  lemma BundleRuns(s: Db, shot: Shot)
    requires Shows(s, shot) && |shot.calls| == 2 && shot.calls[0] == Executing && shot.tasks == [WAITING]
    ensures RunsTo(s, BUNDLED, shot.execs + [0, 1])
  {
    BundleMovesOn(s, shot);
    var s' := Next(s, AFinish(0, Done, []));
    BundleEnds(s', Shot([Succeeded, Executing], [LAST], shot.execs + [0], shot.run));
    assert shot.execs + [0] + [1] == shot.execs + [0, 1];
    StepRunsTo(s', AFinish(0, Done, []), [], shot.execs + [0, 1]);
    StepRunsTo(s, AFinish(0, Done, []), [AFinish(0, Done, [])], shot.execs + [0, 1]);
  }

  /** The tab is left with a call, left again with another one, and approved. */
  function OnTwoCalls(a: Row, b: Row, rest: seq<Action>): seq<Action> {
    [LeaveTab(TAB, a)] + ([LeaveTab(TAB, b)] + ([AStepApprove(TAB)] + rest))
  }

  /** Whatever the rows are, these actions lead from the first call executing to these executions. */
  ghost predicate GoesOn(rest: seq<Action>, execs: seq<nat>) {
    forall s: Db :: Shows(s, Shot([Executing, Proposed], [WAITING], [], AwaitingDecision)) ==> RunsTo(s, rest, execs)
  }

  lemma TabRuns(a: Row, b: Row, rest: seq<Action>, execs: seq<nat>)
    requires ProposedOnTab(a) && ProposedOnTab(b) && GoesOn(rest, execs)
    ensures RunsTo(EMPTY, OnTwoCalls(a, b, rest), execs)
  {
    Left(EMPTY, Shot([], [], [], Queued), a);
    var s1 := Next(EMPTY, LeaveTab(TAB, a));
    assert [] + [Proposed] == [Proposed];
    Left(s1, Shot([Proposed], [], [], AwaitingDecision), b);
    var s2 := Next(s1, LeaveTab(TAB, b));
    assert [Proposed] + [Proposed] == [Proposed, Proposed];
    TabApproved(s2);
    StepRunsTo(s2, AStepApprove(TAB), rest, execs);
    StepRunsTo(s1, LeaveTab(TAB, b), [AStepApprove(TAB)] + rest, execs);
    StepRunsTo(EMPTY, LeaveTab(TAB, a), [LeaveTab(TAB, b)] + ([AStepApprove(TAB)] + rest), execs);
  }

  lemma OnceIn()
    ensures Times([0, 1], 1) == 1
  {
    TimesSnoc([], 0, 1);
    TimesSnoc([0], 1, 1);
    assert [] + [0] == [0] && [0] + [1] == [0, 1];
  }

  lemma TwiceIn()
    ensures Times([1, 0, 1], 1) == 2
  {
    TimesConcat([1], [0, 1], 1);
    TimesSnoc([], 1, 1);
    assert [] + [1] == [1] && [1] + [0, 1] == [1, 0, 1];
    OnceIn();
  }

  /** The second call is approved on its own while the first one executes, and runs to its end. The bundle then
      approves and executes it again: two executions of one call, with no edit. */
  function ExecutesTwice(a: Row, b: Row): seq<Action> {
    OnTwoCalls(a, b, [AApprove(1, b.args)] + ([AFinish(1, Done, [])] + BUNDLED))
  }

  lemma ExecutedOnceRuns(s: Db)
    requires Shows(s, Shot([Executing, Executing], [WAITING, Single(1, AwaitingDecision)], [], AwaitingDecision))
    ensures RunsTo(s, [AFinish(1, Done, [])] + BUNDLED, [1, 0, 1])
  {
    SecondExecuted(s);
    BundleRuns(Next(s, AFinish(1, Done, [])), Shot([Executing, Succeeded], [WAITING], [1], Completed));
    assert [1] + [0, 1] == [1, 0, 1];
    StepRunsTo(s, AFinish(1, Done, []), BUNDLED, [1, 0, 1]);
  }

  lemma ApprovedTwiceRuns(s: Db, args: Json)
    requires Shows(s, Shot([Executing, Proposed], [WAITING], [], AwaitingDecision))
    ensures RunsTo(s, [AApprove(1, args)] + ([AFinish(1, Done, [])] + BUNDLED), [1, 0, 1])
  {
    SecondApproved(s, args);
    ExecutedOnceRuns(Next(s, AApprove(1, args)));
    StepRunsTo(s, AApprove(1, args), [AFinish(1, Done, [])] + BUNDLED, [1, 0, 1]);
  }

  lemma BundleExecutesTwice(a: Row, b: Row)
    requires ProposedOnTab(a) && ProposedOnTab(b)
    ensures var acts := ExecutesTwice(a, b);
            ValidRun(EMPTY, acts) && Executions(After(EMPTY, acts), 1) == 2 && Edits(After(EMPTY, acts), 1) == 0
  {
    var meanwhile := [AApprove(1, b.args)] + ([AFinish(1, Done, [])] + BUNDLED);
    forall s: Db | Shows(s, Shot([Executing, Proposed], [WAITING], [], AwaitingDecision))
      ensures RunsTo(s, meanwhile, [1, 0, 1])
    {
      ApprovedTwiceRuns(s, b.args);
    }
    TabRuns(a, b, meanwhile, [1, 0, 1]);
    TwiceIn();
    CountMember(After(EMPTY, ExecutesTwice(a, b)).log, ToolEdited(1));
  }

  /** The same gap with a reject: the second call is rejected while the first one executes, and then executed. */
  function ExecutesRejected(a: Row, b: Row): seq<Action> {
    OnTwoCalls(a, b, [AReject(1)] + BUNDLED)
  }

  lemma BundleExecutesRejected(a: Row, b: Row)
    requires ProposedOnTab(a) && ProposedOnTab(b)
    ensures ValidRun(EMPTY, ExecutesRejected(a, b))
    ensures Executions(After(EMPTY, ExecutesRejected(a, b)), 1) == 1
  {
    var meanwhile := [AReject(1)] + BUNDLED;
    forall s: Db | Shows(s, Shot([Executing, Proposed], [WAITING], [], AwaitingDecision))
      ensures RunsTo(s, meanwhile, [0, 1])
    {
      SecondRejected(s);
      BundleRuns(Next(s, AReject(1)), Shot([Executing, Rejected], [WAITING], [], AwaitingDecision));
      assert [] + [0, 1] == [0, 1];
      StepRunsTo(s, AReject(1), BUNDLED, [0, 1]);
    }
    TabRuns(a, b, meanwhile, [0, 1]);
    OnceIn();
  }

  // ----- the status a request remembers -----

  /** The user cancels the run, as the handler commits it. */
  const CANCEL := ACommit([], [RunError("cancelled")], Cancelled)

  /** The user leaves a tab without a call. */
  const PASS := ACommit([], [AdvanceEvent("review", "approved")] + [] + [RunCompleted], Completed)

  /** A run that ends with this status. */
  predicate EndsAs(s: Db, acts: seq<Action>, run: RunStatus) {
    ValidRun(s, acts) && After(s, acts).run == run
  }

  lemma StepEndsAs(s: Db, a: Action, rest: seq<Action>, run: RunStatus)
    requires Enabled(s, a) && EndsAs(Next(s, a), rest, run)
    ensures EndsAs(s, [a] + rest, run)
  {
    assert ([a] + rest)[1..] == rest;
  }

  lemma Logs(s: Db, shot: Shot, events: seq<Event>, run: RunStatus)
    requires Shows(s, shot) && AllNeutral(events)
    ensures Leads(s, ACommit([], events, run), shot.(run := run))
  {
    NothingRan([], s);
    assert s.rows + [] == s.rows;
  }

  lemma FirstApproved(s: Db, args: Json, run: RunStatus)
    requires Shows(s, Shot([Proposed], [], [], run))
    ensures Leads(s, AApprove(0, args), Shot([Executing], [Single(0, run)], [], run))
  {
  }

  lemma FirstFinished(s: Db, shot: Shot, seen: RunStatus)
    requires Shows(s, shot) && shot.calls != [] && shot.tasks == [Single(0, seen)]
    ensures EndsAs(s, [AFinish(0, Done, [])], Settle(seen, shot.run))
  {
    StepEndsAs(s, AFinish(0, Done, []), [], Settle(seen, shot.run));
    assert [AFinish(0, Done, [])] + [] == [AFinish(0, Done, [])];
  }

  /** A call is approved, the run is cancelled while its tool runs, and the end of the tool completes the run. */
  lemma CancelledRunCompletes(row: Row)
    requires ProposedOnTab(row)
    ensures EndsAs(EMPTY, [LeaveTab(TAB, row)] + ([AApprove(0, row.args)] + [CANCEL]), Cancelled)
    ensures EndsAs(EMPTY, [LeaveTab(TAB, row)] + ([AApprove(0, row.args)] + ([CANCEL] + [AFinish(0, Done, [])])),
                   Completed)
  {
    var leave, approve, finish := LeaveTab(TAB, row), AApprove(0, row.args), AFinish(0, Done, []);
    var waits := AwaitingDecision;
    Left(EMPTY, Shot([], [], [], Queued), row);
    assert [] + [Proposed] == [Proposed];
    var s1 := Next(EMPTY, leave);
    FirstApproved(s1, row.args, waits);
    var s2 := Next(s1, approve);
    Logs(s2, Shot([Executing], [Single(0, waits)], [], waits), CANCEL.events, Cancelled);
    var s3 := Next(s2, CANCEL);
    FirstFinished(s3, Shot([Executing], [Single(0, waits)], [], Cancelled), waits);
    StepEndsAs(s2, CANCEL, [], Cancelled);
    assert [CANCEL] + [] == [CANCEL];
    StepEndsAs(s2, CANCEL, [finish], Completed);
    StepEndsAs(s1, approve, [CANCEL], Cancelled);
    StepEndsAs(s1, approve, [CANCEL] + [finish], Completed);
    StepEndsAs(EMPTY, leave, [approve] + [CANCEL], Cancelled);
    StepEndsAs(EMPTY, leave, [approve] + ([CANCEL] + [finish]), Completed);
  }

  /** The converse: a call that was left over when the run completed is approved, leaving a tab makes the run wait, and
      the end of the tool leaves it waiting. */
  lemma ReopenedRunStaysWaiting(row: Row, other: Row)
    requires ProposedOnTab(row) && ProposedOnTab(other)
    ensures EndsAs(EMPTY,
                   [LeaveTab(TAB, row)]
                   + ([PASS] + ([AApprove(0, row.args)] + ([LeaveTab(TAB, other)] + [AFinish(0, Done, [])]))),
                   AwaitingDecision)
  {
    var leave, approve, again, finish := LeaveTab(TAB, row), AApprove(0, row.args), LeaveTab(TAB, other),
                                         AFinish(0, Done, []);
    Left(EMPTY, Shot([], [], [], Queued), row);
    assert [] + [Proposed] == [Proposed];
    var s1 := Next(EMPTY, leave);
    Logs(s1, Shot([Proposed], [], [], AwaitingDecision), PASS.events, Completed);
    var s2 := Next(s1, PASS);
    FirstApproved(s2, row.args, Completed);
    var s3 := Next(s2, approve);
    Left(s3, Shot([Executing], [Single(0, Completed)], [], Completed), other);
    var s4 := Next(s3, again);
    FirstFinished(s4, Shot([Executing] + [Proposed], [Single(0, Completed)], [], AwaitingDecision), Completed);
    StepEndsAs(s3, again, [finish], AwaitingDecision);
    StepEndsAs(s2, approve, [again] + [finish], AwaitingDecision);
    StepEndsAs(s1, PASS, [approve] + ([again] + [finish]), AwaitingDecision);
    StepEndsAs(EMPTY, leave, [PASS] + ([approve] + ([again] + [finish])), AwaitingDecision);
  }
}
