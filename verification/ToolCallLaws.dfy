/** What every interleaving of runner commits, decisions and executions keeps. */
module ToolCallLaws {
  import opened Json
  import opened ToolCalls

  /** The accounts of one call. Every approved event is an execution, a running approval or one that never ran
      (executions by the runner need no approval); and every opening of the call, by its creation or by an edit
      of a closed call, is used up by one approval, one reject, one runner execution or one lost edit, unless the
      call is still open. An approval of a closed call is an opening nobody made. */
  predicate Balanced(s: Db, id: nat) {
    && Approvals(s, id) + Times(s.past.byRunner, id) == Executions(s, id) + InFlight(s, id) + Times(s.past.aborted, id)
    && Approvals(s, id) + Times(s.past.byRunner, id) + Times(s.past.openRejects, id) + Times(s.past.lostEdits, id)
       + OpenCount(s, id) == (if id < |s.rows| then 1 else 0) + Times(s.past.reopened, id) + Times(s.past.stale, id)
    && Times(s.past.reopened, id) <= Edits(s, id)
    && Times(s.past.openRejects, id) <= Rejects(s, id)
    && Times(s.past.byRunner, id) <= 1
    && (id >= |s.rows| ==> Times(s.past.reopened, id) == 0 && Times(s.past.stale, id) == 0)
    && (id < |s.rows| && s.rows[id].requiresApproval ==> Times(s.past.byRunner, id) == 0)
  }

  /** The executions of a call up to and including the i-th execution overall each had an approval before. */
  predicate Justified(s: Db, i: nat)
    requires i < |s.past.execs| && |s.past.execAt| == |s.past.execs|
  {
    var id := s.past.execs[i];
    && id < |s.rows|
    && s.past.execAt[i] <= |s.log|
    && Times(s.past.execs[..i + 1], id)
       <= Count(s.log[..s.past.execAt[i]], ToolApproved(id)) + Times(s.past.byRunner, id)
  }

  predicate TasksFit(s: Db) {
    forall i :: 0 <= i < |s.tasks| ==> TaskFits(s, s.tasks[i])
  }

  ghost predicate Inv(s: Db) {
    && TasksFit(s)
    && |s.past.execAt| == |s.past.execs|
    && (forall id: nat :: Balanced(s, id))
    && (forall i :: 0 <= i < |s.past.execs| ==> Justified(s, i))
  }

  // ----- each block keeps the accounts -----

  /** What one event adds to the three counts of a call. */
  lemma LogSnoc(log: seq<Event>, e: Event, id: nat)
    ensures Count(log + [e], ToolApproved(id)) == Count(log, ToolApproved(id)) + (if e == ToolApproved(id) then 1 else 0)
    ensures Count(log + [e], ToolEdited(id)) == Count(log, ToolEdited(id)) + (if e == ToolEdited(id) then 1 else 0)
    ensures Count(log + [e], ToolRejected(id)) == Count(log, ToolRejected(id)) + (if e == ToolRejected(id) then 1 else 0)
  {
    CountSnoc(log, e, ToolApproved(id));
    CountSnoc(log, e, ToolEdited(id));
    CountSnoc(log, e, ToolRejected(id));
  }

  lemma {:induction false} NeutralCounts(log: seq<Event>, events: seq<Event>, id: nat)
    requires AllNeutral(events)
    ensures Count(log + events, ToolApproved(id)) == Count(log, ToolApproved(id))
    ensures Count(log + events, ToolEdited(id)) == Count(log, ToolEdited(id))
    ensures Count(log + events, ToolRejected(id)) == Count(log, ToolRejected(id))
  {
    if events == [] {
      assert log + events == log;
    } else {
      var init, e := events[..|events| - 1], events[|events| - 1];
      assert e in events && forall x :: x in init ==> x in events;
      NeutralCounts(log, init, id);
      assert log + events == (log + init) + [e];
      LogSnoc(log + init, e, id);
    }
  }

  lemma CommitRow(s: Db, batch: seq<NewRow>, events: seq<Event>, run: RunStatus, id: nat)
    requires Enabled(s, ACommit(batch, events, run))
    ensures var r := Commit(s, batch, events, run);
            var isNew := |s.rows| <= id < |s.rows| + |batch|;
            && |r.rows| == |s.rows| + |batch|
            && OpenCount(r, id) == (if isNew then if batch[id - |s.rows|].ran then 0 else 1 else OpenCount(s, id))
            && (isNew && r.rows[id].requiresApproval ==> !batch[id - |s.rows|].ran)
            && (id < |s.rows| ==> r.rows[id] == s.rows[id])
  {
    if |s.rows| <= id < |s.rows| + |batch| {
      assert batch[id - |s.rows|] in batch;
    }
  }

  lemma CommitCounts(s: Db, batch: seq<NewRow>, events: seq<Event>, run: RunStatus, id: nat)
    requires Enabled(s, ACommit(batch, events, run))
    ensures var r := Commit(s, batch, events, run);
            var ran := if |s.rows| <= id < |s.rows| + |batch| && batch[id - |s.rows|].ran then 1 else 0;
            && Executions(r, id) == Executions(s, id) + ran
            && Times(r.past.byRunner, id) == Times(s.past.byRunner, id) + ran
            && Approvals(r, id) == Approvals(s, id) && Edits(r, id) == Edits(s, id) && Rejects(r, id) == Rejects(s, id)
  {
    var ran := RanIds(batch, |s.rows|);
    RanOnce(batch, |s.rows|, id);
    TimesConcat(s.past.execs, ran, id);
    TimesConcat(s.past.byRunner, ran, id);
    NeutralCounts(s.log, events, id);
  }

  lemma CommitBalanced(s: Db, batch: seq<NewRow>, events: seq<Event>, run: RunStatus, id: nat)
    requires Enabled(s, ACommit(batch, events, run)) && Balanced(s, id)
    ensures Balanced(Commit(s, batch, events, run), id)
  {
    CommitRow(s, batch, events, run, id);
    CommitCounts(s, batch, events, run, id);
  }

  lemma LoggedBalanced(s: Db, events: seq<Event>, run: RunStatus, id: nat)
    requires AllNeutral(events) && Balanced(s, id)
    ensures Balanced(Logged(s, events, run), id)
  {
    NeutralCounts(s.log, events, id);
  }

  lemma RejectBalanced(s: Db, j: nat, id: nat)
    requires j < |s.rows| && Balanced(s, id)
    ensures Balanced(Reject(s, j), id)
  {
    LogSnoc(s.log, ToolRejected(j), id);
    TimesNote(s.past.openRejects, Open(s, j), j, id);
  }

  lemma {:induction false} RejectAllBalanced(s: Db, ids: seq<nat>, id: nat)
    requires InTable(ids, |s.rows|) && Balanced(s, id)
    ensures Balanced(RejectAll(s, ids), id)
    decreases |ids|
  {
    if ids != [] {
      RejectBalanced(s, ids[0], id);
      RejectAllBalanced(Reject(s, ids[0]), ids[1..], id);
    }
  }

  lemma StepRejectBalanced(s: Db, stepId: string, id: nat)
    requires Balanced(s, id)
    ensures Balanced(StepReject(s, stepId), id)
  {
    var ids := OpenIn(s.rows, stepId);
    if ids != [] {
      RejectAllBalanced(s, ids, id);
      var r := RejectAll(s, ids);
      LoggedBalanced(r, [AdvanceEvent(stepId, "rejected"), RunCompleted], Settle(s.run, r.run), id);
    }
  }

  lemma EditBalanced(s: Db, j: nat, args: Json, id: nat)
    requires j < |s.rows| && Balanced(s, id)
    ensures Balanced(Edit(s, j, args), id)
  {
    LogSnoc(s.log, ToolEdited(j), id);
    TimesNote(s.past.reopened, !Open(s, j), j, id);
  }

  lemma BeginLogs(log: seq<Event>, j: nat, id: nat)
    ensures var log' := log + [ToolApproved(j)] + [ToolStarted(j)];
            && Count(log', ToolApproved(id)) == Count(log, ToolApproved(id)) + (if j == id then 1 else 0)
            && Count(log', ToolEdited(id)) == Count(log, ToolEdited(id))
            && Count(log', ToolRejected(id)) == Count(log, ToolRejected(id))
  {
    LogSnoc(log, ToolApproved(j), id);
    LogSnoc(log + [ToolApproved(j)], ToolStarted(j), id);
  }

  /** An approval put in flight keeps the accounts once its task is listed. */
  lemma BeginBalanced(s: Db, j: nat, i: nat, t: Task, id: nat)
    requires j < |s.rows| && t.id == j && i <= |s.tasks| && Balanced(s, id)
    ensures Balanced(Begin(s, j).(tasks := PutTask(s.tasks, i, t)), id)
  {
    CurrentAt(s.tasks, i, t, id);
    BeginLogs(s.log, j, id);
    TimesNote(s.past.stale, !Open(s, j), j, id);
  }

  lemma BeginLast(s: Db, j: nat, t: Task, id: nat)
    requires j < |s.rows| && t.id == j && Balanced(s, id)
    ensures Balanced(Begin(s, j).(tasks := s.tasks + [t]), id)
  {
    BeginBalanced(s, j, |s.tasks|, t, id);
    assert PutTask(s.tasks, |s.tasks|, t) == s.tasks + [t];
  }

  /** A task that leaves the list takes its call out of flight. */
  lemma DropCounts(s: Db, i: nat, id: nat)
    requires i < |s.tasks|
    ensures InFlight(s, id) == Current(DropTask(s.tasks, i), id) + (if s.tasks[i].id == id then 1 else 0)
  {
    var d := DropTask(s.tasks, i);
    CurrentAt(d, i, s.tasks[i], id);
    assert d[..i] + [s.tasks[i]] + d[i..] == s.tasks;
  }

  /** A task that executes its call turns a running approval into an execution. */
  lemma DroppedBalanced(s: Db, i: nat, id: nat)
    requires i < |s.tasks| && Balanced(s, id)
    ensures Balanced(Dropped(s, i), id)
  {
    DropCounts(s, i, id);
    TimesSnoc(s.past.execs, s.tasks[i].id, id);
  }

  lemma StoreBalanced(s: Db, j: nat, id: nat)
    requires j < |s.rows| && Balanced(s, id)
    ensures Balanced(StoreResult(s, j), id)
  {
    LogSnoc(s.log, ToolCompleted(j), id);
    TimesNote(s.past.lostEdits, Open(s, j), j, id);
  }

  lemma DoneBalanced(s: Db, i: nat, id: nat)
    requires i < |s.tasks| && TaskFits(s, s.tasks[i]) && Balanced(s, id)
    ensures Balanced(Settled(s, i), id)
  {
    DroppedBalanced(s, i, id);
    StoreBalanced(Dropped(s, i), s.tasks[i].id, id);
  }

  lemma NeverRanBalanced(s: Db, i: nat, events: seq<Event>, id: nat)
    requires i < |s.tasks| && TaskFits(s, s.tasks[i]) && Balanced(s, id)
    ensures Balanced(Finish(s, i, NeverRan, events), id)
  {
    DropCounts(s, i, id);
    TimesSnoc(s.past.aborted, s.tasks[i].id, id);
  }

  lemma TailNeutral(stepId: string, entered: seq<Event>)
    requires AllNeutral(entered)
    ensures AllNeutral(ApprovedTail(stepId, entered))
  {
  }

  lemma BundleEndBalanced(s: Db, i: nat, events: seq<Event>, id: nat)
    requires i < |s.tasks| && TaskFits(s, s.tasks[i]) && AllNeutral(events)
    requires s.tasks[i].Bundle? && s.tasks[i].rest == [] && Balanced(s, id)
    ensures Balanced(Finish(s, i, Done, events), id)
  {
    DoneBalanced(s, i, id);
    TailNeutral(s.tasks[i].stepId, events);
    var d, tail := Settled(s, i), ApprovedTail(s.tasks[i].stepId, events);
    LoggedBalanced(d, tail, Settle(s.tasks[i].seen, d.run), id);
  }

  lemma BundleNextBalanced(s: Db, i: nat, events: seq<Event>, id: nat)
    requires i < |s.tasks| && TaskFits(s, s.tasks[i]) && AllNeutral(events)
    requires s.tasks[i].Bundle? && s.tasks[i].rest != [] && Balanced(s, id)
    ensures Balanced(Finish(s, i, Done, events), id)
  {
    DoneBalanced(s, i, id);
    var rest := s.tasks[i].rest;
    var t := s.tasks[i];
    BeginBalanced(Settled(s, i), rest[0], i, Bundle(rest[0], t.stepId, rest[1..], t.seen), id);
  }

  lemma RunBalanced(s: Db, run: RunStatus, id: nat)
    requires Balanced(s, id)
    ensures Balanced(s.(run := run), id)
  {
  }

  lemma SingleDoneBalanced(s: Db, i: nat, events: seq<Event>, id: nat)
    requires i < |s.tasks| && TaskFits(s, s.tasks[i]) && AllNeutral(events)
    requires s.tasks[i].Single? && Balanced(s, id)
    ensures Balanced(Finish(s, i, Done, events), id)
  {
    DoneBalanced(s, i, id);
    RunBalanced(Settled(s, i), Settle(s.tasks[i].seen, Settled(s, i).run), id);
  }

  lemma FinishBalanced(s: Db, i: nat, outcome: Outcome, events: seq<Event>, id: nat)
    requires Enabled(s, AFinish(i, outcome, events)) && Balanced(s, id)
    ensures Balanced(Finish(s, i, outcome, events), id)
  {
    match outcome
    case NeverRan => NeverRanBalanced(s, i, events, id);
    case Broke => DroppedBalanced(s, i, id);
    case Done =>
      if s.tasks[i].Single? {
        SingleDoneBalanced(s, i, events, id);
      } else if s.tasks[i].rest == [] {
        BundleEndBalanced(s, i, events, id);
      } else {
        BundleNextBalanced(s, i, events, id);
      }
  }

  lemma StepBalanced(s: Db, a: Action, id: nat)
    requires Enabled(s, a) && Balanced(s, id)
    ensures Balanced(Next(s, a), id)
  {
    match a
    case ACommit(batch, events, run) => CommitBalanced(s, batch, events, run, id);
    case AReject(j) => RejectBalanced(s, j, id);
    case AEdit(j, args) => EditBalanced(s, j, args, id);
    case AApprove(j, args) =>
      var s' := s.(rows := s.rows[j := s.rows[j].(args := args)]);
      assert Balanced(s', id);
      BeginLast(s', j, Single(j, s.run), id);
    case AStepReject(stepId) => StepRejectBalanced(s, stepId, id);
    case AStepApprove(stepId) =>
      var ids := OpenIn(s.rows, stepId);
      if ids != [] {
        BeginLast(s, ids[0], Bundle(ids[0], stepId, ids[1..], s.run), id);
      }
    case AFinish(i, outcome, events) => FinishBalanced(s, i, outcome, events, id);
  }

  // ----- the invariant, over every run -----

  /** Tables only grow: rows, log and executions of the past stay, and rows keep what they require. */
  ghost predicate Extends(s: Db, s': Db) {
    && |s.rows| <= |s'.rows|
    && s.log <= s'.log && s.past.execs <= s'.past.execs && s.past.execAt <= s'.past.execAt
    && s.past.byRunner <= s'.past.byRunner
    && (forall id :: 0 <= id < |s.rows| ==> s'.rows[id].requiresApproval == s.rows[id].requiresApproval)
  }

  lemma {:induction false} RejectAllExtends(s: Db, ids: seq<nat>)
    requires InTable(ids, |s.rows|)
    ensures Extends(s, RejectAll(s, ids))
    ensures RejectAll(s, ids).past.execs == s.past.execs && RejectAll(s, ids).past.execAt == s.past.execAt
    ensures RejectAll(s, ids).tasks == s.tasks
    decreases |ids|
  {
    if ids != [] {
      RejectAllExtends(Reject(s, ids[0]), ids[1..]);
    }
  }

  lemma CommitExtends(s: Db, batch: seq<NewRow>, events: seq<Event>, run: RunStatus)
    ensures Extends(s, Commit(s, batch, events, run))
  {
  }

  lemma BeginExtends(s: Db, id: nat)
    requires id < |s.rows|
    ensures Extends(s, Begin(s, id))
  {
  }

  lemma SettledExtends(s: Db, i: nat)
    requires i < |s.tasks| && TaskFits(s, s.tasks[i])
    ensures Extends(s, Settled(s, i))
  {
  }

  lemma FinishExtends(s: Db, i: nat, outcome: Outcome, events: seq<Event>)
    requires Enabled(s, AFinish(i, outcome, events))
    ensures Extends(s, Finish(s, i, outcome, events))
  {
    if outcome == Done {
      SettledExtends(s, i);
      if s.tasks[i].Bundle? && s.tasks[i].rest != [] {
        BeginExtends(Settled(s, i), s.tasks[i].rest[0]);
      }
    }
  }

  lemma StepExtends(s: Db, a: Action)
    requires Enabled(s, a)
    ensures Extends(s, Next(s, a))
  {
    match a
    case ACommit(batch, events, run) => CommitExtends(s, batch, events, run);
    case AStepReject(stepId) => RejectAllExtends(s, OpenIn(s.rows, stepId));
    case AFinish(i, outcome, events) => FinishExtends(s, i, outcome, events);
    case AStepApprove(stepId) =>
      if OpenIn(s.rows, stepId) != [] {
        BeginExtends(s, OpenIn(s.rows, stepId)[0]);
      }
    case AApprove(id, args) => BeginExtends(s.(rows := s.rows[id := s.rows[id].(args := args)]), id);
    case _ =>
  }

  lemma PrefixTimes(s: seq<nat>, n: nat, id: nat)
    requires n <= |s|
    ensures Times(s[..n], id) <= Times(s, id)
  {
    TimesConcat(s[..n], s[n..], id);
    assert s == s[..n] + s[n..];
  }

  lemma JustifiedStays(s: Db, s': Db, i: nat)
    requires Extends(s, s') && |s.past.execAt| == |s.past.execs| && |s'.past.execAt| == |s'.past.execs|
    requires i < |s.past.execs| && Justified(s, i)
    ensures Justified(s', i)
  {
    assert s'.past.execs[..i + 1] == s.past.execs[..i + 1];
    assert s'.log[..s.past.execAt[i]] == s.log[..s.past.execAt[i]];
    PrefixTimes(s'.past.byRunner, |s.past.byRunner|, s.past.execs[i]);
    assert s'.past.byRunner[..|s.past.byRunner|] == s.past.byRunner;
  }

  lemma NewUntouched(s: Db, id: nat)
    requires Inv(s) && |s.rows| <= id
    ensures Executions(s, id) == 0
  {
    assert Balanced(s, id);
  }

  /** What the runner has executed in a commit is a new call, at the end of the log so far. */
  lemma RanNew(s: Db, batch: seq<NewRow>, events: seq<Event>, run: RunStatus, i: nat)
    requires |s.past.execAt| == |s.past.execs|
    requires |s.past.execs| <= i < |Commit(s, batch, events, run).past.execs|
    ensures var s', j := Commit(s, batch, events, run), i - |s.past.execs|;
            var id := s'.past.execs[i];
            && id == RanIds(batch, |s.rows|)[j] && s'.past.execAt[i] == |s.log|
            && |s.rows| <= id < |s.rows| + |batch| && batch[id - |s.rows|].ran
  {
    var ran := RanIds(batch, |s.rows|);
    var id := ran[i - |s.past.execs|];
    RanOnce(batch, |s.rows|, id);
    TimesMember(ran, id);
  }

  /** An execution by the runner is the first one of its call. */
  lemma RunnerExecJustified(s: Db, batch: seq<NewRow>, events: seq<Event>, run: RunStatus, i: nat)
    requires Inv(s) && Enabled(s, ACommit(batch, events, run))
    requires |s.past.execs| <= i < |Commit(s, batch, events, run).past.execs|
    ensures Justified(Commit(s, batch, events, run), i)
  {
    var s' := Commit(s, batch, events, run);
    RanNew(s, batch, events, run, i);
    var id := s'.past.execs[i];
    NewUntouched(s, id);
    CommitCounts(s, batch, events, run, id);
    PrefixTimes(s'.past.execs, i + 1, id);
  }

  /** An execution of an approved call uses an approval no earlier execution used. */
  lemma ApprovedExecJustified(s: Db, i: nat, outcome: Outcome, events: seq<Event>)
    requires Inv(s) && Enabled(s, AFinish(i, outcome, events)) && outcome != NeverRan
    ensures Justified(Executed(s, s.tasks[i].id), |s.past.execs|)
  {
    var id := s.tasks[i].id;
    var s' := Executed(s, id);
    DropCounts(s, i, id);
    assert Balanced(s, id);
    assert s'.past.execs[..|s.past.execs| + 1] == s.past.execs + [id];
    TimesSnoc(s.past.execs, id, id);
    assert s'.log[..|s.log|] == s.log;
  }

  lemma FinishExtendsExecuted(s: Db, i: nat, outcome: Outcome, events: seq<Event>)
    requires Enabled(s, AFinish(i, outcome, events)) && outcome != NeverRan
    ensures Extends(Executed(s, s.tasks[i].id), Finish(s, i, outcome, events))
    ensures Finish(s, i, outcome, events).past.execs == s.past.execs + [s.tasks[i].id]
    ensures Finish(s, i, outcome, events).past.execAt == s.past.execAt + [|s.log|]
  {
  }

  lemma FinishJustified(s: Db, i: nat, outcome: Outcome, events: seq<Event>)
    requires Inv(s) && Enabled(s, AFinish(i, outcome, events)) && outcome != NeverRan
    ensures var s' := Finish(s, i, outcome, events);
            |s'.past.execs| == |s'.past.execAt| == |s.past.execs| + 1 && Justified(s', |s.past.execs|)
  {
    var id := s.tasks[i].id;
    ApprovedExecJustified(s, i, outcome, events);
    FinishExtendsExecuted(s, i, outcome, events);
    JustifiedStays(Executed(s, id), Finish(s, i, outcome, events), |s.past.execs|);
  }

  /** A block that executes nothing leaves every execution justified. */
  lemma SameExecsJustified(s: Db, s': Db)
    requires Inv(s) && Extends(s, s') && s'.past.execs == s.past.execs && s'.past.execAt == s.past.execAt
    ensures forall i :: 0 <= i < |s'.past.execs| ==> Justified(s', i)
  {
    forall i | 0 <= i < |s'.past.execs| ensures Justified(s', i) {
      JustifiedStays(s, s', i);
    }
  }

  lemma CommitJustified(s: Db, batch: seq<NewRow>, events: seq<Event>, run: RunStatus)
    requires Inv(s) && Enabled(s, ACommit(batch, events, run))
    ensures var s' := Commit(s, batch, events, run);
            |s'.past.execAt| == |s'.past.execs| && forall i :: 0 <= i < |s'.past.execs| ==> Justified(s', i)
  {
    var s' := Commit(s, batch, events, run);
    CommitExtends(s, batch, events, run);
    forall i | 0 <= i < |s'.past.execs| ensures Justified(s', i) {
      if i < |s.past.execs| {
        JustifiedStays(s, s', i);
      } else {
        RunnerExecJustified(s, batch, events, run, i);
      }
    }
  }

  lemma TaskJustified(s: Db, t: nat, outcome: Outcome, events: seq<Event>)
    requires Inv(s) && Enabled(s, AFinish(t, outcome, events))
    ensures var s' := Finish(s, t, outcome, events);
            |s'.past.execAt| == |s'.past.execs| && forall i :: 0 <= i < |s'.past.execs| ==> Justified(s', i)
  {
    var s' := Finish(s, t, outcome, events);
    FinishExtends(s, t, outcome, events);
    if outcome != NeverRan {
      FinishJustified(s, t, outcome, events);
    }
    forall i | 0 <= i < |s'.past.execs| ensures Justified(s', i) {
      if i < |s.past.execs| {
        JustifiedStays(s, s', i);
      }
    }
  }

  lemma StepJustified(s: Db, a: Action)
    requires Inv(s) && Enabled(s, a)
    ensures |Next(s, a).past.execAt| == |Next(s, a).past.execs|
    ensures forall i :: 0 <= i < |Next(s, a).past.execs| ==> Justified(Next(s, a), i)
  {
    match a
    case ACommit(batch, events, run) => CommitJustified(s, batch, events, run);
    case AFinish(t, outcome, events) => TaskJustified(s, t, outcome, events);
    case AStepReject(stepId) =>
      RejectAllExtends(s, OpenIn(s.rows, stepId));
      StepExtends(s, a);
      SameExecsJustified(s, Next(s, a));
    case _ =>
      StepExtends(s, a);
      SameExecsJustified(s, Next(s, a));
  }

  lemma FinishTasksFit(s: Db, i: nat, outcome: Outcome, events: seq<Event>)
    requires TasksFit(s) && Enabled(s, AFinish(i, outcome, events))
    ensures TasksFit(Finish(s, i, outcome, events))
  {
    var s' := Finish(s, i, outcome, events);
    assert |s'.rows| == |s.rows|;
    forall k | 0 <= k < |s'.tasks| ensures TaskFits(s', s'.tasks[k]) {
      assert k < |s.tasks| ==> TaskFits(s, s.tasks[k]);
      assert k + 1 < |s.tasks| ==> TaskFits(s, s.tasks[k + 1]);
    }
  }

  lemma StepTasksFit(s: Db, a: Action)
    requires TasksFit(s) && Enabled(s, a)
    ensures TasksFit(Next(s, a))
  {
    match a
    case AStepReject(stepId) => RejectAllExtends(s, OpenIn(s.rows, stepId));
    case AFinish(i, outcome, events) => FinishTasksFit(s, i, outcome, events);
    case _ =>
  }

  lemma StepInv(s: Db, a: Action)
    requires Inv(s) && Enabled(s, a)
    ensures Inv(Next(s, a))
  {
    StepTasksFit(s, a);
    StepJustified(s, a);
    forall id: nat ensures Balanced(Next(s, a), id) {
      StepBalanced(s, a, id);
    }
  }

  /** The invariant holds after every run, whatever order the blocks of the runner and of the users commit in. */
  lemma {:induction false} RunInv(s: Db, acts: seq<Action>)
    requires Inv(s) && ValidRun(s, acts)
    ensures Inv(After(s, acts))
    decreases |acts|
  {
    if acts != [] {
      StepInv(s, acts[0]);
      RunInv(Next(s, acts[0]), acts[1..]);
    }
  }

  // ----- theorems about every run from an empty table -----

  /** Conservation: the executions of a call, together with its approvals still running, its approvals that
      never ran, its rejects while open, its lost edits and its being open, number exactly one, plus the edits
      that reopened it, plus the approvals a bundle gave it although it was closed. */
  lemma CallConservation(acts: seq<Action>, id: nat)
    requires ValidRun(EMPTY, acts) && id < |After(EMPTY, acts).rows|
    ensures var s := After(EMPTY, acts);
            Executions(s, id) + InFlight(s, id) + Times(s.past.aborted, id) + Times(s.past.openRejects, id)
            + Times(s.past.lostEdits, id) + OpenCount(s, id) == 1 + Times(s.past.reopened, id) + Times(s.past.stale, id)
  {
    RunInv(EMPTY, acts);
    assert Balanced(After(EMPTY, acts), id);
  }

  /** Executions never outnumber one plus the edits, unless a bundle approved the call while it was closed. */
  lemma ExecutionBound(acts: seq<Action>, id: nat)
    requires ValidRun(EMPTY, acts) && id < |After(EMPTY, acts).rows|
    ensures var s := After(EMPTY, acts);
            Executions(s, id) + OpenCount(s, id) <= 1 + Edits(s, id) + Times(s.past.stale, id)
  {
    CallConservation(acts, id);
    RunInv(EMPTY, acts);
    assert Balanced(After(EMPTY, acts), id);
  }

  /** The bound fails exactly when a bundle's approvals of the closed call outnumber what else can use up its openings
      and the edits that reopened nothing. */
  lemma ExecutionBoundExactly(acts: seq<Action>, id: nat)
    requires ValidRun(EMPTY, acts) && id < |After(EMPTY, acts).rows|
    ensures var s := After(EMPTY, acts);
            Executions(s, id) + OpenCount(s, id) <= 1 + Edits(s, id) <==>
            Times(s.past.stale, id)
            <= (Edits(s, id) - Times(s.past.reopened, id)) + InFlight(s, id) + Times(s.past.aborted, id)
               + Times(s.past.openRejects, id) + Times(s.past.lostEdits, id)
  {
    CallConservation(acts, id);
  }

  /** Approval comes first: when a call that requires approval executes for the n-th time, the log already holds at
      least n approved events for it, and the runner never executes it. */
  lemma ApprovalPrecedesExecution(acts: seq<Action>, i: nat)
    requires ValidRun(EMPTY, acts) && i < |After(EMPTY, acts).past.execs|
    requires var s := After(EMPTY, acts); s.past.execs[i] < |s.rows| && s.rows[s.past.execs[i]].requiresApproval
    ensures var s := After(EMPTY, acts);
            && |s.past.execAt| == |s.past.execs| && s.past.execAt[i] <= |s.log|
            && ToolApproved(s.past.execs[i]) in s.log[..s.past.execAt[i]]
            && Times(s.past.execs[..i + 1], s.past.execs[i])
               <= Count(s.log[..s.past.execAt[i]], ToolApproved(s.past.execs[i]))
            && Times(s.past.byRunner, s.past.execs[i]) == 0
  {
    RunInv(EMPTY, acts);
    var s := After(EMPTY, acts);
    assert Justified(s, i) && Balanced(s, s.past.execs[i]);
    var id, upTo := s.past.execs[i], s.past.execs[..i + 1];
    assert upTo[i] == id;
    TimesMember(upTo, id);
    CountMember(s.log[..s.past.execAt[i]], ToolApproved(id));
  }

  /** How often an opening of the call has been used up. */
  function Used(s: Db, id: nat): nat {
    Approvals(s, id) + Times(s.past.byRunner, id) + Times(s.past.openRejects, id) + Times(s.past.lostEdits, id)
  }

  /** A call is used at most once per opening exactly when no bundle approved it while it was closed. */
  lemma OneUsePerOpening(acts: seq<Action>, id: nat)
    requires ValidRun(EMPTY, acts) && id < |After(EMPTY, acts).rows|
    ensures var s := After(EMPTY, acts);
            Used(s, id) + OpenCount(s, id) <= 1 + Times(s.past.reopened, id) <==> Times(s.past.stale, id) == 0
  {
    RunInv(EMPTY, acts);
    var s := After(EMPTY, acts);
    assert Balanced(s, id);
    BalancedUse(s, id);
  }

  lemma BalancedUse(s: Db, id: nat)
    requires Balanced(s, id) && id < |s.rows|
    ensures Used(s, id) + OpenCount(s, id) == 1 + Times(s.past.reopened, id) + Times(s.past.stale, id)
  {
  }

  /** The only block that can approve a closed call is a bundle moving on to its next call, and it does so exactly
      when it finds that call closed: the status test that the single approval makes is the one missing there. */
  lemma StaleExactly(s: Db, a: Action, id: nat)
    requires Enabled(s, a)
    ensures Times(Next(s, a).past.stale, id) != Times(s.past.stale, id) <==>
            && a.AFinish? && a.outcome == Done
            && s.tasks[a.task].Bundle? && s.tasks[a.task].rest != [] && s.tasks[a.task].rest[0] == id
            && !Open(Settled(s, a.task), id)
  {
    match a
    case AStepReject(stepId) => RejectAllStale(s, OpenIn(s.rows, stepId));
    case AStepApprove(stepId) => OpenInExact(s.rows, stepId);
    case AFinish(i, outcome, _) =>
      if outcome == Done {
        var d, t := Settled(s, i), s.tasks[i];
        assert d.past.stale == s.past.stale;
        if t.Bundle? && t.rest != [] {
          TimesNote(s.past.stale, !Open(d, t.rest[0]), t.rest[0], id);
        }
      }
    case _ =>
  }

  lemma {:induction false} RejectAllStale(s: Db, ids: seq<nat>)
    requires InTable(ids, |s.rows|)
    ensures RejectAll(s, ids).past.stale == s.past.stale
    decreases |ids|
  {
    if ids != [] {
      RejectAllStale(Reject(s, ids[0]), ids[1..]);
    }
  }

  /** Every time a tab is approved in the run, it has at most one open call. */
  predicate SmallBundles(s: Db, acts: seq<Action>)
    requires ValidRun(s, acts)
    decreases |acts|
  {
    acts == [] ||
    ((acts[0].AStepApprove? ==> |OpenIn(s.rows, acts[0].stepId)| <= 1) && SmallBundles(Next(s, acts[0]), acts[1..]))
  }

  predicate NoneWaiting(s: Db) {
    forall i :: 0 <= i < |s.tasks| ==> s.tasks[i].Bundle? ==> s.tasks[i].rest == []
  }

  lemma StepNoneWaiting(s: Db, a: Action)
    requires Enabled(s, a) && NoneWaiting(s)
    requires a.AStepApprove? ==> |OpenIn(s.rows, a.stepId)| <= 1
    ensures NoneWaiting(Next(s, a))
  {
    match a
    case AStepReject(stepId) => RejectAllExtends(s, OpenIn(s.rows, stepId));
    case AFinish(i, outcome, events) =>
      var s' := Next(s, a);
      assert s'.tasks == DropTask(s.tasks, i);
      forall k | 0 <= k < |s'.tasks| ensures s'.tasks[k].Bundle? ==> s'.tasks[k].rest == [] {
        assert s'.tasks[k] == s.tasks[if k < i then k else k + 1];
      }
    case _ =>
  }

  lemma {:induction false} SmallBundlesNotStale(s: Db, acts: seq<Action>, id: nat)
    requires ValidRun(s, acts) && NoneWaiting(s) && SmallBundles(s, acts)
    ensures Times(After(s, acts).past.stale, id) == Times(s.past.stale, id)
    decreases |acts|
  {
    if acts != [] {
      StaleExactly(s, acts[0], id);
      StepNoneWaiting(s, acts[0]);
      SmallBundlesNotStale(Next(s, acts[0]), acts[1..], id);
    }
  }

  /** With one call per tab, the bound the decision endpoints are meant to give holds on every interleaving. */
  lemma ExecutionBoundSmallBundles(acts: seq<Action>, id: nat)
    requires ValidRun(EMPTY, acts) && SmallBundles(EMPTY, acts) && id < |After(EMPTY, acts).rows|
    ensures var s := After(EMPTY, acts); Executions(s, id) + OpenCount(s, id) <= 1 + Edits(s, id)
  {
    SmallBundlesNotStale(EMPTY, acts, id);
    ExecutionBound(acts, id);
  }

  // ----- what decisions do to the run and to a tab -----

  lemma {:induction false} RejectAllRejects(s: Db, ids: seq<nat>, id: nat)
    requires InTable(ids, |s.rows|) && id < |s.rows|
    ensures RejectAll(s, ids).rows[id].status == if id in ids then Rejected else s.rows[id].status
    ensures RejectAll(s, ids).rows[id].origin == s.rows[id].origin
    decreases |ids|
  {
    if ids != [] {
      RejectAllRejects(Reject(s, ids[0]), ids[1..], id);
      assert ids == [ids[0]] + ids[1..];
    }
  }

  /** Rejecting a tab closes all of its calls, as rejected, and leaves every other call's status alone. */
  lemma StepRejectCloses(s: Db, stepId: string, id: nat)
    requires id < |s.rows|
    ensures id < |StepReject(s, stepId).rows|
    ensures StepReject(s, stepId).rows[id].status
         == if OpenStatus(s.rows[id].status) && s.rows[id].origin == WorkflowStep(stepId) then Rejected
            else s.rows[id].status
    ensures id !in OpenIn(StepReject(s, stepId).rows, stepId)
  {
    var ids := OpenIn(s.rows, stepId);
    OpenInExact(s.rows, stepId);
    RejectAllRejects(s, ids, id);
    OpenInExact(StepReject(s, stepId).rows, stepId);
  }

  /** The blocks that finish what a user decided: a rejected tab, an approved call, the last call of an approved tab. */
  predicate Finishes(s: Db, a: Action)
    requires Enabled(s, a)
  {
    || (a.AStepReject? && OpenIn(s.rows, a.stepId) != [])
    || (a.AFinish? && a.outcome == Done && (s.tasks[a.task].Single? || s.tasks[a.task].rest == []))
  }

  /** The run status that the block acts on: what its request read when it began. */
  function Read(s: Db, a: Action): RunStatus
    requires Enabled(s, a)
  {
    if a.AFinish? then s.tasks[a.task].seen else s.run
  }

  /** Decisions and executions complete a run exactly when they finish what was decided and the run waited when the
      request began; otherwise they leave its status alone. A tab's decision ends the log with the completed event, a
      single call's does not. */
  lemma DecisionsSettle(s: Db, a: Action)
    requires Enabled(s, a) && !a.ACommit?
    ensures Next(s, a).run == if Finishes(s, a) && Read(s, a) == AwaitingDecision then Completed else s.run
    ensures Finishes(s, a) ==>
              (Next(s, a).log[|Next(s, a).log| - 1..] == [RunCompleted] <==> a.AStepReject? || s.tasks[a.task].Bundle?)
  {
    match a
    case AStepReject(stepId) => RejectAllRun(s, OpenIn(s.rows, stepId));
    case AFinish(i, outcome, events) =>
      if outcome == Done {
        SettledRun(s, i);
      }
    case _ =>
  }

  /** The gap between reading and writing: a block changes a status that is not waiting any more exactly when it ends an
      approval that was given while the run waited, and the run has meanwhile got a status other than completed. */
  lemma OverwritesExactly(s: Db, a: Action)
    requires Enabled(s, a) && !a.ACommit?
    ensures s.run != AwaitingDecision && Next(s, a).run != s.run <==>
            && a.AFinish? && Finishes(s, a) && s.tasks[a.task].seen == AwaitingDecision
            && s.run != AwaitingDecision && s.run != Completed
  {
    DecisionsSettle(s, a);
  }

  /** And it leaves a waiting run waiting although it finishes what was decided exactly when that was decided while the
      run did not wait. */
  lemma LeavesWaitingExactly(s: Db, a: Action)
    requires Enabled(s, a) && !a.ACommit? && Finishes(s, a) && s.run == AwaitingDecision
    ensures Next(s, a).run == AwaitingDecision <==> a.AFinish? && s.tasks[a.task].seen != AwaitingDecision
  {
    DecisionsSettle(s, a);
  }

  /** A request remembers the status of the moment it began. */
  lemma ReadWhenBegun(s: Db, a: Action)
    requires Enabled(s, a) && (a.AApprove? || (a.AStepApprove? && OpenIn(s.rows, a.stepId) != []))
    ensures var s' := Next(s, a); s'.tasks[..|s'.tasks| - 1] == s.tasks && s'.tasks[|s'.tasks| - 1].seen == s.run
    ensures Next(s, a).run == s.run
  {
  }

  // ----- what suspended approvals remember -----

  /** The state before the k-th block of a run. */
  function StateAt(s: Db, acts: seq<Action>, k: nat): Db
    requires ValidRun(s, acts) && k <= |acts|
    decreases |acts|
  {
    if k == 0 then s else StateAt(Next(s, acts[0]), acts[1..], k - 1)
  }

  /** The calls that a suspended approval still executes, in order. */
  function CallsOf(t: Task): seq<nat> {
    match t
    case Single(id, _) => [id]
    case Bundle(id, _, rest, _) => [id] + rest
  }

  predicate IsSuffix(a: seq<nat>, b: seq<nat>) {
    |a| <= |b| && a == b[|b| - |a|..]
  }

  /** The request began in this state with this block: it carries the run's status of then, and what it still executes is
      the end of what it was asked to. */
  predicate BeganIn(s: Db, a: Action, t: Task) {
    && t.seen == s.run
    && match t {
         case Single(id, _) => a.AApprove? && a.id == id
         case Bundle(_, stepId, _, _) =>
           a.AStepApprove? && a.stepId == stepId && IsSuffix(CallsOf(t), OpenIn(s.rows, stepId))
       }
  }

  /** The same request, further on. */
  predicate Continues(u: Task, t: Task) {
    && u.seen == t.seen && IsSuffix(CallsOf(t), CallsOf(u))
    && (u.Single? ==> t == u) && (u.Bundle? ==> t.Bundle? && t.stepId == u.stepId)
  }

  predicate ContinuesOne(s: Db, t: Task) {
    exists u :: u in s.tasks && Continues(u, t)
  }

  lemma StaysSame(s: Db, t: Task)
    requires t in s.tasks
    ensures ContinuesOne(s, t)
  {
    assert Continues(t, t);
  }

  /** A block begins a request, or goes on with those there are. */
  lemma StepTasks(s: Db, a: Action, t: Task)
    requires Enabled(s, a) && t in Next(s, a).tasks
    ensures ContinuesOne(s, t) || BeganIn(s, a, t)
  {
    if t in s.tasks {
      StaysSame(s, t);
    } else {
      match a
      case AStepReject(stepId) => RejectAllTasks(s, OpenIn(s.rows, stepId));
      case AStepApprove(stepId) =>
        var ids := OpenIn(s.rows, stepId);
        if ids != [] {
          assert [ids[0]] + ids[1..] == ids;
        }
      case AFinish(i, outcome, events) => FinishGoesOn(s, i, outcome, events, t);
      case _ =>
    }
  }

  lemma {:induction false} RejectAllTasks(s: Db, ids: seq<nat>)
    requires InTable(ids, |s.rows|)
    ensures RejectAll(s, ids).tasks == s.tasks
    decreases |ids|
  {
    if ids != [] {
      RejectAllTasks(Reject(s, ids[0]), ids[1..]);
    }
  }

  lemma FinishGoesOn(s: Db, i: nat, outcome: Outcome, events: seq<Event>, t: Task)
    requires Enabled(s, AFinish(i, outcome, events)) && t in Finish(s, i, outcome, events).tasks && t !in s.tasks
    ensures ContinuesOne(s, t)
  {
    var u := s.tasks[i];
    assert forall x :: x in DropTask(s.tasks, i) ==> x in s.tasks;
    if outcome == Done && u.Bundle? && u.rest != [] {
      var next := Bundle(u.rest[0], u.stepId, u.rest[1..], u.seen);
      assert forall x :: x in PutTask(DropTask(s.tasks, i), i, next) ==> x == next || x in DropTask(s.tasks, i);
      assert CallsOf(next) == u.rest == CallsOf(u)[1..];
      assert Continues(u, next);
    }
  }

  lemma SuffixOfSuffix(a: seq<nat>, b: seq<nat>, c: seq<nat>)
    requires IsSuffix(c, b) && IsSuffix(b, a)
    ensures IsSuffix(c, a)
  {
    var d := a[|a| - |c|..];
    forall k | 0 <= k < |c| ensures c[k] == d[k] {
      assert c[k] == b[|b| - |c| + k] == a[|a| - |b| + (|b| - |c| + k)];
    }
  }

  lemma ContinuesOn(u: Task, v: Task, t: Task)
    requires Continues(u, v) && Continues(v, t)
    ensures Continues(u, t)
  {
    SuffixOfSuffix(CallsOf(u), CallsOf(v), CallsOf(t));
  }

  predicate BeganAt(s: Db, acts: seq<Action>, t: Task, k: nat)
    requires ValidRun(s, acts)
  {
    k < |acts| && BeganIn(StateAt(s, acts, k), acts[k], t)
  }

  lemma {:induction false} TasksBegan(s: Db, acts: seq<Action>, t: Task)
    requires ValidRun(s, acts) && t in After(s, acts).tasks
    ensures ContinuesOne(s, t) || exists k: nat :: BeganAt(s, acts, t, k)
    decreases |acts|
  {
    if acts == [] {
      StaysSame(s, t);
    } else {
      var s' := Next(s, acts[0]);
      TasksBegan(s', acts[1..], t);
      if ContinuesOne(s', t) {
        var v :| v in s'.tasks && Continues(v, t);
        StepTasks(s, acts[0], v);
        if ContinuesOne(s, v) {
          var u :| u in s.tasks && Continues(u, v);
          ContinuesOn(u, v, t);
        } else {
          BeganFurther(s, acts[0], v, t);
          assert BeganAt(s, acts, t, 0);
        }
      } else {
        var k: nat :| BeganAt(s', acts[1..], t, k);
        assert BeganAt(s, acts, t, k + 1);
      }
    }
  }

  lemma BeganFurther(s: Db, a: Action, v: Task, t: Task)
    requires BeganIn(s, a, v) && Continues(v, t)
    ensures BeganIn(s, a, t)
  {
    if v.Bundle? {
      SuffixOfSuffix(OpenIn(s.rows, v.stepId), CallsOf(v), CallsOf(t));
    }
  }

  /** In every run, each suspended approval began with some block of it, and remembers the status that the run had in the
      state before that block; a bundle still executes the end of what its tab listed in that state. */
  lemma TasksRemember(acts: seq<Action>, t: Task)
    requires ValidRun(EMPTY, acts) && t in After(EMPTY, acts).tasks
    ensures exists k: nat :: BeganAt(EMPTY, acts, t, k)
  {
    TasksBegan(EMPTY, acts, t);
  }

  // ----- what a row holds -----

  /** The block gives the call these arguments: an edit with them, or an approval that runs with them. */
  predicate Sends(a: Action, id: nat, args: Json) {
    a == AEdit(id, args) || a == AApprove(id, args)
  }

  predicate SendsTo(a: Action, id: nat) {
    (a.AEdit? || a.AApprove?) && a.id == id
  }

  /** What no block changes: the tool of a call, whether it needs approval, and where it comes from. */
  predicate SameCall(r: Row, q: Row) {
    r.tool == q.tool && r.requiresApproval == q.requiresApproval && r.origin == q.origin
  }

  lemma BeginHolds(s: Db, j: nat, id: nat)
    requires j < |s.rows| && id < |s.rows|
    ensures var s' := Begin(s, j);
            |s'.rows| == |s.rows| && SameCall(s'.rows[id], s.rows[id]) && s'.rows[id].args == s.rows[id].args
  {
  }

  lemma {:induction false} RejectAllHolds(s: Db, ids: seq<nat>, id: nat)
    requires InTable(ids, |s.rows|) && id < |s.rows|
    ensures var s' := RejectAll(s, ids);
            |s'.rows| == |s.rows| && SameCall(s'.rows[id], s.rows[id]) && s'.rows[id].args == s.rows[id].args
    decreases |ids|
  {
    if ids != [] {
      RejectAllHolds(Reject(s, ids[0]), ids[1..], id);
    }
  }

  lemma FinishHolds(s: Db, i: nat, outcome: Outcome, events: seq<Event>, id: nat)
    requires Enabled(s, AFinish(i, outcome, events)) && id < |s.rows|
    ensures var s' := Finish(s, i, outcome, events);
            |s'.rows| == |s.rows| && SameCall(s'.rows[id], s.rows[id]) && s'.rows[id].args == s.rows[id].args
  {
    if outcome == Done && s.tasks[i].Bundle? && s.tasks[i].rest != [] {
      BeginHolds(Settled(s, i), s.tasks[i].rest[0], id);
    }
  }

  /** Only a commit makes rows, and only an edit or an approval of the call itself gives it other arguments. */
  lemma StepHolds(s: Db, a: Action, id: nat)
    requires Enabled(s, a) && id < |s.rows|
    ensures |s.rows| <= |Next(s, a).rows| && SameCall(Next(s, a).rows[id], s.rows[id])
    ensures forall args :: Sends(a, id, args) ==> Next(s, a).rows[id].args == args
    ensures !SendsTo(a, id) ==> Next(s, a).rows[id].args == s.rows[id].args
    ensures !a.ACommit? ==> |Next(s, a).rows| == |s.rows|
  {
    match a
    case AStepReject(stepId) => RejectAllHolds(s, OpenIn(s.rows, stepId), id);
    case AFinish(i, outcome, events) => FinishHolds(s, i, outcome, events, id);
    case AStepApprove(stepId) =>
      if OpenIn(s.rows, stepId) != [] {
        BeginHolds(s, OpenIn(s.rows, stepId)[0], id);
      }
    case _ =>
  }

  predicate NoneSends(acts: seq<Action>, id: nat) {
    forall k :: 0 <= k < |acts| ==> !SendsTo(acts[k], id)
  }

  lemma {:induction false} Untouched(s: Db, acts: seq<Action>, id: nat)
    requires ValidRun(s, acts) && id < |s.rows| && NoneSends(acts, id)
    ensures id < |After(s, acts).rows|
    ensures SameCall(After(s, acts).rows[id], s.rows[id]) && After(s, acts).rows[id].args == s.rows[id].args
    decreases |acts|
  {
    if acts != [] {
      StepHolds(s, acts[0], id);
      assert !SendsTo(acts[0], id);
      Untouched(Next(s, acts[0]), acts[1..], id);
    }
  }

  lemma {:induction false} SameCallStays(s: Db, acts: seq<Action>, id: nat)
    requires ValidRun(s, acts) && id < |s.rows|
    ensures id < |After(s, acts).rows| && SameCall(After(s, acts).rows[id], s.rows[id])
    decreases |acts|
  {
    if acts != [] {
      StepHolds(s, acts[0], id);
      SameCallStays(Next(s, acts[0]), acts[1..], id);
    }
  }

  lemma {:induction false} RunFrom(s: Db, acts: seq<Action>, k: nat)
    requires ValidRun(s, acts) && k <= |acts|
    ensures ValidRun(StateAt(s, acts, k), acts[k..]) && After(s, acts) == After(StateAt(s, acts, k), acts[k..])
    decreases |acts|
  {
    if k > 0 {
      RunFrom(Next(s, acts[0]), acts[1..], k - 1);
      assert acts[1..][k - 1..] == acts[k..];
    } else {
      assert acts[0..] == acts;
    }
  }

  lemma RunOn(s: Db, acts: seq<Action>, k: nat)
    requires ValidRun(s, acts) && k < |acts|
    ensures Enabled(StateAt(s, acts, k), acts[k])
    ensures var s' := Next(StateAt(s, acts, k), acts[k]);
            ValidRun(s', acts[k + 1..]) && After(s, acts) == After(s', acts[k + 1..])
  {
    RunFrom(s, acts, k);
    assert acts[k..][0] == acts[k] && acts[k..][1..] == acts[k + 1..];
  }

  /** In every run, what was last sent to a call, by an edit or an approval, is what its row holds. */
  lemma RowHoldsLastSent(acts: seq<Action>, id: nat, k: nat, args: Json)
    requires ValidRun(EMPTY, acts) && k < |acts| && Sends(acts[k], id, args) && NoneSends(acts[k + 1..], id)
    ensures id < |After(EMPTY, acts).rows| && After(EMPTY, acts).rows[id].args == args
  {
    RunOn(EMPTY, acts, k);
    var s := StateAt(EMPTY, acts, k);
    StepHolds(s, acts[k], id);
    Untouched(Next(s, acts[k]), acts[k + 1..], id);
  }

  /** The m-th row of the k-th block, which is a commit, is the call with this id. */
  predicate MadeAt(s: Db, acts: seq<Action>, id: nat, k: nat, m: nat)
    requires ValidRun(s, acts)
  {
    && k < |acts| && acts[k].ACommit? && m < |acts[k].batch|
    && id == |StateAt(s, acts, k).rows| + m
  }

  predicate CommittedAs(acts: seq<Action>, id: nat, k: nat, m: nat)
    requires ValidRun(EMPTY, acts)
  {
    MadeAt(EMPTY, acts, id, k, m)
  }

  /** In every run, a call is for ever the one it was committed as, and holds the arguments it was committed with as long
      as none are sent to it. */
  lemma RowHoldsCommitted(acts: seq<Action>, id: nat, k: nat, m: nat)
    requires ValidRun(EMPTY, acts) && CommittedAs(acts, id, k, m)
    ensures id < |After(EMPTY, acts).rows|
    ensures var row := After(EMPTY, acts).rows[id];
            && SameCall(row, acts[k].batch[m].row)
            && (NoneSends(acts[k + 1..], id) ==> row.args == acts[k].batch[m].row.args)
  {
    RunOn(EMPTY, acts, k);
    var s' := Next(StateAt(EMPTY, acts, k), acts[k]);
    assert s'.rows[id] == acts[k].batch[m].row;
    SameCallStays(s', acts[k + 1..], id);
    if NoneSends(acts[k + 1..], id) {
      Untouched(s', acts[k + 1..], id);
    }
  }

  lemma MadeLater(s: Db, acts: seq<Action>, id: nat, k: nat, m: nat)
    requires ValidRun(s, acts) && acts != [] && MadeAt(Next(s, acts[0]), acts[1..], id, k, m)
    ensures MadeAt(s, acts, id, k + 1, m)
  {
  }

  /** The block that made a row. */
  lemma {:induction false} RowWasMade(s: Db, acts: seq<Action>, id: nat)
    requires ValidRun(s, acts) && |s.rows| <= id < |After(s, acts).rows|
    ensures exists k: nat, m: nat :: MadeAt(s, acts, id, k, m)
    decreases |acts|
  {
    if acts != [] {
      RowsMade(s, acts[0]);
      if id < |Next(s, acts[0]).rows| {
        assert MadeAt(s, acts, id, 0, id - |s.rows|);
      } else {
        RowWasMade(Next(s, acts[0]), acts[1..], id);
        var k: nat, m: nat :| MadeAt(Next(s, acts[0]), acts[1..], id, k, m);
        MadeLater(s, acts, id, k, m);
      }
    }
  }

  lemma RowsMade(s: Db, a: Action)
    requires Enabled(s, a)
    ensures |Next(s, a).rows| == |s.rows| + if a.ACommit? then |a.batch| else 0
  {
    match a
    case AStepReject(stepId) =>
    case _ =>
  }

  /** So every row of a run was committed by one of its blocks. */
  lemma EveryRowCommitted(acts: seq<Action>, id: nat)
    requires ValidRun(EMPTY, acts) && id < |After(EMPTY, acts).rows|
    ensures exists k: nat, m: nat :: CommittedAs(acts, id, k, m)
  {
    RowWasMade(EMPTY, acts, id);
    var k: nat, m: nat :| MadeAt(EMPTY, acts, id, k, m);
    assert CommittedAs(acts, id, k, m);
  }

  lemma SettledRun(s: Db, i: nat)
    requires i < |s.tasks| && TaskFits(s, s.tasks[i])
    ensures var d := Settled(s, i); d.run == s.run && d.log[|d.log| - 1..] == [ToolCompleted(s.tasks[i].id)]
  {
  }

  lemma {:induction false} RejectAllRun(s: Db, ids: seq<nat>)
    requires InTable(ids, |s.rows|)
    ensures RejectAll(s, ids).run == s.run
    decreases |ids|
  {
    if ids != [] {
      RejectAllRun(Reject(s, ids[0]), ids[1..]);
    }
  }

  // ----- how many open calls a tab has -----

  /** The call is one of the tab's open ones. */
  predicate OnTab(r: Row, stepId: string) {
    OpenStatus(r.status) && r.origin == WorkflowStep(stepId)
  }

  lemma OpenInSnoc(rows: seq<Row>, r: Row, stepId: string)
    ensures |OpenIn(rows + [r], stepId)| == |OpenIn(rows, stepId)| + (if OnTab(r, stepId) then 1 else 0)
  {
    assert (rows + [r])[..|rows|] == rows;
  }

  lemma {:induction false} OpenInAppended(rows: seq<Row>, more: seq<Row>, stepId: string)
    ensures |OpenIn(rows + more, stepId)| >= |OpenIn(rows, stepId)|
    ensures |OpenIn(rows + more, stepId)| > |OpenIn(rows, stepId)| <==> exists r :: r in more && OnTab(r, stepId)
  {
    if more == [] {
      assert rows + more == rows;
    } else {
      var init, r := more[..|more| - 1], more[|more| - 1];
      OpenInAppended(rows, init, stepId);
      assert rows + more == rows + init + [r] && more == init + [r];
      OpenInSnoc(rows + init, r, stepId);
    }
  }

  lemma {:induction false} OpenInUpdated(rows: seq<Row>, id: nat, r: Row, stepId: string)
    requires id < |rows|
    ensures |OpenIn(rows[id := r], stepId)|
         == |OpenIn(rows, stepId)| - (if OnTab(rows[id], stepId) then 1 else 0) + (if OnTab(r, stepId) then 1 else 0)
  {
    var n := |rows| - 1;
    if id < n {
      OpenInUpdated(rows[..n], id, r, stepId);
      assert rows[id := r][..n] == rows[..n][id := r];
    } else {
      assert rows[id := r][..n] == rows[..n];
    }
  }

  lemma {:induction false} RejectAllShrinks(s: Db, ids: seq<nat>, stepId: string)
    requires InTable(ids, |s.rows|)
    ensures |OpenIn(RejectAll(s, ids).rows, stepId)| <= |OpenIn(s.rows, stepId)|
    decreases |ids|
  {
    if ids != [] {
      OpenInUpdated(s.rows, ids[0], s.rows[ids[0]].(status := Rejected), stepId);
      RejectAllShrinks(Reject(s, ids[0]), ids[1..], stepId);
    }
  }

  lemma BeginShrinks(s: Db, id: nat, stepId: string)
    requires id < |s.rows|
    ensures |OpenIn(Begin(s, id).rows, stepId)| <= |OpenIn(s.rows, stepId)|
  {
    OpenInUpdated(s.rows, id, s.rows[id].(status := Executing), stepId);
  }

  lemma FinishShrinks(s: Db, i: nat, outcome: Outcome, events: seq<Event>, stepId: string)
    requires i < |s.tasks| && TaskFits(s, s.tasks[i])
    ensures |OpenIn(Finish(s, i, outcome, events).rows, stepId)| <= |OpenIn(s.rows, stepId)|
  {
    var t := s.tasks[i];
    if outcome == Done {
      OpenInUpdated(s.rows, t.id, s.rows[t.id].(status := Succeeded), stepId);
      if t.Bundle? && t.rest != [] {
        BeginShrinks(Settled(s, i), t.rest[0], stepId);
      }
    }
  }

  /** The two ways a tab gets one more open call: it is left with a call, or a closed call of it is edited. So it gets a
      second one exactly when that happens while it has one. */
  lemma TabGrowsExactly(s: Db, a: Action, stepId: string)
    requires Enabled(s, a)
    ensures |OpenIn(Next(s, a).rows, stepId)| > |OpenIn(s.rows, stepId)| <==>
            || (a.ACommit? && exists r :: r in RowsOf(a.batch) && OnTab(r, stepId))
            || (a.AEdit? && !Open(s, a.id) && s.rows[a.id].origin == WorkflowStep(stepId))
  {
    match a
    case ACommit(batch, _, _) => OpenInAppended(s.rows, RowsOf(batch), stepId);
    case AReject(id) => OpenInUpdated(s.rows, id, s.rows[id].(status := Rejected), stepId);
    case AEdit(id, args) => OpenInUpdated(s.rows, id, s.rows[id].(args := args, status := Proposed), stepId);
    case AApprove(id, args) => ApproveShrinks(s, id, args, stepId);
    case AStepReject(step) => RejectAllShrinks(s, OpenIn(s.rows, step), stepId);
    case AStepApprove(step) =>
      if OpenIn(s.rows, step) != [] {
        BeginShrinks(s, OpenIn(s.rows, step)[0], stepId);
      }
    case AFinish(i, outcome, events) => FinishShrinks(s, i, outcome, events, stepId);
  }

  lemma ApproveShrinks(s: Db, id: nat, args: Json, stepId: string)
    requires Open(s, id)
    ensures |OpenIn(Approve(s, id, args).rows, stepId)| <= |OpenIn(s.rows, stepId)|
  {
    var s' := s.(rows := s.rows[id := s.rows[id].(args := args)]);
    OpenInUpdated(s.rows, id, s.rows[id].(args := args), stepId);
    BeginShrinks(s', id, stepId);
  }

  // ----- a closed call stays closed -----

  /** The call is closed and no suspended approval holds or awaits it. */
  predicate AtRest(s: Db, id: nat) {
    && id < |s.rows| && !Open(s, id)
    && forall i :: 0 <= i < |s.tasks| ==> Ignores(s.tasks[i], id)
  }

  lemma {:induction false} RejectAllLeaves(s: Db, ids: seq<nat>, id: nat)
    requires InTable(ids, |s.rows|) && id < |s.rows| && id !in ids
    ensures RejectAll(s, ids).rows[id] == s.rows[id]
    decreases |ids|
  {
    if ids != [] {
      RejectAllLeaves(Reject(s, ids[0]), ids[1..], id);
    }
  }

  /** A suspended approval neither holds nor awaits the call. */
  predicate Ignores(t: Task, id: nat) {
    t.id != id && (t.Bundle? ==> id !in t.rest)
  }

  lemma FinishTasks(s: Db, i: nat, outcome: Outcome, events: seq<Event>, id: nat)
    requires Enabled(s, AFinish(i, outcome, events)) && AtRest(s, id)
    ensures forall k :: 0 <= k < |Finish(s, i, outcome, events).tasks| ==>
              Ignores(Finish(s, i, outcome, events).tasks[k], id)
  {
    var t := s.tasks[i];
    assert Ignores(t, id);
    var d := DropTask(s.tasks, i);
    forall k | 0 <= k < |d| ensures Ignores(d[k], id) {
      assert d[k] == s.tasks[if k < i then k else k + 1];
    }
    if t.Bundle? && t.rest != [] {
      var p := PutTask(d, i, Bundle(t.rest[0], t.stepId, t.rest[1..], t.seen));
      assert t.rest[0] in t.rest;
      forall k | 0 <= k < |p| ensures Ignores(p[k], id) {
        assert p[k] == if k < i then d[k] else if k == i then p[i] else d[k - 1];
      }
    }
  }

  lemma FinishRow(s: Db, i: nat, outcome: Outcome, events: seq<Event>, id: nat)
    requires Enabled(s, AFinish(i, outcome, events)) && AtRest(s, id)
    ensures Finish(s, i, outcome, events).rows[id] == s.rows[id]
    ensures Executions(Finish(s, i, outcome, events), id) == Executions(s, id)
  {
    var t := s.tasks[i];
    assert Ignores(t, id);
    assert t.Bundle? && t.rest != [] ==> t.rest[0] in t.rest;
    TimesSnoc(s.past.execs, t.id, id);
  }

  lemma StepRejectAtRest(s: Db, stepId: string, id: nat)
    requires AtRest(s, id)
    ensures AtRest(StepReject(s, stepId), id) && Executions(StepReject(s, stepId), id) == Executions(s, id)
  {
    var ids := OpenIn(s.rows, stepId);
    OpenInExact(s.rows, stepId);
    RejectAllLeaves(s, ids, id);
    RejectAllExtends(s, ids);
  }

  lemma StepApproveAtRest(s: Db, stepId: string, id: nat)
    requires AtRest(s, id)
    ensures AtRest(StepApprove(s, stepId), id) && Executions(StepApprove(s, stepId), id) == Executions(s, id)
  {
    var ids := OpenIn(s.rows, stepId);
    OpenInExact(s.rows, stepId);
    if ids != [] {
      assert id !in ids && ids[0] in ids;
      assert forall k :: k in ids[1..] ==> k in ids;
      assert Ignores(Bundle(ids[0], stepId, ids[1..], s.run), id);
    }
  }

  lemma CommitAtRest(s: Db, batch: seq<NewRow>, events: seq<Event>, run: RunStatus, id: nat)
    requires AtRest(s, id)
    ensures AtRest(Commit(s, batch, events, run), id)
    ensures Executions(Commit(s, batch, events, run), id) == Executions(s, id)
  {
    RanOnce(batch, |s.rows|, id);
    TimesConcat(s.past.execs, RanIds(batch, |s.rows|), id);
  }

  lemma ApproveAtRest(s: Db, j: nat, args: Json, id: nat)
    requires Open(s, j) && AtRest(s, id)
    ensures AtRest(Approve(s, j, args), id) && Executions(Approve(s, j, args), id) == Executions(s, id)
  {
    assert j != id && Ignores(Single(j, s.run), id);
  }

  lemma RejectAtRest(s: Db, j: nat, id: nat)
    requires j < |s.rows| && AtRest(s, id)
    ensures AtRest(Reject(s, j), id) && Executions(Reject(s, j), id) == Executions(s, id)
  {
  }

  lemma EditAtRest(s: Db, j: nat, args: Json, id: nat)
    requires j < |s.rows| && j != id && AtRest(s, id)
    ensures AtRest(Edit(s, j, args), id) && Executions(Edit(s, j, args), id) == Executions(s, id)
  {
  }

  lemma FinishAtRest(s: Db, i: nat, outcome: Outcome, events: seq<Event>, id: nat)
    requires Enabled(s, AFinish(i, outcome, events)) && AtRest(s, id)
    ensures AtRest(Finish(s, i, outcome, events), id)
    ensures Executions(Finish(s, i, outcome, events), id) == Executions(s, id)
  {
    FinishTasks(s, i, outcome, events, id);
    FinishRow(s, i, outcome, events, id);
    assert |Finish(s, i, outcome, events).rows| == |s.rows|;
  }

  lemma StepAtRest(s: Db, a: Action, id: nat)
    requires Enabled(s, a) && AtRest(s, id) && !(a.AEdit? && a.id == id)
    ensures AtRest(Next(s, a), id) && Executions(Next(s, a), id) == Executions(s, id)
  {
    match a
    case ACommit(batch, events, run) => CommitAtRest(s, batch, events, run, id);
    case AFinish(i, outcome, events) =>
      FinishAtRest(s, i, outcome, events, id);
    case AStepApprove(stepId) => StepApproveAtRest(s, stepId, id);
    case AStepReject(stepId) => StepRejectAtRest(s, stepId, id);
    case AApprove(j, args) => ApproveAtRest(s, j, args, id);
    case AReject(j) => RejectAtRest(s, j, id);
    case AEdit(j, args) => EditAtRest(s, j, args, id);
  }

  /** A failed, executing, rejected or succeeded call that no suspended approval refers to is never executed again
      unless somebody edits it. */
  lemma {:induction false} ClosedCallsStayClosed(s: Db, acts: seq<Action>, id: nat)
    requires ValidRun(s, acts) && AtRest(s, id)
    requires forall k :: 0 <= k < |acts| ==> !(acts[k].AEdit? && acts[k].id == id)
    ensures Executions(After(s, acts), id) == Executions(s, id) && !Open(After(s, acts), id)
    decreases |acts|
  {
    if acts != [] {
      StepAtRest(s, acts[0], id);
      ClosedCallsStayClosed(Next(s, acts[0]), acts[1..], id);
    }
  }
}
