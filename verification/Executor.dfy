/** Executing the calls of a batch: readers side by side under a semaphore, writers one after the other. */
module Executor {
  import opened Json
  import opened ToolCalls
  import opened Approvals
  import opened LoopBudget
  import opened Dispatch
  import opened ExecutionTrace

  lemma DoneOne(t: Tools, before: seq<Row>, after: seq<Row>, done: set<nat>, id: nat)
    requires ExecutedRows(t, before, after, done) && id < |before|
    ensures ExecutedRows(t, before, after[id := after[id].(status := StatusOf(t.run(id)))], done + {id})
  {
  }

  /** The end of one execution: the row's status, its event, and the result for the model. */
  method CompleteOne(db: RunTables, t: Tools, e: Entry, ghost log0: seq<Event>) returns (r: ToolResult)
    requires e.id < |db.rows| && Grew(log0, db.log)
    modifies db`rows, db`log
    ensures r == Result(t, e)
    ensures r.callId == e.p.callId && r.name == e.p.name
    ensures match t.run(e.id)
            case Ran(output) => r.output == Value(output)
            case PriceFrameFailed => r.output == Error("priceframe_error")
            case ToolInvalid => r.output == Error("tool_validation_error")
    ensures db.rows == old(db.rows)[e.id := old(db.rows)[e.id].(status := StatusOf(t.run(e.id)))]
    ensures StatusOf(t.run(e.id)) == if t.run(e.id).Ran? then Succeeded else Failed
    ensures db.log == old(db.log) + [EndOf(t, e.id)] && Grew(log0, db.log)
    ensures EndOf(t, e.id) == if t.run(e.id).Ran? then ToolCompleted(e.id) else ToolFailed(e.id)
  {
    var outcome := t.run(e.id);
    GrewBy(log0, db.log, EndOf(t, e.id));
    match outcome {
      case Ran(output) =>
        db.SetStatus(e.id, Succeeded);
        db.Append(ToolCompleted(e.id));
        return ToolResult(e.p.callId, e.p.name, Value(output));
      case PriceFrameFailed =>
        db.SetStatus(e.id, Failed);
        db.Append(ToolFailed(e.id));
        return ToolResult(e.p.callId, e.p.name, Error("priceframe_error"));
      case ToolInvalid =>
        db.SetStatus(e.id, Failed);
        db.Append(ToolFailed(e.id));
        return ToolResult(e.p.callId, e.p.name, Error("tool_validation_error"));
    }
  }

  method StartOne(db: RunTables, e: Entry, ghost log0: seq<Event>)
    requires Grew(log0, db.log)
    modifies db`log
    ensures db.log == old(db.log) + [ToolStarted(e.id)] && Grew(log0, db.log)
  {
    GrewBy(log0, db.log, ToolStarted(e.id));
    db.Append(ToolStarted(e.id));
  }

  /** Every entry has a row of its own. */
  ghost predicate Queue(q: seq<Entry>, rows: nat) {
    DistinctIds(q) && forall i :: 0 <= i < |q| ==> q[i].id < rows
  }

  lemma LogGrows(log0: seq<Event>, es: seq<Event>, start: Event, end: Event)
    ensures log0 + es + [start] + [end] == log0 + (es + [start] + [end])
  {
  }

  /** The writers, one by one: each has ended before the next starts. */
  method RunWriters(db: RunTables, t: Tools, q: seq<Entry>, ghost rows0: seq<Row>, ghost done0: set<nat>,
                    ghost log0: seq<Event>)
    returns (rs: seq<ToolResult>)
    requires Queue(q, |rows0|) && ExecutedRows(t, rows0, db.rows, done0) && Grew(log0, db.log)
    modifies db`rows, db`log
    ensures rs == ResultsOf(t, q)
    ensures ExecutedRows(t, rows0, db.rows, done0 + Ids(q)) && Grew(log0, db.log)
    ensures db.log == old(db.log) + Serial(t, q)
  {
    ghost var log1 := db.log;
    rs := [];
    var i := 0;
    while i < |q|
      invariant i <= |q| && rs == ResultsOf(t, q[..i])
      invariant ExecutedRows(t, rows0, db.rows, done0 + Ids(q[..i])) && Grew(log0, db.log)
      invariant db.log == log1 + Serial(t, q[..i])
    {
      SerialSnoc(t, q[..i], q[i]);
      LogGrows(log1, Serial(t, q[..i]), ToolStarted(q[i].id), EndOf(t, q[i].id));
      ResultsOfSnoc(t, q[..i], q[i]);
      assert q[..i + 1] == q[..i] + [q[i]] && q[..i + 1][..i] == q[..i];
      DoneOne(t, rows0, db.rows, done0 + Ids(q[..i]), q[i].id);
      assert done0 + Ids(q[..i + 1]) == done0 + Ids(q[..i]) + {q[i].id};
      StartOne(db, q[i], log0);
      var r := CompleteOne(db, t, q[i], log0);
      rs := rs + [r];
      i := i + 1;
    }
    assert q[..i] == q;
  }

  /** The answers of the readers that have completed stand in their own slots. */
  ghost predicate Slots(t: Tools, q: seq<Entry>, slots: seq<Option<ToolResult>>, waiting: set<nat>, running: set<nat>) {
    && |slots| == |q| && waiting !! running
    && (forall i :: i in waiting || i in running ==> 0 <= i < |q|)
    && (forall i :: 0 <= i < |q| && i !in waiting && i !in running ==> slots[i] == Some(Result(t, q[i])))
  }

  function DoneIds(q: seq<Entry>, waiting: set<nat>, running: set<nat>): set<nat> {
    set i | 0 <= i < |q| && i !in waiting && i !in running :: q[i].id
  }

  function Unwrap(slots: seq<Option<ToolResult>>): (rs: seq<ToolResult>)
    requires forall i :: 0 <= i < |slots| ==> slots[i].Some?
    ensures |rs| == |slots| && forall i :: 0 <= i < |slots| ==> rs[i] == slots[i].value
  {
    if slots == [] then [] else Unwrap(slots[..|slots| - 1]) + [slots[|slots| - 1].value]
  }

  function UpTo(n: nat): (s: set<nat>)
    ensures forall i :: i in s <==> 0 <= i < n
  {
    if n == 0 then {} else UpTo(n - 1) + {n - 1}
  }

  lemma DoneIdsGrow(q: seq<Entry>, waiting: set<nat>, running: set<nat>, i: nat)
    requires i in running && i < |q| && waiting !! running
    ensures DoneIds(q, waiting, running - {i}) == DoneIds(q, waiting, running) + {q[i].id}
  {
    var a, b := DoneIds(q, waiting, running - {i}), DoneIds(q, waiting, running) + {q[i].id};
    forall id | id in b ensures id in a {
      if id != q[i].id {
        var k :| 0 <= k < |q| && k !in waiting && k !in running && q[k].id == id;
      } else {
        assert i !in waiting && i !in running - {i};
      }
    }
  }

  /** Between two moves of the readers. */
  ghost predicate Gathering(db: RunTables, t: Tools, q: seq<Entry>, slots: seq<Option<ToolResult>>, waiting: set<nat>,
                            running: set<nat>, rows0: seq<Row>, log0: seq<Event>)
    reads db
  {
    && Queue(q, |rows0|)
    && Slots(t, q, slots, waiting, running)
    && ExecutedRows(t, rows0, db.rows, DoneIds(q, waiting, running))
    && Grew(log0, db.log)
  }

  /** The same, with the events since the readers began. */
  ghost predicate Reading(db: RunTables, t: Tools, q: seq<Entry>, slots: seq<Option<ToolResult>>, waiting: set<nat>,
                          running: set<nat>, n: nat, rows0: seq<Row>, log0: seq<Event>, log1: seq<Event>,
                          es: seq<Event>)
    reads db
  {
    && Gathering(db, t, q, slots, waiting, running, rows0, log0)
    && Tracing(t, q, es, waiting, running, n) && |running| <= n
    && db.log == log1 + es
  }

  lemma SlotFilled(t: Tools, q: seq<Entry>, slots: seq<Option<ToolResult>>, waiting: set<nat>, running: set<nat>, i: nat)
    requires Slots(t, q, slots, waiting, running) && i in running
    ensures i < |q| && Slots(t, q, slots[i := Some(Result(t, q[i]))], waiting, running - {i})
  {
  }

  method FinishReader(db: RunTables, t: Tools, q: seq<Entry>, slots: seq<Option<ToolResult>>, waiting: set<nat>,
                      running: set<nat>, i: nat, ghost n: nat, ghost rows0: seq<Row>, ghost log0: seq<Event>,
                      ghost log1: seq<Event>, ghost es: seq<Event>)
    returns (slots': seq<Option<ToolResult>>, ghost es': seq<Event>)
    requires i in running && Reading(db, t, q, slots, waiting, running, n, rows0, log0, log1, es)
    modifies db`rows, db`log
    ensures Reading(db, t, q, slots', waiting, running - {i}, n, rows0, log0, log1, es')
  {
    SlotFilled(t, q, slots, waiting, running, i);
    DoneOne(t, rows0, db.rows, DoneIds(q, waiting, running), q[i].id);
    DoneIdsGrow(q, waiting, running, i);
    TraceEnds(t, q, es, waiting, running, n, i);
    es' := es + [EndOf(t, q[i].id)];
    var r := CompleteOne(db, t, q[i], log0);
    slots' := slots[i := Some(r)];
  }

  lemma StartedNotDone(q: seq<Entry>, waiting: set<nat>, running: set<nat>, i: nat)
    requires i in waiting
    ensures DoneIds(q, waiting - {i}, running + {i}) == DoneIds(q, waiting, running)
  {
    var a, b := DoneIds(q, waiting - {i}, running + {i}), DoneIds(q, waiting, running);
    forall id | id in b ensures id in a {
      var k :| 0 <= k < |q| && k !in waiting && k !in running && q[k].id == id;
      assert k !in waiting - {i} && k !in running + {i};
    }
  }

  method StartReader(db: RunTables, t: Tools, q: seq<Entry>, slots: seq<Option<ToolResult>>, waiting: set<nat>,
                     running: set<nat>, i: nat, ghost n: nat, ghost rows0: seq<Row>, ghost log0: seq<Event>,
                     ghost log1: seq<Event>, ghost es: seq<Event>)
    returns (ghost es': seq<Event>)
    requires i in waiting && |running| < n && Reading(db, t, q, slots, waiting, running, n, rows0, log0, log1, es)
    modifies db`log
    ensures Reading(db, t, q, slots, waiting - {i}, running + {i}, n, rows0, log0, log1, es')
  {
    StartedNotDone(q, waiting, running, i);
    TraceStarts(t, q, es, waiting, running, n, i);
    es' := es + [ToolStarted(q[i].id)];
    StartOne(db, q[i], log0);
  }

  lemma NothingDone(t: Tools, q: seq<Entry>, slots: seq<Option<ToolResult>>, rows0: seq<Row>)
    requires |slots| == |q|
    ensures Slots(t, q, slots, UpTo(|q|), {})
    ensures ExecutedRows(t, rows0, rows0, DoneIds(q, UpTo(|q|), {}))
  {
    assert DoneIds(q, UpTo(|q|), {}) == {};
  }

  lemma AllDone(t: Tools, q: seq<Entry>, slots: seq<Option<ToolResult>>)
    requires Slots(t, q, slots, {}, {})
    ensures forall i :: 0 <= i < |slots| ==> slots[i].Some?
    ensures Unwrap(slots) == ResultsOf(t, q)
    ensures DoneIds(q, {}, {}) == Ids(q)
  {
    var rs := ResultsOf(t, q);
    assert forall i :: 0 <= i < |q| ==> slots[i] == Some(rs[i]);
    forall id: nat ensures id in DoneIds(q, {}, {}) <==> id in Ids(q) {
      IdsMember(q, id);
    }
  }

  lemma UpToSize(n: nat)
    ensures |UpTo(n)| == n
  {
  }

  lemma TraceBegins(t: Tools, q: seq<Entry>, n: nat)
    ensures Tracing(t, q, [], UpTo(|q|), {}, n)
  {
    UpToSize(|q|);
  }

  /** The readers. Which waiting reader starts and which running reader completes next is arbitrary: the log gets the
      events of some parallel execution with at most maxParallel calls under way; the results still come back in queue
      order. */
  method RunReaders(db: RunTables, t: Tools, q: seq<Entry>, maxParallel: nat, ghost log0: seq<Event>)
    returns (rs: seq<ToolResult>, ghost es: seq<Event>)
    requires (q != [] ==> 0 < maxParallel) && Queue(q, |db.rows|) && Grew(log0, db.log)
    modifies db`rows, db`log
    ensures rs == ResultsOf(t, q)
    ensures ExecutedRows(t, old(db.rows), db.rows, Ids(q)) && Grew(log0, db.log)
    ensures db.log == old(db.log) + es && Parallel(t, q, es, maxParallel)
  {
    ghost var rows0, log1 := db.rows, db.log;
    var slots: seq<Option<ToolResult>> := seq(|q|, _ => None);
    var waiting, running: set<nat> := UpTo(|q|), {};
    es := [];
    NothingDone(t, q, slots, rows0);
    TraceBegins(t, q, maxParallel);
    while waiting != {} || running != {}
      invariant Reading(db, t, q, slots, waiting, running, maxParallel, rows0, log0, log1, es)
      decreases 2 * |waiting| + |running|
    {
      var start: bool := *;
      if waiting != {} && |running| < maxParallel && (start || running == {}) {
        var i :| i in waiting;
        es := StartReader(db, t, q, slots, waiting, running, i, maxParallel, rows0, log0, log1, es);
        waiting, running := waiting - {i}, running + {i};
      } else {
        var i :| i in running;
        slots, es := FinishReader(db, t, q, slots, waiting, running, i, maxParallel, rows0, log0, log1, es);
        running := running - {i};
      }
    }
    AllDone(t, q, slots);
    TraceDone(t, q, es, maxParallel);
    rs := Unwrap(slots);
  }

  // ----- the whole dispatch -----

  datatype DispatchOutcome =
    | Results(results: seq<ToolResult>)
    | Paused
    | OverBudget
    | NoClient

  /** The rows of a batch become one commit of the tool-call machine. */
  ghost predicate Committed(db: RunTables, before: Db, batch: seq<NewRow>)
    reads db
  {
    && |before.log| <= |db.log| && db.log[..|before.log|] == before.log
    && db.State() == Commit(before, batch, db.log[|before.log|..], db.run)
    && AllNeutral(db.log[|before.log|..])
    && (forall r :: r in batch ==> GoodNewRow(r))
  }

  ghost method Record(db: RunTables, batch: seq<NewRow>, first: nat, logged: nat)
    modifies db`past
    ensures db.past == RunnerRan(old(db.past), RanIds(batch, first), logged)
  {
    db.past := RunnerRan(db.past, RanIds(batch, first), logged);
  }

  lemma RowsOfBatch(t: Tools, ps: seq<Proposal>, first: nat)
    ensures RowsOf(Batch(t, CreatedRows(t, ps), first, false)) == CreatedRows(t, ps)
    ensures RanIds(Batch(t, CreatedRows(t, ps), first, false), first) == []
  {
    NoneRan(Batch(t, CreatedRows(t, ps), first, false), first);
  }

  function QueuedIds(t: Tools, ps: seq<Proposal>, first: nat): set<nat> {
    Ids(QueueOf(t, ps, first, true)) + Ids(QueueOf(t, ps, first, false))
  }

  lemma QueuedIdsExact(t: Tools, ps: seq<Proposal>, first: nat, id: nat)
    ensures id in QueuedIds(t, ps, first) <==> first <= id < first + UsableCount(t, ps)
  {
    IdsMember(QueueOf(t, ps, first, true), id);
    IdsMember(QueueOf(t, ps, first, false), id);
    if first <= id < first + UsableCount(t, ps) {
      QueuesCover(t, ps, first, id);
    }
  }

  /** Once both queues are done, every new row carries the status of its execution. */
  lemma AllExecuted(t: Tools, ps: seq<Proposal>, rows0: seq<Row>, after: seq<Row>)
    requires ExecutedRows(t, rows0 + CreatedRows(t, ps), after, QueuedIds(t, ps, |rows0|))
    ensures after == rows0 + RowsOf(Batch(t, CreatedRows(t, ps), |rows0|, true))
  {
    var expected := rows0 + RowsOf(Batch(t, CreatedRows(t, ps), |rows0|, true));
    forall j: nat | j < |after| ensures after[j] == expected[j] {
      QueuedIdsExact(t, ps, |rows0|, j);
    }
  }

  /** Rows that were created and not executed. */
  ghost method CommitCreated(db: RunTables, t: Tools, ps: seq<Proposal>, before: Db)
    returns (batch: seq<NewRow>)
    requires db.State() == before.(rows := before.rows + CreatedRows(t, ps), log := db.log, run := db.run)
    requires |before.log| <= |db.log| && db.log[..|before.log|] == before.log
    requires AllNeutral(db.log[|before.log|..])
    modifies db`past
    ensures batch == Batch(t, CreatedRows(t, ps), |before.rows|, false) && Committed(db, before, batch)
    ensures db.past.execs == old(db.past.execs)
  {
    batch := Batch(t, CreatedRows(t, ps), |before.rows|, false);
    RowsOfBatch(t, ps, |before.rows|);
    Record(db, batch, |before.rows|, |before.log|);
    assert db.log == before.log + db.log[|before.log|..];
    CreatedOpen(t, ps);
  }

  lemma {:induction false} CreatedOpen(t: Tools, ps: seq<Proposal>)
    ensures forall j :: 0 <= j < |CreatedRows(t, ps)| ==> OpenStatus(CreatedRows(t, ps)[j].status)
  {
    if ps != [] {
      CreatedOpen(t, ps[..|ps| - 1]);
    }
  }

  lemma PlainNeutral(a: seq<Event>, b: seq<Event>)
    requires Grew(a, b)
    ensures AllNeutral(b[|a|..])
  {
  }

  lemma PausedNeutral(a: seq<Event>, b: seq<Event>)
    requires |a| < |b| && Grew(a, b[..|b| - 1]) && b[|b| - 1] == RunAwaitingDecision
    ensures |a| <= |b| && b[..|a|] == a && AllNeutral(b[|a|..])
  {
    assert b[..|b| - 1][..|a|] == b[..|a|];
    assert b[|a|..] == b[..|b| - 1][|a|..] + [RunAwaitingDecision];
  }

  lemma ExecutedGood(t: Tools, ps: seq<Proposal>, first: nat)
    requires NoApproval(t, ps)
    ensures forall r :: r in Batch(t, CreatedRows(t, ps), first, true) ==> GoodNewRow(r)
  {
    CreatedFlags(t, ps);
  }

  /** Readers, then writers. */
  method ExecuteQueues(db: RunTables, t: Tools, ps: seq<Proposal>, c: Collected, maxParallel: nat, ghost before: Db)
    returns (rs: seq<ToolResult>)
    requires (c.readers != [] ==> 0 < maxParallel) && c == CollectedOf(t, ps, |before.rows|)
    requires db.rows == before.rows + CreatedRows(t, ps) && Grew(before.log, db.log)
    modifies db`rows, db`log
    ensures rs == Layout(t, ps, |before.rows|)
    ensures EndsExecuting(t, ps, |before.rows|, maxParallel, old(db.log), db.log)
    ensures ExecutedRows(t, before.rows + CreatedRows(t, ps), db.rows, QueuedIds(t, ps, |before.rows|))
    ensures Grew(before.log, db.log)
  {
    ghost var rows1, log1 := db.rows, db.log;
    var answers;
    ghost var es;
    answers, es := RunReaders(db, t, c.readers, maxParallel, before.log);
    var writes := RunWriters(db, t, c.writers, rows1, Ids(c.readers), before.log);
    ReadsAndWrites(t, ps, |before.rows|, maxParallel, log1, es);
    rs := c.refusals + answers + writes;
  }

  ghost method CommitExecuted(db: RunTables, t: Tools, ps: seq<Proposal>, before: Db)
    returns (batch: seq<NewRow>)
    requires NoApproval(t, ps) && Grew(before.log, db.log)
    requires db.State() ==
             before.(rows := before.rows + RowsOf(Batch(t, CreatedRows(t, ps), |before.rows|, true)), log := db.log)
    modifies db`past
    ensures batch == Batch(t, CreatedRows(t, ps), |before.rows|, true) && Committed(db, before, batch)
  {
    batch := Batch(t, CreatedRows(t, ps), |before.rows|, true);
    ExecutedGood(t, ps, |before.rows|);
    PlainNeutral(before.log, db.log);
    Record(db, batch, |before.rows|, |before.log|);
    assert db.log == before.log + db.log[|before.log|..];
  }

  lemma EndsLater(t: Tools, ps: seq<Proposal>, first: nat, n: nat, log0: seq<Event>, log1: seq<Event>, log: seq<Event>)
    requires |log0| <= |log1| && EndsExecuting(t, ps, first, n, log1, log)
    ensures EndsExecuting(t, ps, first, n, log0, log)
  {
  }

  /** The queues are executed; then the batch is one commit. */
  method ExecuteBatch(db: RunTables, t: Tools, ps: seq<Proposal>, c: Collected, maxParallel: nat, ghost before: Db)
    returns (rs: seq<ToolResult>, ghost batch: seq<NewRow>)
    requires (c.readers != [] ==> 0 < maxParallel) && NoApproval(t, ps) && c == CollectedOf(t, ps, |before.rows|)
    requires db.State() == before.(rows := before.rows + CreatedRows(t, ps), log := db.log)
    requires Grew(before.log, db.log)
    modifies db`rows, db`log, db`past
    ensures rs == Layout(t, ps, |before.rows|) && batch == Batch(t, CreatedRows(t, ps), |before.rows|, true)
    ensures Committed(db, before, batch) && Grew(before.log, db.log)
    ensures EndsExecuting(t, ps, |before.rows|, maxParallel, before.log, db.log)
  {
    ghost var log1 := db.log;
    rs := ExecuteQueues(db, t, ps, c, maxParallel, before);
    EndsLater(t, ps, |before.rows|, maxParallel, before.log, log1, db.log);
    AllExecuted(t, ps, before.rows, db.rows);
    batch := CommitExecuted(db, t, ps, before);
  }

  /** Why a dispatch came to its outcome, with so many calls left under the ceiling; k proposals were scanned. */
  predicate Reason(t: Tools, ps: seq<Proposal>, left: int, k: nat, out: DispatchOutcome) {
    match out
    case Results(_) => k == |ps| && Passes(t, ps, left) && (UsableCount(t, ps) > 0 ==> t.client)
    case NoClient => k == |ps| && Passes(t, ps, left) && UsableCount(t, ps) > 0 && !t.client
    case Paused => 0 < k && PausesAt(t, ps, left, k - 1)
    case OverBudget => ExceedsAt(t, ps, left, k)
  }

  /** What a dispatch leaves behind it in the log and the status of the run. */
  predicate Leaves(log0: seq<Event>, log: seq<Event>, run0: RunStatus, run: RunStatus, out: DispatchOutcome) {
    if out == Paused then
      run == AwaitingDecision && |log0| < |log| && Grew(log0, log[..|log| - 1]) && log[|log| - 1] == RunAwaitingDecision
    else
      run == run0 && Grew(log0, log)
  }

  lemma StopReason(t: Tools, ps: seq<Proposal>, k: nat, stop: Stop, left: int, out: DispatchOutcome)
    requires k <= |ps| && UsableCount(t, ps[..k]) <= left && StopsAt(t, ps, k, stop, left - UsableCount(t, ps[..k]))
    requires stop != ScanDone && out == if stop == ScanPaused then Paused else OverBudget
    ensures Reason(t, ps, left, k, out)
  {
    if stop == ScanPaused {
      CountGrows(t, ps, k - 1, k);
    }
  }

  /** The scan stopped early: the rows created so far stay, and nothing executes. */
  method StopDispatch(db: RunTables, budget: Budget, t: Tools, ps: seq<Proposal>, stop: Stop, ghost k: nat,
                      ghost before: Db, ghost left: int)
    returns (out: DispatchOutcome, ghost batch: seq<NewRow>)
    requires stop != ScanDone && k <= |ps| && UsableCount(t, ps[..k]) <= budget.toolCalls
    requires left == budget.settings.maxToolCalls - budget.toolCalls + UsableCount(t, ps[..k])
    requires Stopped(db, budget, t, ps, k, stop,
                     Start(before.rows, before.log, before.run, budget.toolCalls - UsableCount(t, ps[..k])))
    requires db.State() == before.(rows := db.rows, log := db.log, run := db.run)
    modifies db`past
    ensures !out.Results? && Reason(t, ps, left, k, out) && Leaves(before.log, db.log, before.run, db.run, out)
    ensures batch == Batch(t, CreatedRows(t, ps[..k]), |before.rows|, false) && Committed(db, before, batch)
    ensures db.past.execs == old(db.past.execs)
  {
    if stop == ScanPaused {
      PausedNeutral(before.log, db.log);
    } else {
      PlainNeutral(before.log, db.log);
    }
    out := if stop == ScanPaused then Paused else OverBudget;
    StopReason(t, ps, k, stop, left, out);
    batch := CommitCreated(db, t, ps[..k], before);
  }

  /** The scan went through: without a client nothing can execute, else the queues do. */
  method FinishDispatch(db: RunTables, t: Tools, ps: seq<Proposal>, c: Collected, maxParallel: nat, ghost before: Db,
                        ghost left: int)
    returns (out: DispatchOutcome, ghost batch: seq<NewRow>)
    requires (c.readers != [] ==> 0 < maxParallel) && Passes(t, ps, left) && c == CollectedOf(t, ps, |before.rows|)
    requires db.State() == before.(rows := before.rows + CreatedRows(t, ps), log := db.log)
    requires Grew(before.log, db.log)
    modifies db`rows, db`log, db`past
    ensures Reason(t, ps, left, |ps|, out) && out != Paused && out != OverBudget
    ensures batch == Batch(t, CreatedRows(t, ps), |before.rows|, out.Results?)
    ensures Committed(db, before, batch) && Leaves(before.log, db.log, before.run, db.run, out)
    ensures !out.Results? ==> db.past.execs == old(db.past.execs)
    ensures out.Results? ==> BatchRan(db, t, ps, maxParallel, before, out.results)
  {
    QueuesEmpty(t, ps, |before.rows|);
    if !t.client && (c.readers != [] || c.writers != []) {
      PlainNeutral(before.log, db.log);
      batch := CommitCreated(db, t, ps, before);
      return NoClient, batch;
    }
    var results;
    results, batch := ExecuteBatch(db, t, ps, c, maxParallel, before);
    return Results(results), batch;
  }

  /** The batch was executed: the results are laid out, and the log ends with the execution. */
  ghost predicate BatchRan(db: RunTables, t: Tools, ps: seq<Proposal>, maxParallel: nat, before: Db,
                           results: seq<ToolResult>)
    reads db
  {
    results == Layout(t, ps, |before.rows|) && EndsExecuting(t, ps, |before.rows|, maxParallel, before.log, db.log)
  }

  /** The row of a proposal after its batch was executed: its own tool and arguments, succeeded exactly if its own
      execution ran and failed otherwise. */
  predicate RanAs(t: Tools, p: Proposal, id: nat, row: Row)
    requires t.kind(p).Usable?
  {
    row == Row(p.name, t.kind(p).args, if t.run(id).Ran? then Succeeded else Failed, t.kind(p).approval, ModelLoop)
  }

  /** The row of a proposal that was not executed: proposed if it needs approval, pending if not. */
  predicate CreatedAs(t: Tools, p: Proposal, row: Row)
    requires t.kind(p).Usable?
  {
    row == Row(p.name, t.kind(p).args, if t.kind(p).approval then Proposed else Pending, t.kind(p).approval, ModelLoop)
  }

  /** Every usable proposal among the first k has its own row, as executed or as created; with the batch executed, the
      model is told of every proposal. */
  ghost predicate BatchMeans(t: Tools, ps: seq<Proposal>, k: nat, first: nat, rows: seq<Row>, out: DispatchOutcome) {
    && (forall i: nat :: i < k ==> RowMeans(t, ps, i, first, rows, out.Results?))
    && (out.Results? ==> forall i: nat :: i < |ps| ==> ResultMeans(t, ps, i, first, out.results))
  }

  predicate RowMeans(t: Tools, ps: seq<Proposal>, i: nat, first: nat, rows: seq<Row>, ran: bool) {
    i < |ps| && t.kind(ps[i]).Usable? ==>
      var id := first + UsableCount(t, ps[..i]);
      id < |rows| && if ran then RanAs(t, ps[i], id, rows[id]) else CreatedAs(t, ps[i], rows[id])
  }

  ghost predicate ResultMeans(t: Tools, ps: seq<Proposal>, i: nat, first: nat, rs: seq<ToolResult>) {
    i < |ps| ==> ToldOf(t, ps[i], first + UsableCount(t, ps[..i]), rs)
  }

  lemma BatchAt(t: Tools, rows: seq<Row>, first: nat, ran: bool, rows0: seq<Row>, j: nat)
    requires j < |rows| && first == |rows0|
    ensures var all := rows0 + RowsOf(Batch(t, rows, first, ran));
            first + j < |all| && all[first + j] == if ran then WithOutcome(t, rows[j], first + j) else rows[j]
  {
  }

  lemma BatchRowMeans(t: Tools, ps: seq<Proposal>, k: nat, rows0: seq<Row>, ran: bool, i: nat)
    requires i < k <= |ps|
    ensures RowMeans(t, ps, i, |rows0|, rows0 + RowsOf(Batch(t, CreatedRows(t, ps[..k]), |rows0|, ran)), ran)
  {
    if t.kind(ps[i]).Usable? {
      CreatedAt(t, ps[..k], i);
      assert ps[..k][..i] == ps[..i];
      BatchAt(t, CreatedRows(t, ps[..k]), |rows0|, ran, rows0, UsableCount(t, ps[..i]));
    }
  }

  lemma RowsMean(t: Tools, ps: seq<Proposal>, k: nat, rows0: seq<Row>, ran: bool)
    requires k <= |ps|
    ensures var rows := rows0 + RowsOf(Batch(t, CreatedRows(t, ps[..k]), |rows0|, ran));
            forall i: nat :: i < k ==> RowMeans(t, ps, i, |rows0|, rows, ran)
  {
    var rows := rows0 + RowsOf(Batch(t, CreatedRows(t, ps[..k]), |rows0|, ran));
    forall i: nat | i < k ensures RowMeans(t, ps, i, |rows0|, rows, ran) {
      BatchRowMeans(t, ps, k, rows0, ran, i);
    }
  }

  lemma ResultsMean(t: Tools, ps: seq<Proposal>, first: nat)
    ensures forall i: nat :: i < |ps| ==> ResultMeans(t, ps, i, first, Layout(t, ps, first))
  {
    forall i: nat | i < |ps| ensures ResultMeans(t, ps, i, first, Layout(t, ps, first)) {
      LayoutTells(t, ps, first, i);
    }
  }

  lemma MeansAll(t: Tools, ps: seq<Proposal>, k: nat, rows0: seq<Row>, rows: seq<Row>, out: DispatchOutcome)
    requires k <= |ps| && rows == rows0 + RowsOf(Batch(t, CreatedRows(t, ps[..k]), |rows0|, out.Results?))
    requires out.Results? ==> out.results == Layout(t, ps, |rows0|)
    ensures BatchMeans(t, ps, k, |rows0|, rows, out)
  {
    RowsMean(t, ps, k, rows0, out.Results?);
    ResultsMean(t, ps, |rows0|);
  }

  /** _dispatch_proposals. If nothing stops the scan, every usable call executes, the readers side by side and then the
      writers one by one, and the results are laid out as refusals, readers, writers. If the scan meets a call that
      needs approval, nothing of the batch executes, not even the readers queued before it, and the run waits for a
      decision on that call. */
  method DispatchProposals(db: RunTables, budget: Budget, t: Tools, ps: seq<Proposal>)
    returns (out: DispatchOutcome, ghost k: nat, ghost batch: seq<NewRow>)
    requires budget.Within() && (QueueOf(t, ps, |db.rows|, true) != [] ==> 0 < budget.settings.maxParallel)
    modifies db, budget`toolCalls
    ensures budget.Within() && budget.toolCalls == old(budget.toolCalls) + |batch|
    ensures k <= |ps| && batch == Batch(t, CreatedRows(t, ps[..k]), |old(db.rows)|, out.Results?)
    ensures Committed(db, old(db.State()), batch)
    ensures Reason(t, ps, budget.settings.maxToolCalls - old(budget.toolCalls), k, out)
    ensures Leaves(old(db.log), db.log, old(db.run), db.run, out)
    ensures out.Results? ==> BatchRan(db, t, ps, budget.settings.maxParallel, old(db.State()), out.results)
    ensures BatchMeans(t, ps, k, |old(db.rows)|, db.rows, out)
    ensures !out.Results? ==> db.past.execs == old(db.past.execs)
  {
    ghost var before, left := db.State(), budget.settings.maxToolCalls - budget.toolCalls;
    var stop, c;
    stop, c, k := ScanProposals(db, budget, t, ps);
    if stop != ScanDone {
      out, batch := StopDispatch(db, budget, t, ps, stop, k, before, left);
      MeansAll(t, ps, k, before.rows, db.rows, out);
      return out, k, batch;
    }
    assert ps[..k] == ps;
    out, batch := FinishDispatch(db, t, ps, c, budget.settings.maxParallel, before, left);
    MeansAll(t, ps, k, before.rows, db.rows, out);
  }
}
