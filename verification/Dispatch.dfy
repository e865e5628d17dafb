/** One turn's tool proposals: which are refused, which pause the run, which execute, and in what order the results
    go back to the model. */
module Dispatch {
  import opened Json
  import opened ToolCalls
  import opened Approvals
  import opened LoopBudget

  datatype Proposal = Proposal(name: string, args: Json, callId: string)

  /** What the registry, the tool's schema and its approval policy say of a proposal. */
  datatype Kind =
    | UnknownTool
    | BadArgs
    | Usable(read: bool, approval: bool, args: Json)

  datatype ExecOutcome =
    | Ran(output: Json)
    | PriceFrameFailed
    | ToolInvalid

  datatype Output = Value(output: Json) | Error(cause: string)

  datatype ToolResult = ToolResult(callId: string, name: string, output: Output)

  /** Everything outside the runner: the registry, and how the execution of each row turns out. */
  datatype Tools = Tools(kind: Proposal -> Kind, run: nat -> ExecOutcome, client: bool)

  // ----- what a batch amounts to -----

  function UsableCount(t: Tools, ps: seq<Proposal>): nat {
    if ps == [] then 0
    else UsableCount(t, ps[..|ps| - 1]) + (if t.kind(ps[|ps| - 1]).Usable? then 1 else 0)
  }

  predicate NeedsApproval(t: Tools, p: Proposal) {
    t.kind(p).Usable? && t.kind(p).approval
  }

  predicate NoApproval(t: Tools, ps: seq<Proposal>) {
    forall i :: 0 <= i < |ps| ==> !NeedsApproval(t, ps[i])
  }

  function RefusalCause(k: Kind): string {
    if k.UnknownTool? then "unknown_tool" else "schema_validation_failed"
  }

  function OutputOf(o: ExecOutcome): Output {
    match o
    case Ran(output) => Value(output)
    case PriceFrameFailed => Error("priceframe_error")
    case ToolInvalid => Error("tool_validation_error")
  }

  function StatusOf(o: ExecOutcome): CallStatus {
    if o.Ran? then Succeeded else Failed
  }

  function Refusal(t: Tools, p: Proposal): ToolResult {
    ToolResult(p.callId, p.name, Error(RefusalCause(t.kind(p))))
  }

  /** Results of the proposals that are refused, in proposal order. */
  function Refusals(t: Tools, ps: seq<Proposal>): seq<ToolResult> {
    if ps == [] then []
    else
      var p, rest := ps[|ps| - 1], Refusals(t, ps[..|ps| - 1]);
      if t.kind(p).Usable? then rest else rest + [Refusal(t, p)]
  }

  /** A usable proposal and the row it gets. */
  datatype Entry = Entry(p: Proposal, id: nat)

  function QueueOf(t: Tools, ps: seq<Proposal>, first: nat, read: bool): (q: seq<Entry>)
    ensures forall i :: 0 <= i < |q| ==> first <= q[i].id < first + UsableCount(t, ps)
    ensures forall i :: 0 <= i < |q| ==> t.kind(q[i].p).Usable? && t.kind(q[i].p).read == read
    ensures forall i, j :: 0 <= i < j < |q| ==> q[i].id < q[j].id
  {
    if ps == [] then []
    else
      var init, p := ps[..|ps| - 1], ps[|ps| - 1];
      var rest := QueueOf(t, init, first, read);
      if t.kind(p).Usable? && t.kind(p).read == read then rest + [Entry(p, first + UsableCount(t, init))] else rest
  }

  function Result(t: Tools, q: Entry): ToolResult {
    ToolResult(q.p.callId, q.p.name, OutputOf(t.run(q.id)))
  }

  function ResultsOf(t: Tools, qs: seq<Entry>): (rs: seq<ToolResult>)
    ensures |rs| == |qs| && forall i :: 0 <= i < |qs| ==> rs[i] == Result(t, qs[i])
  {
    if qs == [] then [] else ResultsOf(t, qs[..|qs| - 1]) + [Result(t, qs[|qs| - 1])]
  }

  /** Refusals, then readers, then writers, each in proposal order. */
  function Layout(t: Tools, ps: seq<Proposal>, first: nat): seq<ToolResult> {
    Refusals(t, ps) + ResultsOf(t, QueueOf(t, ps, first, true)) + ResultsOf(t, QueueOf(t, ps, first, false))
  }

  function Asked(ps: seq<Proposal>, callId: string): nat {
    if ps == [] then 0 else Asked(ps[..|ps| - 1], callId) + (if ps[|ps| - 1].callId == callId then 1 else 0)
  }

  function Answered(rs: seq<ToolResult>, callId: string): nat {
    if rs == [] then 0 else Answered(rs[..|rs| - 1], callId) + (if rs[|rs| - 1].callId == callId then 1 else 0)
  }

  lemma {:induction false} AnsweredConcat(a: seq<ToolResult>, b: seq<ToolResult>, callId: string)
    ensures Answered(a + b, callId) == Answered(a, callId) + Answered(b, callId)
  {
    if b == [] {
      assert a + b == a;
    } else {
      AnsweredConcat(a, b[..|b| - 1], callId);
      assert (a + b)[..|a + b| - 1] == a + b[..|b| - 1];
    }
  }

  lemma AnsweredOne(r: ToolResult, callId: string)
    ensures Answered([r], callId) == if r.callId == callId then 1 else 0
  {
    assert [r][..0] == [];
  }

  lemma ResultsOfSnoc(t: Tools, qs: seq<Entry>, q: Entry)
    ensures ResultsOf(t, qs + [q]) == ResultsOf(t, qs) + [Result(t, q)]
  {
    assert (qs + [q])[..|qs|] == qs;
  }

  /** The answers in one queue: its proposals among the batch. */
  lemma QueueAnswered(t: Tools, ps: seq<Proposal>, first: nat, read: bool, callId: string)
    requires ps != []
    ensures var init, p := ps[..|ps| - 1], ps[|ps| - 1];
            Answered(ResultsOf(t, QueueOf(t, ps, first, read)), callId)
            == Answered(ResultsOf(t, QueueOf(t, init, first, read)), callId)
               + (if t.kind(p).Usable? && t.kind(p).read == read && p.callId == callId then 1 else 0)
  {
    var init, p := ps[..|ps| - 1], ps[|ps| - 1];
    if t.kind(p).Usable? && t.kind(p).read == read {
      var q := Entry(p, first + UsableCount(t, init));
      ResultsOfSnoc(t, QueueOf(t, init, first, read), q);
      AnsweredConcat(ResultsOf(t, QueueOf(t, init, first, read)), [Result(t, q)], callId);
      AnsweredOne(Result(t, q), callId);
    }
  }

  lemma RefusalsAnswered(t: Tools, ps: seq<Proposal>, callId: string)
    requires ps != []
    ensures var init, p := ps[..|ps| - 1], ps[|ps| - 1];
            Answered(Refusals(t, ps), callId)
            == Answered(Refusals(t, init), callId) + (if !t.kind(p).Usable? && p.callId == callId then 1 else 0)
  {
    var init, p := ps[..|ps| - 1], ps[|ps| - 1];
    if !t.kind(p).Usable? {
      var r := Refusal(t, p);
      AnsweredConcat(Refusals(t, init), [r], callId);
      AnsweredOne(r, callId);
    }
  }

  lemma LayoutAnswered(t: Tools, ps: seq<Proposal>, first: nat, callId: string)
    ensures Answered(Layout(t, ps, first), callId)
         == Answered(Refusals(t, ps), callId) + Answered(ResultsOf(t, QueueOf(t, ps, first, true)), callId)
            + Answered(ResultsOf(t, QueueOf(t, ps, first, false)), callId)
  {
    var a, b, c := Refusals(t, ps), ResultsOf(t, QueueOf(t, ps, first, true)), ResultsOf(t, QueueOf(t, ps, first, false));
    AnsweredConcat(a + b, c, callId);
    AnsweredConcat(a, b, callId);
  }

  /** Every proposal is answered exactly once: as many results carry a call id as proposals do. */
  lemma {:induction false} EveryProposalAnswered(t: Tools, ps: seq<Proposal>, first: nat, callId: string)
    ensures Answered(Layout(t, ps, first), callId) == Asked(ps, callId)
  {
    LayoutAnswered(t, ps, first, callId);
    if ps != [] {
      var init := ps[..|ps| - 1];
      EveryProposalAnswered(t, init, first, callId);
      LayoutAnswered(t, init, first, callId);
      RefusalsAnswered(t, ps, callId);
      QueueAnswered(t, ps, first, true, callId);
      QueueAnswered(t, ps, first, false, callId);
    }
  }

  // ----- the rows of a batch -----

  /** The row of a usable proposal when it is created. */
  function NewCall(t: Tools, p: Proposal): Row
    requires t.kind(p).Usable?
  {
    var k := t.kind(p);
    Row(p.name, k.args, if k.approval then Proposed else Pending, k.approval, ModelLoop)
  }

  function CreatedRows(t: Tools, ps: seq<Proposal>): (rows: seq<Row>)
    ensures |rows| == UsableCount(t, ps)
  {
    if ps == [] then []
    else
      var p, rest := ps[|ps| - 1], CreatedRows(t, ps[..|ps| - 1]);
      if t.kind(p).Usable? then rest + [NewCall(t, p)] else rest
  }

  function WithOutcome(t: Tools, row: Row, id: nat): Row {
    row.(status := StatusOf(t.run(id)))
  }

  /** Rows as a commit of the tool-call machine, not executed or all executed. */
  function Batch(t: Tools, rows: seq<Row>, first: nat, ran: bool): (batch: seq<NewRow>) {
    seq(|rows|, j requires 0 <= j < |rows| =>
      NewRow(if ran then WithOutcome(t, rows[j], first + j) else rows[j], ran))
  }

  lemma {:induction false} CreatedFlags(t: Tools, ps: seq<Proposal>)
    requires NoApproval(t, ps)
    ensures forall j :: 0 <= j < |CreatedRows(t, ps)| ==>
              CreatedRows(t, ps)[j].status == Pending && !CreatedRows(t, ps)[j].requiresApproval
  {
    if ps != [] {
      CreatedFlags(t, ps[..|ps| - 1]);
      assert !NeedsApproval(t, ps[|ps| - 1]);
    }
  }

  /** Every row of the batch waits in one of the two queues. */
  lemma {:induction false} QueuesCover(t: Tools, ps: seq<Proposal>, first: nat, id: nat)
    requires first <= id < first + UsableCount(t, ps)
    ensures (exists e :: e in QueueOf(t, ps, first, true) && e.id == id)
         || (exists e :: e in QueueOf(t, ps, first, false) && e.id == id)
  {
    var init, p := ps[..|ps| - 1], ps[|ps| - 1];
    if id < first + UsableCount(t, init) {
      QueuesCover(t, init, first, id);
    } else {
      assert Entry(p, id) in QueueOf(t, ps, first, t.kind(p).read);
    }
  }

  // ----- what a row and a result of a batch are -----

  /** The row of the i-th proposal, when it is created. */
  lemma {:induction false} CreatedAt(t: Tools, ps: seq<Proposal>, i: nat)
    requires i < |ps| && t.kind(ps[i]).Usable?
    ensures UsableCount(t, ps[..i]) < |CreatedRows(t, ps)|
    ensures var k := t.kind(ps[i]);
            CreatedRows(t, ps)[UsableCount(t, ps[..i])]
            == Row(ps[i].name, k.args, if k.approval then Proposed else Pending, k.approval, ModelLoop)
  {
    var init := ps[..|ps| - 1];
    if i < |init| {
      CreatedAt(t, init, i);
      assert init[..i] == ps[..i];
    }
  }

  /** The i-th proposal waits in the queue of its kind, with the row of that place. */
  lemma {:induction false} QueuedAt(t: Tools, ps: seq<Proposal>, first: nat, i: nat)
    requires i < |ps| && t.kind(ps[i]).Usable?
    ensures Entry(ps[i], first + UsableCount(t, ps[..i])) in QueueOf(t, ps, first, t.kind(ps[i]).read)
  {
    var init := ps[..|ps| - 1];
    if i < |init| {
      QueuedAt(t, init, first, i);
      assert init[..i] == ps[..i];
    }
  }

  lemma {:induction false} RefusedAt(t: Tools, ps: seq<Proposal>, i: nat)
    requires i < |ps| && !t.kind(ps[i]).Usable?
    ensures Refusal(t, ps[i]) in Refusals(t, ps)
  {
    if i < |ps| - 1 {
      RefusedAt(t, ps[..|ps| - 1], i);
    }
  }

  lemma ResultAt(t: Tools, qs: seq<Entry>, e: Entry)
    requires e in qs
    ensures Result(t, e) in ResultsOf(t, qs)
  {
    var i :| 0 <= i < |qs| && qs[i] == e;
    assert ResultsOf(t, qs)[i] == Result(t, e);
  }

  /** What the model is told of a proposal: why it was refused, or what its tool gave, or how that failed. */
  predicate Tells(t: Tools, p: Proposal, id: nat, r: ToolResult) {
    && r.callId == p.callId && r.name == p.name
    && match t.kind(p) {
         case UnknownTool => r.output == Error("unknown_tool")
         case BadArgs => r.output == Error("schema_validation_failed")
         case Usable(_, _, _) =>
           match t.run(id)
           case Ran(output) => r.output == Value(output)
           case PriceFrameFailed => r.output == Error("priceframe_error")
           case ToolInvalid => r.output == Error("tool_validation_error")
       }
  }

  /** The results hold what the model is to be told of the proposal. */
  ghost predicate ToldOf(t: Tools, p: Proposal, id: nat, rs: seq<ToolResult>) {
    exists r :: r in rs && Tells(t, p, id, r)
  }

  lemma InLayout(t: Tools, ps: seq<Proposal>, first: nat, r: ToolResult)
    requires || r in Refusals(t, ps) || r in ResultsOf(t, QueueOf(t, ps, first, true))
             || r in ResultsOf(t, QueueOf(t, ps, first, false))
    ensures r in Layout(t, ps, first)
  {
  }

  lemma ResultTells(t: Tools, p: Proposal, id: nat)
    ensures Tells(t, p, id, if t.kind(p).Usable? then Result(t, Entry(p, id)) else Refusal(t, p))
  {
  }

  lemma ToldIn(t: Tools, p: Proposal, id: nat, rs: seq<ToolResult>, r: ToolResult)
    requires r in rs && Tells(t, p, id, r)
    ensures ToldOf(t, p, id, rs)
  {
  }

  lemma UsableTold(t: Tools, ps: seq<Proposal>, first: nat, i: nat, e: Entry)
    requires i < |ps| && t.kind(ps[i]).Usable? && e == Entry(ps[i], first + UsableCount(t, ps[..i]))
    ensures Result(t, e) in Layout(t, ps, first)
  {
    QueuedAt(t, ps, first, i);
    ResultAt(t, QueueOf(t, ps, first, t.kind(ps[i]).read), e);
    InLayout(t, ps, first, Result(t, e));
  }

  lemma RefusalTold(t: Tools, ps: seq<Proposal>, first: nat, i: nat)
    requires i < |ps| && !t.kind(ps[i]).Usable?
    ensures Refusal(t, ps[i]) in Layout(t, ps, first)
  {
    RefusedAt(t, ps, i);
    InLayout(t, ps, first, Refusal(t, ps[i]));
  }

  lemma LayoutTells(t: Tools, ps: seq<Proposal>, first: nat, i: nat)
    requires i < |ps|
    ensures ToldOf(t, ps[i], first + UsableCount(t, ps[..i]), Layout(t, ps, first))
  {
    var p, id := ps[i], first + UsableCount(t, ps[..i]);
    ResultTells(t, p, id);
    if t.kind(p).Usable? {
      UsableTold(t, ps, first, i, Entry(p, id));
      ToldIn(t, p, id, Layout(t, ps, first), Result(t, Entry(p, id)));
    } else {
      RefusalTold(t, ps, first, i);
      ToldIn(t, p, id, Layout(t, ps, first), Refusal(t, p));
    }
  }

  predicate Terminal(e: Event) {
    e.RunAwaitingDecision? || e.RunCompleted? || e.RunError?
  }

  /** Events that neither decide a call, nor end the stream, nor carry text. */
  predicate Plain(es: seq<Event>) {
    forall i :: 0 <= i < |es| ==> Neutral(es[i]) && !Terminal(es[i]) && !es[i].MessageDelta?
  }

  /** The rows after the calls in `done` have executed. */
  ghost predicate ExecutedRows(t: Tools, before: seq<Row>, after: seq<Row>, done: set<nat>) {
    && |after| == |before|
    && forall j :: 0 <= j < |before| ==>
         after[j] == if j in done then WithOutcome(t, before[j], j) else before[j]
  }

  function Ids(q: seq<Entry>): set<nat> {
    if q == [] then {} else Ids(q[..|q| - 1]) + {q[|q| - 1].id}
  }

  lemma {:induction false} IdsMember(q: seq<Entry>, id: nat)
    ensures id in Ids(q) <==> exists i :: 0 <= i < |q| && q[i].id == id
  {
    if q != [] {
      var init := q[..|q| - 1];
      IdsMember(init, id);
      if i :| 0 <= i < |q| && q[i].id == id {
        assert i < |init| ==> init[i].id == id;
      }
    }
  }

  // ----- where a batch stops -----

  /** The first call for approval, and the ceiling leaves room for it. */
  predicate PausesAt(t: Tools, ps: seq<Proposal>, left: int, k: nat) {
    k < |ps| && NeedsApproval(t, ps[k]) && NoApproval(t, ps[..k]) && UsableCount(t, ps[..k]) < left
  }

  /** The first usable call beyond the ceiling, and no call for approval before it. */
  predicate ExceedsAt(t: Tools, ps: seq<Proposal>, left: int, k: nat) {
    k < |ps| && t.kind(ps[k]).Usable? && NoApproval(t, ps[..k]) && UsableCount(t, ps[..k]) == left
  }

  /** No call for approval, and no more usable calls than the ceiling leaves room for. */
  predicate Passes(t: Tools, ps: seq<Proposal>, left: int) {
    NoApproval(t, ps) && UsableCount(t, ps) <= left
  }

  lemma {:induction false} CountGrows(t: Tools, ps: seq<Proposal>, i: nat, j: nat)
    requires i <= j <= |ps|
    ensures UsableCount(t, ps[..i]) <= UsableCount(t, ps[..j])
    ensures i < j && t.kind(ps[i]).Usable? ==> UsableCount(t, ps[..i]) < UsableCount(t, ps[..j])
  {
    if i < j {
      CountGrows(t, ps, i, j - 1);
      assert ps[..j][..j - 1] == ps[..j - 1];
    }
  }

  lemma PrefixApproval(t: Tools, ps: seq<Proposal>, k: nat, j: nat)
    requires k < j <= |ps| && NoApproval(t, ps[..j])
    ensures !NeedsApproval(t, ps[k])
  {
    assert ps[..j][k] == ps[k];
  }

  /** A batch stops in one way at most, at one place. */
  lemma StopsOnce(t: Tools, ps: seq<Proposal>, left: int, k: nat, j: nat)
    ensures PausesAt(t, ps, left, k) && PausesAt(t, ps, left, j) ==> k == j
    ensures ExceedsAt(t, ps, left, k) && ExceedsAt(t, ps, left, j) ==> k == j
    ensures !(PausesAt(t, ps, left, k) && ExceedsAt(t, ps, left, j))
    ensures Passes(t, ps, left) ==> !PausesAt(t, ps, left, k) && !ExceedsAt(t, ps, left, k)
  {
    assert ps[..|ps|] == ps;
    if k < |ps| {
      CountGrows(t, ps, k, |ps|);
      if NoApproval(t, ps) {
        PrefixApproval(t, ps, k, |ps|);
      }
      if j < k {
        StopsOrder(t, ps, j, k);
      } else if k < j < |ps| {
        StopsOrder(t, ps, k, j);
      }
    }
  }

  lemma StopsOrder(t: Tools, ps: seq<Proposal>, i: nat, j: nat)
    requires i < j < |ps|
    ensures NoApproval(t, ps[..j]) ==> !NeedsApproval(t, ps[i])
    ensures t.kind(ps[i]).Usable? ==> UsableCount(t, ps[..i]) < UsableCount(t, ps[..j])
  {
    CountGrows(t, ps, i, j);
    if NoApproval(t, ps[..j]) {
      PrefixApproval(t, ps, i, j);
    }
  }

  /** Something executes exactly if a proposal is usable. */
  lemma QueuesEmpty(t: Tools, ps: seq<Proposal>, first: nat)
    ensures QueueOf(t, ps, first, true) == [] && QueueOf(t, ps, first, false) == [] <==> UsableCount(t, ps) == 0
  {
    if UsableCount(t, ps) > 0 {
      QueuesCover(t, ps, first, first);
    }
  }

  /** Readers can run: some may at a time, or no tool is a reader. */
  ghost predicate Schedulable(t: Tools, maxParallel: nat) {
    0 < maxParallel || forall p: Proposal :: t.kind(p).Usable? ==> !t.kind(p).read
  }

  // ----- the code -----

  datatype Stop = ScanDone | ScanPaused | ScanOverBudget

  /** What the scan has collected: refusals, and the queues of readers and writers. */
  datatype Collected = Collected(refusals: seq<ToolResult>, readers: seq<Entry>, writers: seq<Entry>)

  function CollectedOf(t: Tools, ps: seq<Proposal>, first: nat): Collected {
    Collected(Refusals(t, ps), QueueOf(t, ps, first, true), QueueOf(t, ps, first, false))
  }

  /** The log grew by plain events only. */
  predicate Grew(before: seq<Event>, after: seq<Event>) {
    |before| <= |after| && after[..|before|] == before && Plain(after[|before|..])
  }

  lemma GrewBy(a: seq<Event>, b: seq<Event>, e: Event)
    requires Grew(a, b) && Neutral(e) && !Terminal(e) && !e.MessageDelta?
    ensures Grew(a, b + [e])
  {
    assert (b + [e])[|a|..] == b[|a|..] + [e];
    assert (b + [e])[..|a|] == b[..|a|];
  }

  method CreateRow(db: RunTables, row: Row) returns (id: nat)
    modifies db`rows, db`log
    ensures id == |old(db.rows)| && db.rows == old(db.rows) + [row]
    ensures db.log == old(db.log) + [ToolProposed(id)]
  {
    id := |db.rows|;
    db.rows := db.rows + [row];
    db.Append(ToolProposed(id));
  }

  /** Why the scan stopped after k proposals. */
  predicate StopsAt(t: Tools, ps: seq<Proposal>, k: nat, stop: Stop, callsLeft: nat)
    requires k <= |ps|
  {
    match stop
    case ScanDone => k == |ps| && NoApproval(t, ps)
    case ScanPaused => 0 < k && NeedsApproval(t, ps[k - 1]) && NoApproval(t, ps[..k - 1])
    case ScanOverBudget => k < |ps| && t.kind(ps[k]).Usable? && NoApproval(t, ps[..k]) && callsLeft == 0
  }

  /** Count a usable proposal against the ceiling, create its row, and pause the run if it needs approval. */
  method AdmitCall(db: RunTables, budget: Budget, t: Tools, p: Proposal) returns (stop: Stop, id: nat)
    requires budget.Within() && t.kind(p).Usable?
    modifies db`rows, db`log, db`run, budget`toolCalls
    ensures budget.Within() && id == |old(db.rows)|
    ensures stop == if old(budget.toolCalls) == budget.settings.maxToolCalls then ScanOverBudget
                    else if t.kind(p).approval then ScanPaused else ScanDone
    ensures stop == ScanOverBudget ==>
              budget.toolCalls == old(budget.toolCalls) && db.rows == old(db.rows) && db.log == old(db.log)
    ensures stop != ScanOverBudget ==>
              budget.toolCalls == old(budget.toolCalls) + 1 && db.rows == old(db.rows) + [NewCall(t, p)]
    ensures stop == ScanDone ==> db.log == old(db.log) + [ToolProposed(id)]
    ensures stop == ScanPaused ==> db.log == old(db.log) + [ToolProposed(id)] + [RunAwaitingDecision]
    ensures db.run == if stop == ScanPaused then AwaitingDecision else old(db.run)
  {
    id := |db.rows|;
    var raised := budget.RecordToolCall();
    if raised.Some? {
      return ScanOverBudget, id;
    }
    id := CreateRow(db, NewCall(t, p));
    if t.kind(p).approval {
      db.run := AwaitingDecision;
      db.Append(RunAwaitingDecision);
      return ScanPaused, id;
    }
    return ScanDone, id;
  }

  function Collect(t: Tools, c: Collected, p: Proposal, id: nat): Collected {
    if !t.kind(p).Usable? then c.(refusals := c.refusals + [Refusal(t, p)])
    else if t.kind(p).read then c.(readers := c.readers + [Entry(p, id)])
    else c.(writers := c.writers + [Entry(p, id)])
  }

  /** One more proposal scanned. */
  lemma ScanSnoc(t: Tools, ps: seq<Proposal>, i: nat, first: nat)
    requires i < |ps|
    ensures CollectedOf(t, ps[..i + 1], first)
         == Collect(t, CollectedOf(t, ps[..i], first), ps[i], first + UsableCount(t, ps[..i]))
    ensures UsableCount(t, ps[..i + 1]) == UsableCount(t, ps[..i]) + (if t.kind(ps[i]).Usable? then 1 else 0)
    ensures CreatedRows(t, ps[..i + 1])
         == CreatedRows(t, ps[..i]) + (if t.kind(ps[i]).Usable? then [NewCall(t, ps[i])] else [])
    ensures NoApproval(t, ps[..i + 1]) <==> NoApproval(t, ps[..i]) && !NeedsApproval(t, ps[i])
  {
    assert ps[..i + 1][..i] == ps[..i] && ps[..i + 1][i] == ps[i];
    assert forall j :: 0 <= j < i ==> ps[..i + 1][j] == ps[..i][j];
  }

  /** The tables and the counter before the scan. */
  datatype Start = Start(rows: seq<Row>, log: seq<Event>, run: RunStatus, calls: nat)

  /** The scan stands after i proposals and has not stopped. */
  ghost predicate Scanning(db: RunTables, budget: Budget, t: Tools, ps: seq<Proposal>, i: nat, c: Collected, s: Start)
    reads db, budget
  {
    && i <= |ps| && budget.Within()
    && budget.toolCalls == s.calls + UsableCount(t, ps[..i])
    && db.rows == s.rows + CreatedRows(t, ps[..i]) && db.run == s.run
    && NoApproval(t, ps[..i])
    && c == CollectedOf(t, ps[..i], |s.rows|)
    && Grew(s.log, db.log)
  }

  /** The scan stopped at proposal i. */
  ghost predicate Stopped(db: RunTables, budget: Budget, t: Tools, ps: seq<Proposal>, k: nat, stop: Stop, s: Start)
    reads db, budget
  {
    && k <= |ps| && budget.Within()
    && budget.toolCalls == s.calls + UsableCount(t, ps[..k])
    && db.rows == s.rows + CreatedRows(t, ps[..k])
    && StopsAt(t, ps, k, stop, budget.settings.maxToolCalls - budget.toolCalls)
    && (stop != ScanPaused ==> Grew(s.log, db.log) && db.run == s.run)
    && (stop == ScanPaused ==>
          && |s.log| < |db.log| && Grew(s.log, db.log[..|db.log| - 1])
          && db.log[|db.log| - 1] == RunAwaitingDecision && db.run == AwaitingDecision)
  }

  lemma WaitLogged(a: seq<Event>, b: seq<Event>, id: nat)
    requires Grew(a, b)
    ensures Grew(a, b + [ToolProposed(id)])
    ensures (b + [ToolProposed(id)] + [RunAwaitingDecision])[..|b| + 1] == b + [ToolProposed(id)]
  {
    GrewBy(a, b, ToolProposed(id));
  }

  /** A proposal that is refused: the model is told why. */
  method ScanRefused(db: RunTables, budget: Budget, t: Tools, ps: seq<Proposal>, i: nat, c: Collected, ghost s: Start)
    returns (c': Collected)
    requires i < |ps| && !t.kind(ps[i]).Usable? && Scanning(db, budget, t, ps, i, c, s)
    modifies db`log
    ensures Scanning(db, budget, t, ps, i + 1, c', s)
  {
    ScanSnoc(t, ps, i, |s.rows|);
    GrewBy(s.log, db.log, ProposalRefused(ps[i].callId));
    db.Append(ProposalRefused(ps[i].callId));
    c' := Collect(t, c, ps[i], 0);
  }

  lemma RowsSnoc(t: Tools, ps: seq<Proposal>, i: nat, rows: seq<Row>)
    requires i < |ps| && t.kind(ps[i]).Usable?
    ensures rows + CreatedRows(t, ps[..i + 1]) == (rows + CreatedRows(t, ps[..i])) + [NewCall(t, ps[i])]
  {
    ScanSnoc(t, ps, i, |rows|);
  }

  /** A usable proposal: it is admitted, or the scan stops. */
  method ScanUsable(db: RunTables, budget: Budget, t: Tools, ps: seq<Proposal>, i: nat, c: Collected, ghost s: Start)
    returns (stop: Stop, c': Collected)
    requires i < |ps| && t.kind(ps[i]).Usable? && Scanning(db, budget, t, ps, i, c, s)
    modifies db`rows, db`log, db`run, budget`toolCalls
    ensures stop == ScanDone ==> Scanning(db, budget, t, ps, i + 1, c', s)
    ensures stop != ScanDone ==> Stopped(db, budget, t, ps, if stop == ScanPaused then i + 1 else i, stop, s)
  {
    ScanSnoc(t, ps, i, |s.rows|);
    RowsSnoc(t, ps, i, s.rows);
    WaitLogged(s.log, db.log, |db.rows|);
    var id;
    stop, id := AdmitCall(db, budget, t, ps[i]);
    c' := Collect(t, c, ps[i], id);
  }

  method ScanOne(db: RunTables, budget: Budget, t: Tools, ps: seq<Proposal>, i: nat, c: Collected, ghost s: Start)
    returns (stop: Stop, c': Collected)
    requires i < |ps| && Scanning(db, budget, t, ps, i, c, s)
    modifies db`rows, db`log, db`run, budget`toolCalls
    ensures stop == ScanDone ==> Scanning(db, budget, t, ps, i + 1, c', s)
    ensures stop != ScanDone ==> Stopped(db, budget, t, ps, if stop == ScanPaused then i + 1 else i, stop, s)
  {
    if t.kind(ps[i]).Usable? {
      stop, c' := ScanUsable(db, budget, t, ps, i, c, s);
    } else {
      c' := ScanRefused(db, budget, t, ps, i, c, s);
      stop := ScanDone;
    }
  }

  /** The first loop of the dispatch: refuse, count, create rows, queue; stop at the first call that needs approval or
      that the budget refuses. */
  method ScanProposals(db: RunTables, budget: Budget, t: Tools, ps: seq<Proposal>)
    returns (stop: Stop, c: Collected, ghost k: nat)
    requires budget.Within()
    modifies db`rows, db`log, db`run, budget`toolCalls
    ensures Stopped(db, budget, t, ps, k, stop, Start(old(db.rows), old(db.log), old(db.run), old(budget.toolCalls)))
    ensures stop == ScanDone ==> c == CollectedOf(t, ps, |old(db.rows)|)
  {
    c := Collected([], [], []);
    ghost var s := Start(db.rows, db.log, db.run, budget.toolCalls);
    var i := 0;
    while i < |ps|
      invariant i <= |ps| && Scanning(db, budget, t, ps, i, c, s)
    {
      stop, c := ScanOne(db, budget, t, ps, i, c, s);
      if stop != ScanDone {
        return stop, c, if stop == ScanPaused then i + 1 else i;
      }
      i := i + 1;
    }
    assert ps[..i] == ps;
    return ScanDone, c, i;
  }
}
