/** Leaving a tab of the wizard: which call the tab proposes, or why it proposes none. */
module StepAdvance {
  import opened Json
  import opened Contract
  import opened Template
  import opened ToolCalls
  import opened Approvals

  datatype BlockReason = MissingQuote | UnknownToken | UnknownTool | BadArgs

  /** The registry: which tools exist, their schemas, and which calls need approval. */
  datatype Registry = Registry(known: set<string>, validate: (string, Json) -> Option<Json>,
                               needsApproval: (string, Json) -> bool)

  const QUOTE_TOKEN: string := "draft.created_quote_id"

  predicate StartsWithin(s: string, part: string, i: nat) {
    i + |part| <= |s| && s[i..i + |part|] == part
  }

  /** Python's `part in s`. */
  predicate Contains(s: string, part: string) {
    exists i: nat :: i <= |s| && StartsWithin(s, part, i)
  }

  predicate PerTab(step: Step) {
    step.approvalMode == Some("per_tab")
  }

  predicate AtSubmit(step: Step) {
    step.approvalMode == Some("batch_at_submit")
  }

  /** The tab has a call to make when it is left. */
  predicate Bundles(step: Option<Step>) {
    step.Some? && PerTab(step.value) && step.value.onComplete.Some?
  }

  /** What the draft and the run offer to the templates. */
  function ScopeOf(payload: seq<Member>, quote: Option<int>): Scope {
    Scope(payload, if quote.Some? then [Member("created_quote_id", Num(quote.value as real))] else [])
  }

  /** The quote of the run is what its token finds; without one the draft is asked. */
  lemma QuoteFound(payload: seq<Member>, quote: Option<int>)
    ensures ScopeOf(payload, quote).payload == payload
    ensures quote.Some? ==>
              Lookup(DraftToken("created_quote_id"), ScopeOf(payload, quote)) == Some(Num(quote.value as real))
    ensures forall key: string :: quote.None? || key != "created_quote_id" ==>
              Get(ScopeOf(payload, quote).runtime, key) == None
  {
    var rest: seq<Member> := ScopeOf(payload, quote).runtime;
    assert rest != [] ==> rest[1..] == [];
  }

  function Tokens(step: Step, sc: Scope): seq<string>
    requires step.onComplete.Some?
  {
    Missing(Obj(step.onComplete.value.template), sc)
  }

  function Args(step: Step, sc: Scope): Json
    requires step.onComplete.Some?
  {
    Subst(Obj(step.onComplete.value.template), sc)
  }

  /** Any unresolved token about the created quote decides the reason. */
  method ReasonFor(tokens: seq<string>) returns (r: BlockReason)
    ensures r == MissingQuote <==> exists k :: 0 <= k < |tokens| && Contains(tokens[k], "draft.created_quote_id")
    ensures r in {MissingQuote, UnknownToken}
  {
    var k := 0;
    while k < |tokens|
      invariant k <= |tokens| && forall j :: 0 <= j < k ==> !Contains(tokens[j], QUOTE_TOKEN)
    {
      if Contains(tokens[k], QUOTE_TOKEN) {
        return MissingQuote;
      }
      k := k + 1;
    }
    return UnknownToken;
  }

  /** The call a tab proposes, before it gets a row. */
  datatype Evaluation =
    | Free
    | Call(tool: string, args: Json)
    | Stuck(reason: BlockReason, tokens: seq<string>)
    | Invalid

  /** What a tab with a call comes to, from the resolved template on: the tool must be named, known, and take the
      arguments. */
  predicate Judged(e: Evaluation, step: Step, sc: Scope, reg: Registry)
    requires step.onComplete.Some?
  {
    var tokens, tool := Tokens(step, sc), step.onComplete.value.tool;
    && (tokens != [] ==>
          && e.Stuck? && e.reason in {MissingQuote, UnknownToken} && e.tokens == tokens
          && (e.reason == MissingQuote <==>
                exists k :: 0 <= k < |tokens| && Contains(tokens[k], "draft.created_quote_id")))
    && (tokens == [] && tool.None? ==> e == Invalid)
    && (tokens == [] && tool.Some? && tool.value !in reg.known ==> e == Stuck(UnknownTool, []))
    && (tokens == [] && tool.Some? && tool.value in reg.known ==>
          e == match reg.validate(tool.value, Args(step, sc))
               case None => Stuck(BadArgs, [])
               case Some(args) => Call(tool.value, args))
  }

  method EvaluateCall(step: Step, sc: Scope, reg: Registry) returns (e: Evaluation)
    requires step.onComplete.Some?
    ensures Judged(e, step, sc, reg)
  {
    var resolved, unresolved := ResolveValue(Obj(step.onComplete.value.template), sc);
    if unresolved != [] {
      var reason := ReasonFor(unresolved);
      return Stuck(reason, unresolved);
    }
    var tool := step.onComplete.value.tool;
    if tool.None? {
      return Invalid;
    }
    if tool.value !in reg.known {
      return Stuck(UnknownTool, []);
    }
    var parsed := reg.validate(tool.value, resolved);
    return if parsed.None? then Stuck(BadArgs, []) else Call(tool.value, parsed.value);
  }

  /** What leaving a tab comes to, in every case. */
  ghost predicate Outcome(e: Evaluation, steps: seq<Step>, stepId: string, payload: Option<seq<Member>>,
                          quote: Option<int>, reg: Registry)
  {
    var step := GetStep(steps, stepId);
    if payload.None? || step.None? then e == Invalid
    else if step.value.approvalMode == Some("batch_at_submit") then e == Free
    else if step.value.approvalMode != Some("per_tab") then e == Invalid
    else if step.value.onComplete.None? then e == Free
    else Judged(e, step.value, ScopeOf(payload.value, quote), reg)
  }

  /** evaluate_step_advance up to the insertion of rows. */
  method Evaluate(steps: seq<Step>, stepId: string, payload: Option<seq<Member>>, quote: Option<int>, reg: Registry)
    returns (e: Evaluation)
    ensures Outcome(e, steps, stepId, payload, quote, reg)
  {
    if payload.None? {
      return Invalid;
    }
    var step := GetStep(steps, stepId);
    if step.None? {
      return Invalid;
    }
    if AtSubmit(step.value) {
      return Free;
    }
    if !PerTab(step.value) {
      return Invalid;
    }
    if step.value.onComplete.None? {
      return Free;
    }
    e := EvaluateCall(step.value, ScopeOf(payload.value, quote), reg);
  }

  /** A tab that has a call is blocked as unresolved exactly when its template has tokens without a value; and it
      proposes the call exactly when there are none, the tool is named and known, and it takes the arguments. */
  lemma BundleOutcome(e: Evaluation, steps: seq<Step>, stepId: string, payload: Option<seq<Member>>,
                      quote: Option<int>, reg: Registry)
    requires Outcome(e, steps, stepId, payload, quote, reg)
    requires payload.Some? && Bundles(GetStep(steps, stepId))
    ensures var step := GetStep(steps, stepId).value;
            var sc, tool := ScopeOf(payload.value, quote), step.onComplete.value.tool;
            && (e.Stuck? && e.reason in {MissingQuote, UnknownToken} <==> Tokens(step, sc) != [])
            && (e.Call? <==>
                  && Tokens(step, sc) == [] && tool.Some? && tool.value in reg.known
                  && reg.validate(tool.value, Args(step, sc)).Some?)
            && (e.Call? ==> Some(e.tool) == tool && Some(e.args) == reg.validate(e.tool, Args(step, sc)))
  {
    var step := GetStep(steps, stepId).value;
    assert !AtSubmit(step);
  }

  function ProposedRow(tool: string, args: Json, approval: bool, stepId: string): Row {
    Row(tool, args, if approval then Proposed else Pending, approval, WorkflowStep(stepId))
  }

  /** What leaving the tab commits. */
  function Rows(e: Evaluation, stepId: string, reg: Registry): seq<NewRow> {
    if e.Call? then [NewRow(ProposedRow(e.tool, e.args, reg.needsApproval(e.tool, e.args), stepId), false)] else []
  }

  function Announced(e: Evaluation, stepId: string, entered: seq<Event>): seq<Event> {
    match e
    case Free => [AdvanceEvent(stepId, "approved")] + entered + [RunCompleted]
    case Call(_, _) => [AdvanceEvent(stepId, "requested")]
    case Stuck(_, _) => [AdvanceEvent(stepId, "blocked"), RunCompleted]
    case Invalid => []
  }

  function StatusAfter(e: Evaluation): RunStatus {
    if e.Call? then AwaitingDecision else Completed
  }

  /** What each evaluation leaves behind: a call has a row of the tab, proposed if it needs approval, and the run waits;
      a tab that is free or blocked ends the run with its events; anything else leaves nothing. */
  predicate Commits(e: Evaluation, stepId: string, reg: Registry, entered: seq<Event>, was: Db, now: Db) {
    match e
    case Invalid => now == was
    case Free =>
      && now.rows == was.rows && now.run == Completed
      && now.log == was.log + ([AdvanceEvent(stepId, "approved")] + entered + [RunCompleted])
    case Stuck(_, _) =>
      && now.rows == was.rows && now.run == Completed
      && now.log == was.log + [AdvanceEvent(stepId, "blocked"), RunCompleted]
    case Call(tool, args) =>
      var approval := reg.needsApproval(tool, args);
      && now.rows == was.rows + [Row(tool, args, if approval then Proposed else Pending, approval, WorkflowStep(stepId))]
      && now.run == AwaitingDecision && now.log == was.log + [AdvanceEvent(stepId, "requested")]
  }

  /** POST /runs/{id}/step_advance: one commit of the tool-call machine, or a refusal that changes nothing. A finished or
      failed run is reopened on the way, whatever comes of it. */
  method RequestStepAdvance(db: RunTables, steps: seq<Step>, stepId: string, payload: Option<seq<Member>>,
                            quote: Option<int>, reg: Registry, entered: seq<Event>)
    returns (e: Evaluation)
    requires AllNeutral(entered)
    modifies db
    ensures e == Invalid ==> db.State() == old(db.State())
    ensures e != Invalid ==>
              var a := ACommit(Rows(e, stepId, reg), Announced(e, stepId, entered), StatusAfter(e));
              Enabled(old(db.State()), a) && db.State() == Next(old(db.State()), a)
    ensures Outcome(e, steps, stepId, payload, quote, reg)
    ensures Commits(e, stepId, reg, entered, old(db.State()), db.State())
  {
    e := Evaluate(steps, stepId, payload, quote, reg);
    if e != Invalid {
      CommitAdvance(db, e, stepId, reg, entered);
    }
  }

  /** The row, the events and the status of an evaluated advance. */
  method CommitAdvance(db: RunTables, e: Evaluation, stepId: string, reg: Registry, entered: seq<Event>)
    requires e != Invalid && AllNeutral(entered)
    modifies db`rows, db`log, db`run
    ensures var a := ACommit(Rows(e, stepId, reg), Announced(e, stepId, entered), StatusAfter(e));
            Enabled(old(db.State()), a) && db.State() == Next(old(db.State()), a)
  {
    NothingRan(Rows(e, stepId, reg), db.State());
    match e {
      case Call(tool, args) =>
        db.rows := db.rows + [ProposedRow(tool, args, reg.needsApproval(tool, args), stepId)];
      case _ =>
    }
    db.log := db.log + Announced(e, stepId, entered);
    db.run := StatusAfter(e);
  }

  /** A proposed call is the block that leaves a tab, and the tab then has one more open call, the new one; any other
      evaluation leaves every tab's open calls alone. So a tab left while it has an open call has two. */
  lemma LeavingAddsOne(s: Db, e: Evaluation, stepId: string, reg: Registry, entered: seq<Event>, tab: string)
    requires e != Invalid && AllNeutral(entered)
    ensures var a := ACommit(Rows(e, stepId, reg), Announced(e, stepId, entered), StatusAfter(e));
            && (e.Call? ==> a == LeaveTab(stepId, Rows(e, stepId, reg)[0].row))
            && Enabled(s, a)
            && OpenIn(Next(s, a).rows, tab)
               == if e.Call? && tab == stepId then OpenIn(s.rows, tab) + [|s.rows|] else OpenIn(s.rows, tab)
  {
    var batch := Rows(e, stepId, reg);
    if e.Call? {
      assert batch[1..] == [] && RowsOf(batch) == [batch[0].row];
      assert (s.rows + [batch[0].row])[..|s.rows|] == s.rows;
    } else {
      assert s.rows + [] == s.rows;
    }
  }

  // ----- the order of the tabs -----

  function IndexOfStep(steps: seq<Step>, id: string): (i: nat)
    ensures i <= |steps| && (i < |steps| ==> steps[i].id == id)
    ensures forall j :: 0 <= j < i ==> steps[j].id != id
  {
    if steps == [] || steps[0].id == id then 0 else 1 + IndexOfStep(steps[1..], id)
  }

  /** The tab behind the first one with the id. */
  function TabAfter(steps: seq<Step>, current: string): Option<Step> {
    var i := IndexOfStep(steps, current);
    if i + 1 < |steps| then Some(steps[i + 1]) else None
  }

  /** next_step_after: the tab behind the first one with the id. */
  method NextStepAfter(steps: seq<Step>, current: string) returns (r: Option<Step>)
    ensures r == TabAfter(steps, current)
  {
    var found := false;
    for k := 0 to |steps|
      invariant found <==> IndexOfStep(steps, current) < k
      invariant found ==> IndexOfStep(steps, current) == k - 1
    {
      if found {
        return Some(steps[k]);
      }
      if steps[k].id == current {
        found := true;
      }
    }
    return None;
  }

  /** The tab that the user sees after n times next, from the first one on, if there is one. */
  function Walk(steps: seq<Step>, n: nat): Option<Step> {
    if n == 0 then (if steps == [] then None else Some(steps[0]))
    else
      match Walk(steps, n - 1)
      case None => None
      case Some(step) => TabAfter(steps, step.id)
  }

  predicate DistinctIds(steps: seq<Step>) {
    forall i, j :: 0 <= i < j < |steps| ==> steps[i].id != steps[j].id
  }

  lemma {:induction false} WalkInOrder(steps: seq<Step>, n: nat)
    requires DistinctIds(steps) && n <= |steps|
    ensures Walk(steps, n) == if n < |steps| then Some(steps[n]) else None
  {
    if n > 0 {
      WalkInOrder(steps, n - 1);
      var k := IndexOfStep(steps, steps[n - 1].id);
      assert k <= n - 1 && steps[k].id == steps[n - 1].id;
    }
  }

  /** The tab is one of the first. */
  predicate Among(r: Option<Step>, steps: seq<Step>, j: nat) {
    exists k :: 0 <= k <= j && k < |steps| && r == Some(steps[k])
  }

  /** A tab that repeats an id throws the walk back to the earlier one: it never gets past the repetition. */
  lemma {:induction false} WalkStuck(steps: seq<Step>, i: nat, j: nat, n: nat)
    requires i < j < |steps| && steps[i].id == steps[j].id
    ensures Among(Walk(steps, n), steps, j)
  {
    if n == 0 {
      assert Walk(steps, n) == Some(steps[0]);
    } else {
      WalkStuck(steps, i, j, n - 1);
      var k :| 0 <= k <= j && Walk(steps, n - 1) == Some(steps[k]);
      var first := IndexOfStep(steps, steps[k].id);
      assert first <= k;
      if k == j {
        assert first <= i;
      }
      assert Walk(steps, n) == Some(steps[first + 1]);
    }
  }

  /** The walk through the tabs shows them in their declared order and ends after the last, exactly when no id repeats;
      otherwise it never ends. */
  lemma OrderWalked(steps: seq<Step>)
    ensures DistinctIds(steps) <==> exists n :: Walk(steps, n) == None
    ensures DistinctIds(steps) ==>
              forall n :: 0 <= n <= |steps| ==> Walk(steps, n) == if n < |steps| then Some(steps[n]) else None
  {
    if DistinctIds(steps) {
      forall n | 0 <= n <= |steps| ensures Walk(steps, n) == if n < |steps| then Some(steps[n]) else None {
        WalkInOrder(steps, n);
      }
      assert Walk(steps, |steps|) == None;
    } else {
      var i, j :| 0 <= i < j < |steps| && steps[i].id == steps[j].id;
      forall n ensures Walk(steps, n) != None {
        WalkStuck(steps, i, j, n);
      }
    }
  }
}
