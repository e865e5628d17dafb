/** The model loop of a run: provider turns under a budget, streaming, loop detection, dispatch, and one ending. */
module Runner {
  import opened Json
  import opened ToolCalls
  import opened ToolCallLaws
  import opened Approvals
  import opened LoopBudget
  import opened DeltaStreamer
  import opened Dispatch
  import opened Executor
  import Redactor
  import Marking

  datatype StreamEvent =
    | TextDelta(delta: string)
    | ToolUse(proposal: Proposal)
    | Usage(input: Option<int>, output: Option<int>)
    | OtherEvent

  /** One provider call: the events it streams, and whether it ends in an error. */
  datatype Reply = Reply(events: seq<StreamEvent>, failed: bool)

  datatype Message = Given(text: string) | ToolMessage(result: ToolResult)

  /** Everything the loop does not control. The provider answers the step-th call for the messages it is given. */
  datatype World = World(
    reply: (nat, seq<Message>) -> Reply, elapsed: nat -> real, redact: string -> string, dump: Json -> string,
    tools: Tools, inRate: real, outRate: real)

  // ----- what a stream amounts to -----

  function TextOf(events: seq<StreamEvent>): string {
    if events == [] then ""
    else
      var e, rest := events[|events| - 1], TextOf(events[..|events| - 1]);
      if e.TextDelta? then rest + e.delta else rest
  }

  function ProposalsOf(events: seq<StreamEvent>): seq<Proposal> {
    if events == [] then []
    else
      var e, rest := events[|events| - 1], ProposalsOf(events[..|events| - 1]);
      if e.ToolUse? then rest + [e.proposal] else rest
  }

  /** The last usage report wins, field by field. */
  function UsageOf(events: seq<StreamEvent>): (int, int) {
    if events == [] then (0, 0)
    else
      var e, rest := events[|events| - 1], UsageOf(events[..|events| - 1]);
      if !e.Usage? then rest
      else (if e.input.Some? then e.input.value else rest.0, if e.output.Some? then e.output.value else rest.1)
  }

  // ----- what it says, event by event -----

  predicate ReportsInput(events: seq<StreamEvent>, k: int) {
    0 <= k < |events| && events[k].Usage? && events[k].input.Some?
  }

  predicate ReportsOutput(events: seq<StreamEvent>, k: int) {
    0 <= k < |events| && events[k].Usage? && events[k].output.Some?
  }

  /** The input of the last usage report that has one, 0 if none has. */
  ghost predicate LastInput(events: seq<StreamEvent>, n: int) {
    || (n == 0 && forall j :: 0 <= j < |events| ==> !ReportsInput(events, j))
    || exists k :: ReportsInput(events, k) && events[k].input == Some(n)
                   && forall j :: k < j < |events| ==> !ReportsInput(events, j)
  }

  /** The output of the last usage report that has one, 0 if none has. */
  ghost predicate LastOutput(events: seq<StreamEvent>, n: int) {
    || (n == 0 && forall j :: 0 <= j < |events| ==> !ReportsOutput(events, j))
    || exists k :: ReportsOutput(events, k) && events[k].output == Some(n)
                   && forall j :: k < j < |events| ==> !ReportsOutput(events, j)
  }

  lemma ReportsInit(events: seq<StreamEvent>, e: StreamEvent, k: int)
    requires 0 <= k < |events|
    ensures ReportsInput(events + [e], k) == ReportsInput(events, k)
    ensures ReportsOutput(events + [e], k) == ReportsOutput(events, k)
  {
  }

  lemma LastInputSnoc(events: seq<StreamEvent>, e: StreamEvent, n: int)
    requires if e.Usage? && e.input.Some? then e.input == Some(n) else LastInput(events, n)
    ensures LastInput(events + [e], n)
  {
    var all := events + [e];
    forall j | 0 <= j < |events| ensures ReportsInput(all, j) == ReportsInput(events, j) && all[j] == events[j] {
      ReportsInit(events, e, j);
    }
    if e.Usage? && e.input.Some? {
      assert ReportsInput(all, |events|);
    } else {
      assert !ReportsInput(all, |events|);
      if k :| ReportsInput(events, k) && events[k].input == Some(n)
              && forall j :: k < j < |events| ==> !ReportsInput(events, j) {
        assert ReportsInput(all, k) && all[k].input == Some(n);
      }
    }
  }

  lemma LastOutputSnoc(events: seq<StreamEvent>, e: StreamEvent, n: int)
    requires if e.Usage? && e.output.Some? then e.output == Some(n) else LastOutput(events, n)
    ensures LastOutput(events + [e], n)
  {
    var all := events + [e];
    forall j | 0 <= j < |events| ensures ReportsOutput(all, j) == ReportsOutput(events, j) && all[j] == events[j] {
      ReportsInit(events, e, j);
    }
    if e.Usage? && e.output.Some? {
      assert ReportsOutput(all, |events|);
    } else {
      assert !ReportsOutput(all, |events|);
      if k :| ReportsOutput(events, k) && events[k].output == Some(n)
              && forall j :: k < j < |events| ==> !ReportsOutput(events, j) {
        assert ReportsOutput(all, k) && all[k].output == Some(n);
      }
    }
  }

  /** The usage is that of the last reports, input and output each on its own. */
  lemma {:induction false} UsageIsLast(events: seq<StreamEvent>)
    ensures LastInput(events, UsageOf(events).0) && LastOutput(events, UsageOf(events).1)
  {
    if events != [] {
      var init, e := events[..|events| - 1], events[|events| - 1];
      UsageIsLast(init);
      LastInputSnoc(init, e, UsageOf(events).0);
      LastOutputSnoc(init, e, UsageOf(events).1);
      assert init + [e] == events;
    }
  }

  /** How many of the first k events propose a call. */
  function UsesBefore(events: seq<StreamEvent>, k: nat): (n: nat)
    requires k <= |events|
    ensures n <= k
  {
    if k == 0 then 0 else UsesBefore(events, k - 1) + (if events[k - 1].ToolUse? then 1 else 0)
  }

  /** How long the text of the first k events is. */
  function LengthBefore(events: seq<StreamEvent>, k: nat): nat
    requires k <= |events|
  {
    if k == 0 then 0 else LengthBefore(events, k - 1) + (if events[k - 1].TextDelta? then |events[k - 1].delta| else 0)
  }

  predicate ProposalStands(events: seq<StreamEvent>, ps: seq<Proposal>, k: nat) {
    k < |events| && events[k].ToolUse? ==>
      UsesBefore(events, k) < |ps| && ps[UsesBefore(events, k)] == events[k].proposal
  }

  predicate DeltaStands(events: seq<StreamEvent>, text: string, k: nat) {
    k < |events| && events[k].TextDelta? ==>
      var from := LengthBefore(events, k);
      from + |events[k].delta| <= |text| && text[from..from + |events[k].delta|] == events[k].delta
  }

  /** The proposals are those of the tool uses, and the text is that of the deltas, each in its place and nothing else. */
  ghost predicate ReadsAs(events: seq<StreamEvent>, text: string, ps: seq<Proposal>) {
    && |ps| == UsesBefore(events, |events|) && |text| == LengthBefore(events, |events|)
    && (forall k: nat :: k < |events| ==> ProposalStands(events, ps, k))
    && (forall k: nat :: k < |events| ==> DeltaStands(events, text, k))
  }

  lemma {:induction false} BeforeSame(events: seq<StreamEvent>, e: StreamEvent, k: nat)
    requires k <= |events|
    ensures UsesBefore(events + [e], k) == UsesBefore(events, k)
    ensures LengthBefore(events + [e], k) == LengthBefore(events, k)
  {
    if k > 0 {
      BeforeSame(events, e, k - 1);
    }
  }

  lemma StandsOn(events: seq<StreamEvent>, e: StreamEvent, text: string, more: string, ps: seq<Proposal>,
                 next: seq<Proposal>, k: nat)
    requires k < |events| && ProposalStands(events, ps, k) && DeltaStands(events, text, k)
    ensures ProposalStands(events + [e], ps + next, k) && DeltaStands(events + [e], text + more, k)
  {
    BeforeSame(events, e, k);
    if events[k].TextDelta? {
      var from, to := LengthBefore(events, k), LengthBefore(events, k) + |events[k].delta|;
      assert (text + more)[from..to] == text[from..to];
    }
  }

  lemma {:induction false} StreamReadsAs(events: seq<StreamEvent>)
    ensures ReadsAs(events, TextOf(events), ProposalsOf(events))
  {
    if events != [] {
      var init, e := events[..|events| - 1], events[|events| - 1];
      var more, next := if e.TextDelta? then e.delta else "", if e.ToolUse? then [e.proposal] else [];
      StreamReadsAs(init);
      BeforeSame(init, e, |init|);
      assert init + [e] == events;
      assert TextOf(events) == TextOf(init) + more && ProposalsOf(events) == ProposalsOf(init) + next;
      forall k: nat | k < |init|
        ensures ProposalStands(events, ProposalsOf(events), k) && DeltaStands(events, TextOf(events), k)
      {
        StandsOn(init, e, TextOf(init), more, ProposalsOf(init), next, k);
      }
      assert ProposalStands(events, ProposalsOf(events), |init|) && DeltaStands(events, TextOf(events), |init|);
    }
  }

  /** The redacted snapshots that reach the streamer: one for each event that made the text grow. */
  function Snapshots(redact: string -> string, events: seq<StreamEvent>): seq<string> {
    if events == [] then []
    else
      var e, rest := events[|events| - 1], Snapshots(redact, events[..|events| - 1]);
      if e.TextDelta? && e.delta != "" then rest + [redact(TextOf(events))] else rest
  }

  /** The text a client puts together from the deltas in a stretch of the log. */
  function DeltaText(es: seq<Event>): string {
    if es == [] then ""
    else
      var e, rest := es[|es| - 1], DeltaText(es[..|es| - 1]);
      if e.MessageDelta? then rest + e.delta else rest
  }

  lemma DeltaTextSnoc(log0: seq<Event>, log: seq<Event>, e: Event)
    requires |log0| <= |log|
    ensures DeltaText((log + [e])[|log0|..])
         == DeltaText(log[|log0|..]) + (if e.MessageDelta? then e.delta else "")
  {
    assert (log + [e])[|log0|..] == log[|log0|..] + [e];
    assert (log[|log0|..] + [e])[..|log[|log0|..]|] == log[|log0|..];
  }

  /** The log grew by events that neither decide a call nor end the stream. */
  predicate Went(before: seq<Event>, after: seq<Event>) {
    |before| <= |after| && after[..|before|] == before && Passing(after[|before|..])
  }

  predicate Passing(es: seq<Event>) {
    forall i :: 0 <= i < |es| ==> Neutral(es[i]) && !Terminal(es[i])
  }

  lemma WentBy(a: seq<Event>, b: seq<Event>, e: Event)
    requires Went(a, b) && Neutral(e) && !Terminal(e)
    ensures Went(a, b + [e])
  {
    assert (b + [e])[|a|..] == b[|a|..] + [e];
    assert (b + [e])[..|a|] == b[..|a|];
  }

  // ----- one provider call -----

  method EmitDelta(db: RunTables, messageId: nat, delta: Option<string>, ghost log0: seq<Event>)
    requires Went(log0, db.log)
    modifies db`log
    ensures Went(log0, db.log)
    ensures DeltaText(db.log[|log0|..])
         == DeltaText(old(db.log)[|log0|..]) + (if delta.Some? then delta.value else "")
  {
    if delta.Some? {
      WentBy(log0, db.log, MessageDelta(messageId, delta.value));
      DeltaTextSnoc(log0, db.log, MessageDelta(messageId, delta.value));
      db.Append(MessageDelta(messageId, delta.value));
    }
  }

  lemma SnapshotSnoc(redact: string -> string, events: seq<StreamEvent>, i: nat)
    requires i < |events|
    ensures var e := events[i];
            && events[..i + 1][..i] == events[..i]
            && TextOf(events[..i + 1]) == TextOf(events[..i]) + (if e.TextDelta? then e.delta else "")
            && Snapshots(redact, events[..i + 1])
               == (if e.TextDelta? && e.delta != "" then
                     Snapshots(redact, events[..i]) + [redact(TextOf(events[..i + 1]))]
                   else Snapshots(redact, events[..i]))
  {
    assert events[..i + 1][..i] == events[..i];
  }

  lemma SentSnoc(snapshots: seq<string>, s: string)
    ensures Sent(snapshots + [s]) == Sent(snapshots) + Cut(Reach(snapshots), s)
    ensures Reach(snapshots + [s]) == SafeLength(Reach(snapshots), s)
  {
    assert (snapshots + [s])[..|snapshots|] == snapshots;
  }

  /** One event of the stream: collect it, and stream on if the text grew. */
  method Consume(db: RunTables, streamer: Streamer, w: World, events: seq<StreamEvent>, i: nat, text: string,
                 messageId: nat, ghost log0: seq<Event>)
    returns (text': string)
    requires i < |events| && text == TextOf(events[..i]) && Went(log0, db.log)
    requires streamer.emitted == Reach(Snapshots(w.redact, events[..i]))
    requires DeltaText(db.log[|log0|..]) == Sent(Snapshots(w.redact, events[..i]))
    modifies db`log, streamer
    ensures text' == TextOf(events[..i + 1]) && Went(log0, db.log)
    ensures streamer.emitted == Reach(Snapshots(w.redact, events[..i + 1]))
    ensures DeltaText(db.log[|log0|..]) == Sent(Snapshots(w.redact, events[..i + 1]))
  {
    SnapshotSnoc(w.redact, events, i);
    text' := if events[i].TextDelta? then text + events[i].delta else text;
    if text' != text {
      SentSnoc(Snapshots(w.redact, events[..i]), w.redact(text'));
      var delta := streamer.OnText(w.redact(text'));
      EmitDelta(db, messageId, delta, log0);
    }
  }

  /** Drain the stream of one provider call. */
  method StreamReply(db: RunTables, streamer: Streamer, w: World, events: seq<StreamEvent>, messageId: nat)
    returns (text: string, proposals: seq<Proposal>)
    requires streamer.emitted == 0
    modifies db`log, streamer
    ensures Went(old(db.log), db.log)
    ensures text == TextOf(events) && proposals == ProposalsOf(events)
    ensures streamer.emitted == Reach(Snapshots(w.redact, events))
    ensures DeltaText(db.log[|old(db.log)|..]) == Sent(Snapshots(w.redact, events))
  {
    ghost var log0 := db.log;
    text, proposals := "", [];
    var i := 0;
    while i < |events|
      invariant i <= |events| && text == TextOf(events[..i]) && proposals == ProposalsOf(events[..i])
      invariant Went(log0, db.log)
      invariant streamer.emitted == Reach(Snapshots(w.redact, events[..i]))
      invariant DeltaText(db.log[|log0|..]) == Sent(Snapshots(w.redact, events[..i]))
    {
      text := Consume(db, streamer, w, events, i, text, messageId, log0);
      assert events[..i + 1][..i] == events[..i];
      if events[i].ToolUse? {
        proposals := proposals + [events[i].proposal];
      }
      i := i + 1;
    }
    assert events[..i] == events;
  }

  // ----- one turn of the model -----

  datatype TurnResult =
    | Raised(cause: Cause)
    | Turned(proposals: seq<Proposal>)

  /** What the client has seen of the turn's message when the turn ends well: the streamed deltas with the tail. */
  function MessageShown(w: World, events: seq<StreamEvent>): string {
    if TextOf(events) == "" then ""
    else Streamed(Snapshots(w.redact, events), w.redact(TextOf(events)))
  }

  /** The step ceiling and the clock allow another step. */
  predicate Permitted(w: World, s: Settings, steps: nat) {
    steps < s.maxSteps && w.elapsed(steps) < s.maxWallClock
  }

  /** The counters after a reply: the last reported usage, at the rates per thousand tokens. */
  ghost predicate Bills(w: World, used: Tally, after: Tally, events: seq<StreamEvent>) {
    var input, output := after.input - used.input, after.output - used.output;
    && LastInput(events, input) && LastOutput(events, output)
    && after.cost == used.cost + (input as real * w.inRate + output as real * w.outRate) / 1000.0
  }

  lemma ChargedBills(w: World, used: Tally, counted: Tally, events: seq<StreamEvent>)
    requires counted.input == used.input && counted.output == used.output && counted.cost == used.cost
    ensures Bills(w, used, Charged(w, counted, events), events)
  {
    UsageIsLast(events);
  }

  lemma ChargeBills(w: World, used: Tally, after: Tally, events: seq<StreamEvent>)
    requires after == Charged(w, used, events)
    ensures Bills(w, used, after, events)
  {
    ChargedBills(w, used, used, events);
  }

  /** What the provider answers in the next step. */
  function Answer(w: World, steps: nat, messages: seq<Message>): Reply {
    w.reply(steps + 1, messages)
  }

  function Charged(w: World, used: Tally, events: seq<StreamEvent>): Tally {
    var usage := UsageOf(events);
    used.(input := used.input + usage.0, output := used.output + usage.1,
          cost := used.cost + (usage.0 as real * w.inRate + usage.1 as real * w.outRate) / 1000.0)
  }

  /** The usage after the next step, if it is heard. */
  function Total(w: World, used: Tally, messages: seq<Message>): Tally {
    Charged(w, used.(steps := used.steps + 1), Answer(w, used.steps, messages).events)
  }

  /** When each cause keeps a permitted step from its proposals. */
  predicate Objects(s: Settings, failed: bool, total: Tally, c: Cause) {
    match c
    case ProviderFailed => failed
    case InputTokens => !failed && total.input > s.maxInput
    case OutputTokens => !failed && total.input <= s.maxInput && total.output > s.maxOutput
    case Cost => !failed && total.input <= s.maxInput && total.output <= s.maxOutput && total.cost > s.costHard
    case _ => false
  }

  /** When each cause keeps a turn from its proposals. */
  predicate Hinders(w: World, s: Settings, used: Tally, messages: seq<Message>, c: Cause) {
    match c
    case StepBudget => used.steps == s.maxSteps
    case WallClock => used.steps < s.maxSteps && w.elapsed(used.steps) >= s.maxWallClock
    case _ =>
      && Permitted(w, s, used.steps)
      && Objects(s, Answer(w, used.steps, messages).failed, Total(w, used, messages), c)
  }

  predicate Affords(s: Settings, total: Tally) {
    total.input <= s.maxInput && total.output <= s.maxOutput && total.cost <= s.costHard
  }

  /** The turn gets its proposals: it is permitted, the stream does not fail, and all ceilings are kept. */
  predicate Answered(w: World, s: Settings, used: Tally, messages: seq<Message>) {
    && Permitted(w, s, used.steps) && !Answer(w, used.steps, messages).failed
    && Affords(s, Total(w, used, messages))
  }

  /** The counters after the turn. A stream that fails is not charged. */
  function Opened(w: World, s: Settings, used: Tally, messages: seq<Message>): Tally {
    if !Permitted(w, s, used.steps) then used
    else if Answer(w, used.steps, messages).failed then used.(steps := used.steps + 1)
    else Total(w, used, messages)
  }

  /** What the client sees of the turn: the whole message if the turn gets its proposals, else what was streamed. */
  function Spoken(w: World, s: Settings, used: Tally, messages: seq<Message>): string {
    var events := Answer(w, used.steps, messages).events;
    if !Permitted(w, s, used.steps) then ""
    else if Answered(w, s, used, messages) then MessageShown(w, events)
    else Sent(Snapshots(w.redact, events))
  }

  method LogStep(db: RunTables, e: Event, ghost log0: seq<Event>)
    requires Neutral(e) && !Terminal(e) && !e.MessageDelta? && Went(log0, db.log)
    modifies db`log
    ensures Went(log0, db.log) && DeltaText(db.log[|log0|..]) == DeltaText(old(db.log)[|log0|..])
  {
    WentBy(log0, db.log, e);
    DeltaTextSnoc(log0, db.log, e);
    db.Append(e);
  }

  lemma WentTrans(a: seq<Event>, b: seq<Event>, c: seq<Event>)
    requires Went(a, b) && Went(b, c)
    ensures Went(a, c)
    ensures DeltaText(c[|a|..]) == DeltaText(b[|a|..]) + DeltaText(c[|b|..])
  {
    assert c[|a|..] == b[|a|..] + c[|b|..] by {
      assert c == b + c[|b|..];
    }
    DeltaTextConcat(b[|a|..], c[|b|..]);
  }

  lemma {:induction false} DeltaTextConcat(a: seq<Event>, b: seq<Event>)
    ensures DeltaText(a + b) == DeltaText(a) + DeltaText(b)
  {
    if b == [] {
      assert a + b == a;
    } else {
      DeltaTextConcat(a, b[..|b| - 1]);
      assert (a + b)[..|a + b| - 1] == a + b[..|b| - 1];
    }
  }

  /** _call_provider: drain the stream, then charge its usage. Either can fail. */
  method CallProvider(db: RunTables, budget: Budget, streamer: Streamer, w: World, reply: Reply, messageId: nat)
    returns (raised: Option<Cause>, text: string, proposals: seq<Proposal>)
    requires streamer.emitted == 0 && budget.Within()
    modifies db`log, streamer, budget`inputTokens, budget`outputTokens, budget`cost
    ensures budget.Within() && Went(old(db.log), db.log)
    ensures budget.Used() == if reply.failed then old(budget.Used()) else Charged(w, old(budget.Used()), reply.events)
    ensures !reply.failed ==> Bills(w, old(budget.Used()), budget.Used(), reply.events)
    ensures raised == if reply.failed then Some(ProviderFailed) else Ceiling(budget.settings, budget.Used())
    ensures text == TextOf(reply.events) && proposals == ProposalsOf(reply.events)
    ensures ReadsAs(reply.events, text, proposals)
    ensures streamer.emitted == Reach(Snapshots(w.redact, reply.events))
    ensures DeltaText(db.log[|old(db.log)|..]) == Sent(Snapshots(w.redact, reply.events))
  {
    ghost var used := budget.Used();
    text, proposals := StreamReply(db, streamer, w, reply.events, messageId);
    StreamReadsAs(reply.events);
    if reply.failed {
      return Some(ProviderFailed), text, proposals;
    }
    var usage := UsageOf(reply.events);
    raised := budget.RecordUsage(usage.0, usage.1, w.inRate, w.outRate);
    ChargeBills(w, used, budget.Used(), reply.events);
  }

  /** After the provider call: flush the held-back tail and close the step. */
  method CloseTurn(db: RunTables, streamer: Streamer, w: World, events: seq<StreamEvent>, text: string, messageId: nat,
                   ghost log0: seq<Event>)
    requires text == TextOf(events) && Went(log0, db.log)
    requires streamer.emitted == Reach(Snapshots(w.redact, events))
    requires DeltaText(db.log[|log0|..]) == Sent(Snapshots(w.redact, events))
    modifies db`log, streamer
    ensures Went(log0, db.log) && DeltaText(db.log[|log0|..]) == MessageShown(w, events)
  {
    if text != "" {
      var delta := streamer.Finish(w.redact(text));
      EmitDelta(db, messageId, delta, log0);
    } else {
      NoText(w.redact, events);
    }
    LogStep(db, StepCompleted(messageId), log0);
  }

  lemma {:induction false} NoText(redact: string -> string, events: seq<StreamEvent>)
    requires TextOf(events) == ""
    ensures Snapshots(redact, events) == []
  {
    if events != [] {
      NoText(redact, events[..|events| - 1]);
    }
  }

  /** What keeps a permitted step from its proposals. */
  function Objection(s: Settings, reply: Reply, total: Tally): Option<Cause> {
    if reply.failed then Some(ProviderFailed) else Ceiling(s, total)
  }

  function ResultOf(reply: Reply, objection: Option<Cause>): TurnResult {
    match objection
    case Some(c) => Raised(c)
    case None => Turned(ProposalsOf(reply.events))
  }

  /** What a permitted step comes to, from the counters with the step counted on. */
  predicate StepIs(w: World, s: Settings, counted: Tally, messages: seq<Message>, r: TurnResult, after: Tally,
                   shown: string)
  {
    var reply := w.reply(counted.steps, messages);
    var objection := Objection(s, reply, after);
    && after == (if reply.failed then counted else Charged(w, counted, reply.events))
    && r == ResultOf(reply, objection)
    && shown == if objection.None? then MessageShown(w, reply.events) else Sent(Snapshots(w.redact, reply.events))
  }

  /** A permitted step: the provider is called, its text is streamed, its usage is charged; only then the held-back tail
      is flushed and the step is closed. */
  method Converse(db: RunTables, budget: Budget, w: World, messages: seq<Message>, ghost log0: seq<Event>)
    returns (r: TurnResult)
    requires budget.Within() && Went(log0, db.log) && DeltaText(db.log[|log0|..]) == ""
    modifies db`log, budget`inputTokens, budget`outputTokens, budget`cost
    ensures budget.Within() && Went(log0, db.log)
    ensures StepIs(w, budget.settings, old(budget.Used()), messages, r, budget.Used(), DeltaText(db.log[|log0|..]))
  {
    var messageId := budget.steps;
    ghost var log1 := db.log;
    var reply := w.reply(budget.steps, messages);
    var streamer := new Streamer();
    var raised, text, proposals := CallProvider(db, budget, streamer, w, reply, messageId);
    WentTrans(log0, log1, db.log);
    if raised.Some? {
      return Raised(raised.value);
    }
    CloseTurn(db, streamer, w, reply.events, text, messageId, log0);
    return Turned(proposals);
  }

  /** What a turn comes to: each cause is raised exactly when it holds, and none exactly when the turn is answered. */
  ghost predicate TurnIs(w: World, s: Settings, used: Tally, messages: seq<Message>, r: TurnResult, after: Tally,
                         shown: string)
  {
    && (forall c :: r == Raised(c) <==> Hinders(w, s, used, messages, c))
    && (r.Turned? <==> Answered(w, s, used, messages))
    && (r.Turned? ==> r.proposals == ProposalsOf(Answer(w, used.steps, messages).events))
    && after == Opened(w, s, used, messages) && shown == Spoken(w, s, used, messages)
  }

  lemma StepRefused(w: World, s: Settings, used: Tally, messages: seq<Message>, c: Cause)
    requires !Permitted(w, s, used.steps) && used.steps <= s.maxSteps
    requires c == if used.steps == s.maxSteps then StepBudget else WallClock
    ensures TurnIs(w, s, used, messages, Raised(c), used, "")
  {
  }

  lemma ObjectsExactly(s: Settings, reply: Reply, total: Tally)
    ensures forall c :: Objection(s, reply, total) == Some(c) <==> Objects(s, reply.failed, total, c)
    ensures Objection(s, reply, total) == None <==> !reply.failed && Affords(s, total)
  {
  }

  lemma StepTaken(w: World, s: Settings, used: Tally, counted: Tally, messages: seq<Message>, r: TurnResult,
                  after: Tally, shown: string)
    requires Permitted(w, s, used.steps) && counted == used.(steps := used.steps + 1)
    requires StepIs(w, s, counted, messages, r, after, shown)
    ensures TurnIs(w, s, used, messages, r, after, shown)
  {
    ObjectsExactly(s, Answer(w, used.steps, messages), Total(w, used, messages));
  }

  /** A turn up to its proposals: the step is counted or refused, and a permitted one is taken. Each cause is raised
      exactly when it holds, and the turn gets its proposals exactly when none does. */
  method ModelTurn(db: RunTables, budget: Budget, w: World, messages: seq<Message>) returns (r: TurnResult)
    requires budget.Within()
    modifies db`log, budget`steps, budget`inputTokens, budget`outputTokens, budget`cost
    ensures budget.Within() && Went(old(db.log), db.log)
    ensures TurnIs(w, budget.settings, old(budget.Used()), messages, r, budget.Used(),
                   DeltaText(db.log[|old(db.log)|..]))
    ensures var reply := Answer(w, old(budget.steps), messages);
            && (Permitted(w, budget.settings, old(budget.steps)) && !reply.failed ==>
                  Bills(w, old(budget.Used()), budget.Used(), reply.events))
            && (r.Turned? ==> ReadsAs(reply.events, TextOf(reply.events), r.proposals))
  {
    ghost var log0, used := db.log, budget.Used();
    var raised := budget.BeginStep(w.elapsed(budget.steps));
    if raised.Some? {
      StepRefused(w, budget.settings, used, messages, raised.value);
      return Raised(raised.value);
    }
    LogStep(db, StepStarted(budget.steps), log0);
    ghost var counted := budget.Used();
    r := Converse(db, budget, w, messages, log0);
    StreamReadsAs(Answer(w, used.steps, messages).events);
    ChargedBills(w, used, counted, Answer(w, used.steps, messages).events);
    StepTaken(w, budget.settings, used, counted, messages, r, budget.Used(), DeltaText(db.log[|log0|..]));
  }

  /** With redaction stable behind the hold-back, what the client has seen is the redacted message. */
  lemma TurnShowsMessage(w: World, events: seq<StreamEvent>)
    requires Stable(Snapshots(w.redact, events), w.redact(TextOf(events)))
    ensures MessageShown(w, events) == if TextOf(events) == "" then "" else w.redact(TextOf(events))
  {
    StableStreams(Snapshots(w.redact, events), w.redact(TextOf(events)));
  }

  lemma {:induction false} TextGrows(events: seq<StreamEvent>, i: nat)
    requires i <= |events|
    ensures IsPrefix(TextOf(events[..i]), TextOf(events))
  {
    if i == |events| {
      assert events[..i] == events;
    } else {
      var init := events[..|events| - 1];
      TextGrows(init, i);
      assert init[..i] == events[..i];
    }
  }

  /** At no time more than 64 redacted characters follow the last wall of the text. */
  predicate Walled(events: seq<StreamEvent>) {
    forall i :: 0 <= i <= |events| ==> |Redactor.Redact(Redactor.OpenPart(TextOf(events[..i])))| <= HOLD_BACK
  }

  lemma StableSnoc(snapshots: seq<string>, s: string, final: string)
    requires Stable(snapshots, final) && IsPrefix(DeltaStreamer.Settled(s), final)
    ensures Stable(snapshots + [s], final)
  {
  }

  lemma SnapshotSettles(redact: string -> string, events: seq<StreamEvent>, n: nat)
    requires n <= |events| && Walled(events) && forall s: string :: redact(s) == Redactor.Redact(s)
    ensures IsPrefix(DeltaStreamer.Settled(redact(TextOf(events[..n]))), redact(TextOf(events)))
  {
    TextGrows(events, n);
    Redactor.OpenSettled(TextOf(events[..n]), TextOf(events));
  }

  /** If the redaction of every beginning of the text settles, so do all snapshots. */
  lemma {:induction false} SnapshotsSettle(redact: string -> string, events: seq<StreamEvent>, final: string, n: nat)
    requires n <= |events|
    requires forall i :: 0 <= i <= |events| ==> IsPrefix(DeltaStreamer.Settled(redact(TextOf(events[..i]))), final)
    ensures Stable(Snapshots(redact, events[..n]), final)
  {
    if n > 0 {
      SnapshotSnoc(redact, events, n - 1);
      SnapshotsSettle(redact, events, final, n - 1);
      StableSnoc(Snapshots(redact, events[..n - 1]), redact(TextOf(events[..n])), final);
    }
  }

  /** Through the passes of the service, a turn shows exactly its redacted message as long as no more than 64 redacted
      characters follow the last wall. */
  lemma WalledTurnShown(w: World, events: seq<StreamEvent>)
    requires Walled(events) && forall s: string :: w.redact(s) == Redactor.Redact(s)
    ensures MessageShown(w, events) == if TextOf(events) == "" then "" else Redactor.Redact(TextOf(events))
  {
    forall i | 0 <= i <= |events|
      ensures IsPrefix(DeltaStreamer.Settled(w.redact(TextOf(events[..i]))), w.redact(TextOf(events)))
    {
      SnapshotSettles(w.redact, events, i);
    }
    SnapshotsSettle(w.redact, events, w.redact(TextOf(events)), |events|);
    assert events[..|events|] == events;
    TurnShowsMessage(w, events);
  }

  /** So an address, a card number or a phone number that the model streams between walls reaches the client as its
      placeholder alone, in whatever pieces it was streamed. */
  lemma PersonalNeverShown(w: World, events: seq<StreamEvent>, pre: string, front: string, s: string, post: string,
                           placeholder: string)
    requires Walled(events) && forall t: string :: w.redact(t) == Redactor.Redact(t)
    requires TextOf(events) == pre + (front + s) + post && Marking.Personal(s, placeholder)
    requires Marking.EndsInWall(pre) && Marking.Calm(front) && Marking.StartsWithWall(post)
    ensures MessageShown(w, events) == Redactor.Redact(pre) + (front + placeholder) + Redactor.Redact(post)
    ensures placeholder == "<PII:email>" && '@' !in pre && '@' !in post ==> '@' !in MessageShown(w, events)
  {
    WalledTurnShown(w, events);
    Marking.PersonalMarked(pre, front, s, post, placeholder);
    Marking.PersonalNotEmpty(s, placeholder);
    if placeholder == "<PII:email>" && '@' !in pre && '@' !in post {
      Marking.AddressGone(pre, front, s, post);
    }
  }

  // ----- loop detection -----

  /** What identifies a call: the tool and its arguments, dumped with sorted keys. */
  datatype Signature = Signature(tool: string, args: string)

  function Signatures(dump: Json -> string, ps: seq<Proposal>): (r: seq<Signature>)
    ensures |r| == |ps| && forall k :: 0 <= k < |ps| ==> r[k] == Signature(ps[k].name, dump(ps[k].args))
  {
    if ps == [] then []
    else Signatures(dump, ps[..|ps| - 1]) + [Signature(ps[|ps| - 1].name, dump(ps[|ps| - 1].args))]
  }

  lemma {:induction false} SignaturesConcat(dump: Json -> string, a: seq<Proposal>, b: seq<Proposal>)
    ensures Signatures(dump, a + b) == Signatures(dump, a) + Signatures(dump, b)
  {
    if b == [] {
      assert a + b == a;
    } else {
      SignaturesConcat(dump, a, b[..|b| - 1]);
      assert (a + b)[..|a + b| - 1] == a + b[..|b| - 1];
    }
  }

  predicate SameFrom(s: seq<Signature>, i: nat)
    requires i + 2 < |s|
  {
    s[i] == s[i + 1] == s[i + 2]
  }

  /** Somewhere the same call is proposed three times in a row. */
  predicate HasTriple(s: seq<Signature>) {
    exists i: nat :: i + 2 < |s| && SameFrom(s, i)
  }

  /** The last three entries, or all of them when there are fewer. */
  function Window(s: seq<Signature>): seq<Signature> {
    if |s| <= 3 then s else s[|s| - 3..]
  }

  predicate AllSame(recent: seq<Signature>) {
    |recent| == 3 && recent[0] == recent[1] == recent[2]
  }

  /** One more entry into the window. */
  function Push(recent: seq<Signature>, x: Signature): seq<Signature> {
    Window(recent + [x])
  }

  /** Keeping the last three of the window and the new entry keeps the last three of everything; they are all the same
      exactly when the new entry completes the first triple. */
  lemma WindowStep(past: seq<Signature>, x: Signature)
    requires !HasTriple(past)
    ensures Push(Window(past), x) == Window(past + [x])
    ensures AllSame(Window(past + [x])) <==> HasTriple(past + [x])
  {
    var all := past + [x];
    if AllSame(Window(all)) {
      assert SameFrom(all, |all| - 3);
    }
    if HasTriple(all) {
      var i: nat :| i + 2 < |all| && SameFrom(all, i);
      assert i + 2 < |past| ==> SameFrom(past, i);
    }
  }

  lemma TripleStays(a: seq<Signature>, b: seq<Signature>)
    requires HasTriple(a)
    ensures HasTriple(a + b)
  {
    var i: nat :| i + 2 < |a| && SameFrom(a, i);
    assert SameFrom(a + b, i);
  }

  /** All signatures up to and including the first k proposals of a turn. */
  function Scanned(dump: Json -> string, past: seq<Signature>, ps: seq<Proposal>, k: nat): seq<Signature>
    requires k <= |ps|
  {
    past + Signatures(dump, ps[..k])
  }

  lemma SignaturesNext(dump: Json -> string, ps: seq<Proposal>, k: nat)
    requires k < |ps|
    ensures Signatures(dump, ps[..k + 1]) == Signatures(dump, ps[..k]) + [Signature(ps[k].name, dump(ps[k].args))]
    ensures Signatures(dump, ps[..0]) == []
  {
    assert ps[..k + 1][..k] == ps[..k];
  }

  lemma ScannedAll(dump: Json -> string, past: seq<Signature>, ps: seq<Proposal>, k: nat)
    requires k <= |ps|
    ensures Scanned(dump, past, ps, |ps|) == Scanned(dump, past, ps, k) + Signatures(dump, ps[k..])
  {
    SignaturesConcat(dump, ps[..k], ps[k..]);
    assert ps[..k] + ps[k..] == ps[..|ps|];
  }

  lemma ScannedNext(dump: Json -> string, past: seq<Signature>, ps: seq<Proposal>, k: nat)
    requires k < |ps|
    ensures Scanned(dump, past, ps, k + 1)
         == Scanned(dump, past, ps, k) + [Signature(ps[k].name, dump(ps[k].args))]
    ensures Scanned(dump, past, ps, 0) == past
    ensures HasTriple(Scanned(dump, past, ps, k + 1)) ==> HasTriple(Scanned(dump, past, ps, |ps|))
  {
    SignaturesNext(dump, ps, k);
    if HasTriple(Scanned(dump, past, ps, k + 1)) {
      ScannedAll(dump, past, ps, k + 1);
      TripleStays(Scanned(dump, past, ps, k + 1), Signatures(dump, ps[k + 1..]));
    }
  }

  /** Feed the proposals of a turn into the window; raise at the first one that completes a triple. */
  method CheckRepeats(dump: Json -> string, recent: seq<Signature>, ps: seq<Proposal>, ghost past: seq<Signature>)
    returns (found: bool, recent': seq<Signature>, k: nat)
    requires recent == Window(past) && !HasTriple(past)
    ensures found <==> HasTriple(Scanned(dump, past, ps, |ps|))
    ensures !found ==> recent' == Window(Scanned(dump, past, ps, |ps|))
    ensures found ==>
              k < |ps| && HasTriple(Scanned(dump, past, ps, k + 1)) && !HasTriple(Scanned(dump, past, ps, k))
  {
    recent', k := recent, 0;
    assert Scanned(dump, past, ps, 0) == past;
    while k < |ps|
      invariant k <= |ps| && recent' == Window(Scanned(dump, past, ps, k))
      invariant !HasTriple(Scanned(dump, past, ps, k))
    {
      ScannedNext(dump, past, ps, k);
      WindowStep(Scanned(dump, past, ps, k), Signature(ps[k].name, dump(ps[k].args)));
      recent' := Push(recent', Signature(ps[k].name, dump(ps[k].args)));
      if AllSame(recent') {
        return true, recent', k;
      }
      k := k + 1;
    }
    return false, recent', k;
  }

  // ----- the loop as steps of the tool-call machine -----

  /** The tables now are what the recorded commits make of the tables before. */
  ghost predicate Follows(before: Db, acts: seq<Action>, now: Db) {
    ValidRun(before, acts) && After(before, acts) == now
  }

  lemma FollowsCommit(before: Db, acts: seq<Action>, now: Db, batch: seq<NewRow>, events: seq<Event>, run: RunStatus)
    requires Follows(before, acts, now) && AllNeutral(events) && forall r :: r in batch ==> GoodNewRow(r)
    ensures Follows(before, acts + [ACommit(batch, events, run)], Commit(now, batch, events, run))
  {
    var a := ACommit(batch, events, run);
    assert Enabled(now, a) && [a][1..] == [];
    assert After(now, [a]) == After(Next(now, a), []);
    RunConcat(before, acts, [a]);
  }

  /** A block that only logs is a commit of no rows. */
  lemma FollowsLog(before: Db, acts: seq<Action>, now: Db, events: seq<Event>, run: RunStatus)
    requires Follows(before, acts, now) && AllNeutral(events)
    ensures Follows(before, acts + [ACommit([], events, run)], now.(log := now.log + events, run := run))
  {
    FollowsCommit(before, acts, now, [], events, run);
    var e: seq<nat> := [];
    assert RunnerRan(now.past, [], |now.log|) == now.past by {
      assert now.past.execs + e == now.past.execs && now.past.byRunner + e == now.past.byRunner;
      assert now.past.execAt + seq(0, _ => |now.log|) == now.past.execAt;
    }
    assert now.rows + [] == now.rows;
  }

  // ----- what the provider is told -----

  function ToolMessages(rs: seq<ToolResult>): (ms: seq<Message>)
    ensures |ms| == |rs| && forall i :: 0 <= i < |rs| ==> ms[i] == ToolMessage(rs[i])
  {
    seq(|rs|, i requires 0 <= i < |rs| => ToolMessage(rs[i]))
  }

  /** Where the run stands before a turn: the messages, the rows, every signature proposed so far, what is used up, and
      the text that the client has seen. */
  datatype Standing = Standing(
    messages: seq<Message>, rows: seq<Row>, seen: seq<Signature>, used: Tally, shown: string)

  function Beginning(history: seq<Message>, rows: seq<Row>): Standing {
    Standing(history, rows, [], Tally(0, 0, 0, 0, 0.0), "")
  }

  function ProposedIn(w: World, at: Standing): seq<Proposal> {
    ProposalsOf(Answer(w, at.used.steps, at.messages).events)
  }

  /** All signatures once the turn's proposals have been looked at. */
  function SeenAfter(w: World, at: Standing): seq<Signature> {
    at.seen + Signatures(w.dump, ProposedIn(w, at))
  }

  function CallsLeft(s: Settings, at: Standing): int {
    s.maxToolCalls - at.used.calls
  }

  /** The rows of a batch that was executed. */
  function RanRows(t: Tools, ps: seq<Proposal>, first: nat): (rows: seq<Row>)
    ensures |rows| == UsableCount(t, ps)
  {
    RowsOf(Batch(t, CreatedRows(t, ps), first, true))
  }

  /** Each turn's results, laid out by the dispatch, follow its messages. */
  function AfterTurn(w: World, at: Standing): Standing {
    var ps := ProposedIn(w, at);
    Standing(at.messages + ToolMessages(Layout(w.tools, ps, |at.rows|)),
             at.rows + RanRows(w.tools, ps, |at.rows|),
             SeenAfter(w, at),
             Total(w, at.used, at.messages).(calls := at.used.calls + UsableCount(w.tools, ps)),
             at.shown + MessageShown(w, Answer(w, at.used.steps, at.messages).events))
  }

  // ----- how a turn ends -----

  datatype Verdict = GoOn | Finished | Waits | Broken(cause: Cause)

  /** The turn proposes something, and nothing three times in a row. */
  predicate Dispatches(w: World, s: Settings, at: Standing) {
    Answered(w, s, at.used, at.messages) && ProposedIn(w, at) != [] && !HasTriple(SeenAfter(w, at))
  }

  /** When the turn taken from a standing comes to each verdict. */
  ghost predicate Gives(w: World, s: Settings, at: Standing, v: Verdict) {
    var t, ps, left := w.tools, ProposedIn(w, at), CallsLeft(s, at);
    match v
    case Finished => Answered(w, s, at.used, at.messages) && ps == []
    case Broken(LoopDetected) => Answered(w, s, at.used, at.messages) && HasTriple(SeenAfter(w, at))
    case Waits => Dispatches(w, s, at) && exists k: nat :: PausesAt(t, ps, left, k)
    case Broken(ToolCallBudget) => Dispatches(w, s, at) && exists k: nat :: ExceedsAt(t, ps, left, k)
    case Broken(ProviderFailed) =>
      || Hinders(w, s, at.used, at.messages, ProviderFailed)
      || (Dispatches(w, s, at) && Passes(t, ps, left) && UsableCount(t, ps) > 0 && !t.client)
    case GoOn => Dispatches(w, s, at) && Passes(t, ps, left) && (UsableCount(t, ps) > 0 ==> t.client)
    case Broken(c) => Hinders(w, s, at.used, at.messages, c)
  }

  /** The rows when a turn has come to its verdict: with every call of it executed, up to the call that stopped it, or
      none of it. */
  ghost predicate RowsThen(w: World, s: Settings, at: Standing, v: Verdict, rows: seq<Row>) {
    var t, ps, left := w.tools, ProposedIn(w, at), CallsLeft(s, at);
    match v
    case GoOn => rows == AfterTurn(w, at).rows
    case Waits => exists k: nat :: PausesAt(t, ps, left, k) && rows == at.rows + CreatedRows(t, ps[..k + 1])
    case Broken(ToolCallBudget) => exists k: nat :: ExceedsAt(t, ps, left, k) && rows == at.rows + CreatedRows(t, ps[..k])
    case Broken(ProviderFailed) => rows == if Dispatches(w, s, at) then at.rows + CreatedRows(t, ps) else at.rows
    case _ => rows == at.rows
  }

  /** Everything about the end of a turn: its verdict, the rows, the counters, and what the client has seen. */
  ghost predicate Concludes(w: World, s: Settings, at: Standing, v: Verdict, rows: seq<Row>, used: Tally, shown: string)
  {
    && Gives(w, s, at, v) && RowsThen(w, s, at, v, rows)
    && |at.rows| <= |rows|
    && used == Opened(w, s, at.used, at.messages).(calls := at.used.calls + (|rows| - |at.rows|))
    && shown == at.shown + Spoken(w, s, at.used, at.messages)
  }

  /** A turn is kept from its proposals by one cause, or by none and gets them. */
  lemma OneCause(w: World, s: Settings, used: Tally, messages: seq<Message>, c: Cause, d: Cause)
    ensures Hinders(w, s, used, messages, c) && Hinders(w, s, used, messages, d) ==> c == d
    ensures Hinders(w, s, used, messages, c) ==> !Answered(w, s, used, messages)
  {
  }

  lemma NoTripleYet(w: World, at: Standing)
    requires ProposedIn(w, at) == [] && !HasTriple(at.seen)
    ensures !HasTriple(SeenAfter(w, at))
  {
    assert SeenAfter(w, at) == at.seen;
  }

  /** The conditions exclude each other: each verdict is given exactly when its condition holds. */
  lemma OneVerdict(w: World, s: Settings, at: Standing, v: Verdict)
    requires Gives(w, s, at, v) && !HasTriple(at.seen)
    ensures forall u :: Gives(w, s, at, u) <==> u == v
  {
    forall u | Gives(w, s, at, u) ensures u == v {
      SameVerdict(w, s, at, u, v);
    }
  }

  lemma SameVerdict(w: World, s: Settings, at: Standing, u: Verdict, v: Verdict)
    requires Gives(w, s, at, u) && Gives(w, s, at, v) && !HasTriple(at.seen)
    ensures u == v
  {
    if ProposedIn(w, at) == [] {
      NoTripleYet(w, at);
    }
    if Dispatches(w, s, at) {
      StopsApart(w.tools, ProposedIn(w, at), CallsLeft(s, at));
    }
  }

  lemma StopsApart(t: Tools, ps: seq<Proposal>, left: int)
    ensures forall k, j :: PausesAt(t, ps, left, k) && ExceedsAt(t, ps, left, j) ==> false
    ensures Passes(t, ps, left) ==> forall k :: !PausesAt(t, ps, left, k) && !ExceedsAt(t, ps, left, k)
  {
    forall k: nat, j: nat | PausesAt(t, ps, left, k) && ExceedsAt(t, ps, left, j) ensures false {
      StopsOnce(t, ps, left, k, j);
    }
    forall k: nat | Passes(t, ps, left) ensures !PausesAt(t, ps, left, k) && !ExceedsAt(t, ps, left, k) {
      StopsOnce(t, ps, left, k, k);
    }
  }

  // ----- the turns of a run -----

  /** A turn leads on: it proposes calls, none of them for approval, and all of them are answered. */
  ghost predicate Leads(w: World, s: Settings, before: Standing, after: Standing) {
    Gives(w, s, before, GoOn) && after == AfterTurn(w, before)
  }

  /** The standings of a run before each of its turns. */
  ghost predicate Story(w: World, s: Settings, start: Standing, story: seq<Standing>) {
    story != [] && story[0] == start && forall k :: 0 < k < |story| ==> Leads(w, s, story[k - 1], story[k])
  }

  /** No turn of a story starts after three equal calls in a row, and it counts its turns. */
  lemma StoryKeeps(w: World, s: Settings, start: Standing, story: seq<Standing>, k: nat)
    requires Story(w, s, start, story) && k < |story| && !HasTriple(start.seen)
    ensures !HasTriple(story[k].seen) && story[k].used.steps == start.used.steps + k
  {
    if k > 0 {
      StoryKeeps(w, s, start, story, k - 1);
      assert Leads(w, s, story[k - 1], story[k]);
    }
  }

  lemma LongerLeads(w: World, s: Settings, story: seq<Standing>, next: Standing, k: nat)
    requires 0 < k <= |story| && Leads(w, s, story[|story| - 1], next)
    requires k < |story| ==> Leads(w, s, story[k - 1], story[k])
    ensures Leads(w, s, (story + [next])[k - 1], (story + [next])[k])
  {
  }

  lemma StoryGoesOn(w: World, s: Settings, start: Standing, story: seq<Standing>)
    requires Story(w, s, start, story) && Gives(w, s, story[|story| - 1], GoOn)
    ensures Story(w, s, start, story + [AfterTurn(w, story[|story| - 1])])
  {
    var next := AfterTurn(w, story[|story| - 1]);
    forall k | 0 < k < |story + [next]| ensures Leads(w, s, (story + [next])[k - 1], (story + [next])[k]) {
      LongerLeads(w, s, story, next, k);
    }
  }

  /** What a turn that leads on leaves is the next standing, one step later. */
  lemma LeadsOn(w: World, s: Settings, at: Standing, rows: seq<Row>, used: Tally, shown: string)
    requires Concludes(w, s, at, GoOn, rows, used, shown)
    ensures var next := AfterTurn(w, at); rows == next.rows && used == next.used && shown == next.shown
    ensures used.steps == at.used.steps + 1
  {
  }

  lemma TurnOn(w: World, s: Settings, start: Standing, story: seq<Standing>, rows: seq<Row>, used: Tally, shown: string)
    requires Story(w, s, start, story) && Concludes(w, s, story[|story| - 1], GoOn, rows, used, shown)
    ensures var at, next := story[|story| - 1], AfterTurn(w, story[|story| - 1]);
            && Story(w, s, start, story + [next])
            && rows == next.rows && used == next.used && shown == next.shown && used.steps == at.used.steps + 1
  {
    StoryGoesOn(w, s, start, story);
    LeadsOn(w, s, story[|story| - 1], rows, used, shown);
  }

  /** The run that begins like this ends so. */
  ghost predicate Ends(w: World, s: Settings, start: Standing, story: seq<Standing>, v: Verdict, rows: seq<Row>,
                       used: Tally, shown: string)
  {
    Story(w, s, start, story) && v != GoOn && Concludes(w, s, story[|story| - 1], v, rows, used, shown)
  }

  lemma {:induction false} SameTurns(w: World, s: Settings, start: Standing, a: seq<Standing>, b: seq<Standing>, k: nat)
    requires Story(w, s, start, a) && Story(w, s, start, b) && k < |a| && k < |b|
    ensures a[k] == b[k]
  {
    if k > 0 {
      SameTurns(w, s, start, a, b, k - 1);
      assert Leads(w, s, a[k - 1], a[k]) && Leads(w, s, b[k - 1], b[k]);
    }
  }

  lemma LeadsOnOnly(w: World, s: Settings, before: Standing, after: Standing, at: Standing, v: Verdict)
    requires Leads(w, s, before, after) && before == at && Gives(w, s, at, v) && !HasTriple(at.seen)
    ensures v == GoOn
  {
    SameVerdict(w, s, before, GoOn, v);
  }

  lemma NotLonger(w: World, s: Settings, start: Standing, a: seq<Standing>, v: Verdict, b: seq<Standing>)
    requires Story(w, s, start, a) && Story(w, s, start, b) && !HasTriple(start.seen)
    requires Gives(w, s, a[|a| - 1], v) && v != GoOn
    ensures |b| <= |a|
  {
    if |b| > |a| {
      SameTurns(w, s, start, a, b, |a| - 1);
      StoryKeeps(w, s, start, a, |a| - 1);
      LeadsOnOnly(w, s, b[|a| - 1], b[|a|], a[|a| - 1], v);
    }
  }

  lemma SameRows(w: World, s: Settings, at: Standing, v: Verdict, a: seq<Row>, b: seq<Row>)
    requires RowsThen(w, s, at, v, a) && RowsThen(w, s, at, v, b)
    ensures a == b
  {
    var t, ps, left := w.tools, ProposedIn(w, at), CallsLeft(s, at);
    if v == Waits {
      var k: nat :| PausesAt(t, ps, left, k) && a == at.rows + CreatedRows(t, ps[..k + 1]);
      var j: nat :| PausesAt(t, ps, left, j) && b == at.rows + CreatedRows(t, ps[..j + 1]);
      StopsOnce(t, ps, left, k, j);
    } else if v == Broken(ToolCallBudget) {
      var k: nat :| ExceedsAt(t, ps, left, k) && a == at.rows + CreatedRows(t, ps[..k]);
      var j: nat :| ExceedsAt(t, ps, left, j) && b == at.rows + CreatedRows(t, ps[..j]);
      StopsOnce(t, ps, left, k, j);
    }
  }

  /** What the provider, the clock and the tools do determines the run: its turns, its verdict, its rows, its counters and
      the text that the client sees. */
  lemma RunDetermined(w: World, s: Settings, start: Standing,
                      a: seq<Standing>, v: Verdict, rows: seq<Row>, used: Tally, shown: string,
                      b: seq<Standing>, v': Verdict, rows': seq<Row>, used': Tally, shown': string)
    requires !HasTriple(start.seen)
    requires Ends(w, s, start, a, v, rows, used, shown) && Ends(w, s, start, b, v', rows', used', shown')
    ensures a == b && v == v' && rows == rows' && used == used' && shown == shown'
  {
    NotLonger(w, s, start, a, v, b);
    NotLonger(w, s, start, b, v', a);
    forall k | 0 <= k < |a| ensures a[k] == b[k] {
      SameTurns(w, s, start, a, b, k);
    }
    StoryKeeps(w, s, start, a, |a| - 1);
    OneVerdict(w, s, a[|a| - 1], v);
    SameRows(w, s, a[|a| - 1], v, rows, rows');
  }

  // ----- the loop -----

  /** The tables are where the recorded commits lead, every row is counted, and the run has not ended. */
  ghost predicate Kept(db: RunTables, budget: Budget, before: Db, acts: seq<Action>)
    reads db, budget
  {
    && budget.Within() && |db.rows| == |before.rows| + budget.toolCalls
    && Follows(before, acts, db.State()) && Went(before.log, db.log)
  }

  /** The same with the run parked for a decision by its last event. */
  ghost predicate Parked(db: RunTables, budget: Budget, before: Db, acts: seq<Action>)
    reads db, budget
  {
    && budget.Within() && |db.rows| == |before.rows| + budget.toolCalls
    && Follows(before, acts, db.State()) && EndsWith(before.log, db.log, RunAwaitingDecision)
    && db.run == AwaitingDecision
  }

  /** The log grew by events that end nothing and then by this one. */
  predicate EndsWith(before: seq<Event>, after: seq<Event>, last: Event) {
    |before| < |after| && Went(before, after[..|after| - 1]) && after[|after| - 1] == last
  }

  /** A turn ended the loop: what the tables hold before the last event is written. Waiting writes its own. */
  ghost predicate Halted(db: RunTables, budget: Budget, v: Verdict, before: Db, acts: seq<Action>)
    reads db, budget
  {
    if v == Waits then Parked(db, budget, before, acts) else Kept(db, budget, before, acts)
  }

  function TextSince(log0: seq<Event>, log: seq<Event>): string {
    if |log0| <= |log| then DeltaText(log[|log0|..]) else ""
  }

  /** The tables and counters are those of a standing, and the client has seen its text. */
  ghost predicate Holds(db: RunTables, budget: Budget, before: Db, at: Standing)
    reads db, budget
  {
    db.rows == at.rows && budget.Used() == at.used && TextSince(before.log, db.log) == at.shown
  }

  /** What the loop's variables hold of a standing. */
  ghost predicate At(at: Standing, messages: seq<Message>, recent: seq<Signature>) {
    messages == at.messages && recent == Window(at.seen) && !HasTriple(at.seen)
  }

  lemma WentMore(a: seq<Event>, b: seq<Event>, c: seq<Event>)
    requires Went(a, b) && Went(b, c)
    ensures Went(a, c) && c == b + c[|b|..] && AllNeutral(c[|b|..])
    ensures TextSince(a, c) == TextSince(a, b) + TextSince(b, c)
  {
    WentTrans(a, b, c);
  }

  lemma {:induction false} NoDeltas(es: seq<Event>)
    requires forall i :: 0 <= i < |es| ==> !es[i].MessageDelta?
    ensures DeltaText(es) == ""
  {
    if es != [] {
      NoDeltas(es[..|es| - 1]);
    }
  }

  /** A dispatch shows the client nothing. */
  lemma GrewSilently(b: seq<Event>, c: seq<Event>)
    requires Grew(b, c)
    ensures Went(b, c) && TextSince(b, c) == ""
  {
    NoDeltas(c[|b|..]);
  }

  lemma EndsSilently(a: seq<Event>, b: seq<Event>, e: Event)
    requires Went(a, b) && !e.MessageDelta?
    ensures EndsWith(a, b + [e], e) && TextSince(a, b + [e]) == TextSince(a, b)
  {
    DeltaTextSnoc(a, b, e);
    assert (b + [e])[..|b|] == b;
  }

  /** What a dispatch adds to the log shows nothing, and ends the run only to wait. */
  lemma LeftInLog(a: seq<Event>, b: seq<Event>, c: seq<Event>, run0: RunStatus, run: RunStatus, out: DispatchOutcome)
    requires Went(a, b) && Leaves(b, c, run0, run, out)
    ensures TextSince(a, c) == TextSince(a, b)
    ensures if out == Paused then EndsWith(a, c, RunAwaitingDecision) else Went(a, c)
  {
    if out == Paused {
      var d := c[..|c| - 1];
      GrewSilently(b, d);
      WentMore(a, b, d);
      assert c == d + [RunAwaitingDecision];
      EndsSilently(a, d, RunAwaitingDecision);
    } else {
      GrewSilently(b, c);
      WentMore(a, b, c);
    }
  }

  /** A turn of the model, as one more commit. */
  method OpenTurn(db: RunTables, budget: Budget, w: World, messages: seq<Message>, ghost at: Standing, ghost before: Db,
                  ghost acts: seq<Action>)
    returns (r: TurnResult, ghost acts': seq<Action>)
    requires Kept(db, budget, before, acts) && Holds(db, budget, before, at) && messages == at.messages
    modifies db`log, budget`steps, budget`inputTokens, budget`outputTokens, budget`cost
    ensures Kept(db, budget, before, acts')
    ensures Holds(db, budget, before, Spent(w, budget.settings, at))
    ensures forall c :: r == Raised(c) <==> Hinders(w, budget.settings, at.used, messages, c)
    ensures r.Turned? <==> Answered(w, budget.settings, at.used, messages)
    ensures r.Turned? ==> r.proposals == ProposedIn(w, at)
  {
    ghost var now := db.State();
    r := ModelTurn(db, budget, w, messages);
    WentMore(before.log, now.log, db.log);
    FollowsLog(before, acts, now, db.log[|now.log|..], db.run);
    acts' := acts + [ACommit([], db.log[|now.log|..], db.run)];
  }

  /** The standing with the model's part of its turn over. */
  function Spent(w: World, s: Settings, at: Standing): Standing {
    at.(used := Opened(w, s, at.used, at.messages), shown := at.shown + Spoken(w, s, at.used, at.messages))
  }

  /** The rows that a dispatch leaves. */
  predicate RowsAdded(t: Tools, ps: seq<Proposal>, k: nat, out: DispatchOutcome, rows0: seq<Row>, rows: seq<Row>) {
    && k <= |ps|
    && rows == rows0 + if out.Results? then RanRows(t, ps, |rows0|) else CreatedRows(t, ps[..k])
  }

  lemma BatchRows(t: Tools, ps: seq<Proposal>, k: nat, out: DispatchOutcome, rows0: seq<Row>, batch: seq<NewRow>)
    requires k <= |ps| && (out.Results? ==> k == |ps|)
    requires batch == Batch(t, CreatedRows(t, ps[..k]), |rows0|, out.Results?)
    ensures RowsAdded(t, ps, k, out, rows0, rows0 + RowsOf(batch))
  {
    if out.Results? {
      assert ps[..k] == ps;
    } else {
      RowsOfBatch(t, ps[..k], |rows0|);
    }
  }

  lemma ReadersRun(t: Tools, ps: seq<Proposal>, first: nat, maxParallel: nat)
    requires Schedulable(t, maxParallel)
    ensures QueueOf(t, ps, first, true) != [] ==> 0 < maxParallel
  {
    var q := QueueOf(t, ps, first, true);
    assert q != [] ==> t.kind(q[0].p).Usable? && t.kind(q[0].p).read;
  }

  /** The dispatch of a turn, as one more commit. */
  method DispatchTurn(db: RunTables, budget: Budget, t: Tools, ps: seq<Proposal>, ghost before: Db,
                      ghost acts: seq<Action>)
    returns (out: DispatchOutcome, ghost k: nat, ghost acts': seq<Action>)
    requires Kept(db, budget, before, acts) && Schedulable(t, budget.settings.maxParallel)
    modifies db, budget`toolCalls
    ensures Halted(db, budget, if out == Paused then Waits else GoOn, before, acts')
    ensures Reason(t, ps, budget.settings.maxToolCalls - old(budget.toolCalls), k, out)
    ensures RowsAdded(t, ps, k, out, old(db.rows), db.rows)
    ensures budget.toolCalls == old(budget.toolCalls) + |db.rows| - |old(db.rows)|
    ensures TextSince(before.log, db.log) == TextSince(before.log, old(db.log))
    ensures out.Results? ==> out.results == Layout(t, ps, |old(db.rows)|)
  {
    ghost var now := db.State();
    ghost var batch;
    ReadersRun(t, ps, |db.rows|, budget.settings.maxParallel);
    out, k, batch := DispatchProposals(db, budget, t, ps);
    BatchRows(t, ps, k, out, now.rows, batch);
    FollowsCommit(before, acts, now, batch, db.log[|now.log|..], db.run);
    LeftInLog(before.log, now.log, db.log, now.run, db.run, out);
    acts' := acts + [ACommit(batch, db.log[|now.log|..], db.run)];
  }

  function VerdictOf(out: DispatchOutcome): Verdict {
    match out
    case Results(_) => GoOn
    case Paused => Waits
    case OverBudget => Broken(ToolCallBudget)
    case NoClient => Broken(ProviderFailed)
  }

  /** How a dispatch ends a turn. */
  lemma DispatchConcludes(w: World, s: Settings, at: Standing, k: nat, out: DispatchOutcome, rows: seq<Row>, used: Tally,
                          shown: string)
    requires Dispatches(w, s, at) && Reason(w.tools, ProposedIn(w, at), CallsLeft(s, at), k, out)
    requires RowsAdded(w.tools, ProposedIn(w, at), k, out, at.rows, rows)
    requires used == Spent(w, s, at).used.(calls := at.used.calls + (|rows| - |at.rows|))
    requires shown == Spent(w, s, at).shown
    ensures Concludes(w, s, at, VerdictOf(out), rows, used, shown)
  {
    var ps := ProposedIn(w, at);
    if out == Paused {
      assert ps[..k - 1 + 1] == ps[..k];
    } else if out == NoClient {
      assert ps[..k] == ps;
    }
  }

  /** The calls of a turn are dispatched; if all are answered, their results follow the messages. */
  method AnswerCalls(db: RunTables, budget: Budget, w: World, ps: seq<Proposal>, messages: seq<Message>,
                     ghost at: Standing, ghost before: Db, ghost acts: seq<Action>)
    returns (v: Verdict, messages': seq<Message>, ghost acts': seq<Action>)
    requires Kept(db, budget, before, acts) && Schedulable(w.tools, budget.settings.maxParallel)
    requires Holds(db, budget, before, Spent(w, budget.settings, at)) && messages == at.messages
    requires Dispatches(w, budget.settings, at) && ps == ProposedIn(w, at)
    modifies db, budget`toolCalls
    ensures Halted(db, budget, v, before, acts')
    ensures Concludes(w, budget.settings, at, v, db.rows, budget.Used(), TextSince(before.log, db.log))
    ensures v == GoOn ==> messages' == AfterTurn(w, at).messages
  {
    var out;
    ghost var scanned;
    out, scanned, acts' := DispatchTurn(db, budget, w.tools, ps, before, acts);
    DispatchConcludes(w, budget.settings, at, scanned, out, db.rows, budget.Used(), TextSince(before.log, db.log));
    messages' := messages;
    match out {
      case Paused => v := Waits;
      case OverBudget => v := Broken(ToolCallBudget);
      case NoClient => v := Broken(ProviderFailed);
      case Results(results) =>
        messages' := messages + ToolMessages(results);
        v := GoOn;
    }
  }

  /** How a turn ends that dispatches nothing. */
  lemma UndispatchedConcludes(w: World, s: Settings, at: Standing, v: Verdict)
    requires Answered(w, s, at.used, at.messages) && v in {Finished, Broken(LoopDetected)}
    requires if v == Finished then ProposedIn(w, at) == [] else HasTriple(SeenAfter(w, at))
    ensures Concludes(w, s, at, v, at.rows, Spent(w, s, at).used, Spent(w, s, at).shown)
  {
  }

  /** The proposals of a turn: without any the run is complete, repeats end the loop, the rest is dispatched. */
  method ActOn(db: RunTables, budget: Budget, w: World, ps: seq<Proposal>, messages: seq<Message>,
               recent: seq<Signature>, ghost at: Standing, ghost before: Db, ghost acts: seq<Action>)
    returns (v: Verdict, messages': seq<Message>, recent': seq<Signature>, ghost acts': seq<Action>)
    requires Kept(db, budget, before, acts) && Schedulable(w.tools, budget.settings.maxParallel)
    requires Holds(db, budget, before, Spent(w, budget.settings, at)) && At(at, messages, recent)
    requires Answered(w, budget.settings, at.used, messages) && ps == ProposedIn(w, at)
    modifies db, budget`toolCalls
    ensures Halted(db, budget, v, before, acts')
    ensures Concludes(w, budget.settings, at, v, db.rows, budget.Used(), TextSince(before.log, db.log))
    ensures v == GoOn ==> At(AfterTurn(w, at), messages', recent')
  {
    messages', recent', acts' := messages, recent, acts;
    if ps == [] {
      UndispatchedConcludes(w, budget.settings, at, Finished);
      return Finished, messages', recent', acts';
    }
    var found, k;
    found, recent', k := CheckRepeats(w.dump, recent, ps, at.seen);
    assert ps[..|ps|] == ps;
    if found {
      UndispatchedConcludes(w, budget.settings, at, Broken(LoopDetected));
      return Broken(LoopDetected), messages', recent', acts';
    }
    v, messages', acts' := AnswerCalls(db, budget, w, ps, messages, at, before, acts);
  }

  /** One turn of the loop. */
  method RunTurn(db: RunTables, budget: Budget, w: World, messages: seq<Message>, recent: seq<Signature>,
                 ghost at: Standing, ghost before: Db, ghost acts: seq<Action>)
    returns (v: Verdict, messages': seq<Message>, recent': seq<Signature>, ghost acts': seq<Action>)
    requires Kept(db, budget, before, acts) && Schedulable(w.tools, budget.settings.maxParallel)
    requires Holds(db, budget, before, at) && At(at, messages, recent)
    modifies db, budget
    ensures Halted(db, budget, v, before, acts')
    ensures Concludes(w, budget.settings, at, v, db.rows, budget.Used(), TextSince(before.log, db.log))
    ensures v == GoOn ==> At(AfterTurn(w, at), messages', recent')
  {
    var r;
    r, acts' := OpenTurn(db, budget, w, messages, at, before, acts);
    if r.Raised? {
      return Broken(r.cause), messages, recent, acts';
    }
    v, messages', recent', acts' := ActOn(db, budget, w, r.proposals, messages, recent, at, before, acts');
  }

  function LastEvent(v: Verdict): Event
    requires v != GoOn
  {
    match v
    case Finished => RunCompleted
    case Waits => RunAwaitingDecision
    case Broken(cause) => RunError(CauseName(cause))
  }

  function EndStatus(v: Verdict): RunStatus
    requires v != GoOn
  {
    match v
    case Finished => Completed
    case Waits => AwaitingDecision
    case Broken(_) => Errored
  }

  function CauseName(c: Cause): string {
    match c
    case StepBudget => "step_budget_exceeded"
    case WallClock => "wall_clock_budget_exceeded"
    case ToolCallBudget => "tool_call_budget_exceeded"
    case InputTokens => "input_token_budget_exceeded"
    case OutputTokens => "output_token_budget_exceeded"
    case Cost => "cost_budget_exceeded"
    case LoopDetected => "loop_detected"
    case ProviderFailed => "provider_error"
  }

  /** How a run that ended tells it: its status and its last event. */
  predicate Announces(v: Verdict, run: RunStatus, e: Event) {
    match v
    case GoOn => false
    case Finished => run == Completed && e == RunCompleted
    case Waits => run == AwaitingDecision && e == RunAwaitingDecision
    case Broken(cause) =>
      && run == Errored && e.RunError?
      && match cause {
           case StepBudget => e.cause == "step_budget_exceeded"
           case WallClock => e.cause == "wall_clock_budget_exceeded"
           case ToolCallBudget => e.cause == "tool_call_budget_exceeded"
           case InputTokens => e.cause == "input_token_budget_exceeded"
           case OutputTokens => e.cause == "output_token_budget_exceeded"
           case Cost => e.cause == "cost_budget_exceeded"
           case LoopDetected => e.cause == "loop_detected"
           case ProviderFailed => e.cause == "provider_error"
         }
  }

  /** The log grew by events that end nothing and then by the one that tells the end. */
  predicate EndsTelling(before: seq<Event>, after: seq<Event>, v: Verdict, run: RunStatus) {
    |before| < |after| && Went(before, after[..|after| - 1]) && Announces(v, run, after[|after| - 1])
  }

  lemma EndAnnounced(before: seq<Event>, after: seq<Event>, v: Verdict)
    requires v != GoOn && EndsWith(before, after, LastEvent(v))
    ensures EndsTelling(before, after, v, EndStatus(v))
  {
  }

  /** _finalize_error and the completed branch: the status and the last event. Waiting has written both already. */
  method Close(db: RunTables, budget: Budget, v: Verdict, ghost before: Db, ghost acts: seq<Action>)
    returns (ghost acts': seq<Action>)
    requires v != GoOn && Halted(db, budget, v, before, acts)
    modifies db`log, db`run
    ensures EndsWith(before.log, db.log, LastEvent(v)) && db.run == EndStatus(v)
    ensures db.rows == old(db.rows) && Follows(before, acts', db.State())
    ensures TextSince(before.log, db.log) == TextSince(before.log, old(db.log))
  {
    acts' := acts;
    if v != Waits {
      FollowsLog(before, acts, db.State(), [LastEvent(v)], EndStatus(v));
      acts' := acts + [ACommit([], [LastEvent(v)], EndStatus(v))];
      EndsSilently(before.log, db.log, LastEvent(v));
      db.Append(LastEvent(v));
      db.run := EndStatus(v);
    }
  }

  /** The loop between two turns, or at its end: the tables and variables are those of the last standing, or the turn
      taken from it has come to its verdict. */
  ghost predicate Looping(db: RunTables, budget: Budget, w: World, start: Standing, story: seq<Standing>, v: Verdict,
                          messages: seq<Message>, recent: seq<Signature>, before: Db, acts: seq<Action>)
    reads db, budget
  {
    && Halted(db, budget, v, before, acts) && Story(w, budget.settings, start, story)
    && var at := story[|story| - 1];
       if v == GoOn then Holds(db, budget, before, at) && At(at, messages, recent)
       else Concludes(w, budget.settings, at, v, db.rows, budget.Used(), TextSince(before.log, db.log))
  }

  lemma StartsSilently(before: Db)
    ensures Follows(before, [], before) && Went(before.log, before.log) && TextSince(before.log, before.log) == ""
  {
  }

  /** A fresh budget, and the messages of the conversation so far. */
  method StartLoop(db: RunTables, settings: Settings, w: World, history: seq<Message>) returns (budget: Budget)
    ensures fresh(budget) && budget.settings == settings
    ensures var start := Beginning(history, db.rows);
            Looping(db, budget, w, start, [start], GoOn, history, [], db.State(), [])
  {
    budget := new Budget(settings);
    StartsSilently(db.State());
  }

  /** One more turn, and the story with it if it leads on. */
  method TakeTurn(db: RunTables, budget: Budget, w: World, messages: seq<Message>, recent: seq<Signature>,
                  ghost start: Standing, ghost story: seq<Standing>, ghost before: Db, ghost acts: seq<Action>)
    returns (v: Verdict, messages': seq<Message>, recent': seq<Signature>, ghost story': seq<Standing>,
             ghost acts': seq<Action>)
    requires Looping(db, budget, w, start, story, GoOn, messages, recent, before, acts)
    requires Schedulable(w.tools, budget.settings.maxParallel)
    modifies db, budget
    ensures Looping(db, budget, w, start, story', v, messages', recent', before, acts')
    ensures v == GoOn ==> budget.steps == old(budget.steps) + 1
  {
    story' := story;
    ghost var at := story[|story| - 1];
    v, messages', recent', acts' := RunTurn(db, budget, w, messages, recent, at, before, acts);
    if v == GoOn {
      TurnOn(w, budget.settings, start, story, db.rows, budget.Used(), TextSince(before.log, db.log));
      story' := story + [AfterTurn(w, at)];
    }
  }

  /** The end of the loop is written down. */
  method EndLoop(db: RunTables, budget: Budget, w: World, v: Verdict, messages: seq<Message>, recent: seq<Signature>,
                 ghost start: Standing, ghost story: seq<Standing>, ghost before: Db, ghost acts: seq<Action>)
    returns (ghost acts': seq<Action>)
    requires v != GoOn && Looping(db, budget, w, start, story, v, messages, recent, before, acts)
    modifies db`log, db`run
    ensures budget.Within() && |db.rows| == |before.rows| + budget.toolCalls
    ensures Follows(before, acts', db.State())
    ensures Ends(w, budget.settings, start, story, v, db.rows, budget.Used(), TextSince(before.log, db.log))
    ensures EndsTelling(before.log, db.log, v, db.run)
  {
    acts' := Close(db, budget, v, before, acts);
    EndAnnounced(before.log, db.log, v);
  }

  /** _run_inner. The loop ends for every provider, clock and tool behaviour, and its end is determined (RunDetermined):
      it takes turn after turn while they lead on, and the verdict is the one whose condition the next turn meets. It
      calls the provider at most maxSteps times and creates at most maxToolCalls rows; it is a run of the tool-call
      machine; its last event, and no event before that, ends the run, and matches the status. */
  method RunInner(db: RunTables, settings: Settings, w: World, history: seq<Message>)
    returns (v: Verdict, budget: Budget, ghost acts: seq<Action>, ghost story: seq<Standing>)
    requires Schedulable(w.tools, settings.maxParallel)
    modifies db
    ensures fresh(budget) && budget.settings == settings
    ensures budget.steps <= settings.maxSteps
    ensures |db.rows| == |old(db.rows)| + budget.toolCalls <= |old(db.rows)| + settings.maxToolCalls
    ensures Follows(old(db.State()), acts, db.State())
    ensures Ends(w, settings, Beginning(history, old(db.rows)), story, v, db.rows, budget.Used(),
                 TextSince(old(db.log), db.log))
    ensures EndsTelling(old(db.log), db.log, v, db.run)
  {
    ghost var before, start := db.State(), Beginning(history, db.rows);
    budget := StartLoop(db, settings, w, history);
    var messages, recent := history, [];
    acts, v, story := [], GoOn, [start];
    while v == GoOn
      invariant fresh(budget) && budget.settings == settings
      invariant Looping(db, budget, w, start, story, v, messages, recent, before, acts)
      decreases if v == GoOn then 1 else 0, settings.maxSteps - budget.steps
    {
      v, messages, recent, story, acts := TakeTurn(db, budget, w, messages, recent, start, story, before, acts);
    }
    acts := EndLoop(db, budget, w, v, messages, recent, start, story, before, acts);
  }
}
