/** Proposing values for the essential fields of a tab, and accepting them into the draft. */
module StepProposals {
  import opened Json
  import opened Contract
  import opened Conversation
  import Answers
  import Template
  import ResearchBudget

  datatype Source = FromDraft | FromHistory | FromDefault

  datatype Proposal = Proposal(payload: seq<Member>, rationale: seq<Member>, sources: set<Source>, confidence: real)

  /** What the outside says: whether history may be asked, and what it answers for a field. */
  datatype Outside = Outside(mayAsk: bool, history: string -> Option<Json>)

  // ----- one field -----

  /** A value the draft already has, unless it is blank. */
  function DraftValue(draft: seq<Member>, stepId: string, id: string): Option<Json> {
    match Get(draft, stepId)
    case Some(Obj(section)) =>
      (match Get(section, id)
       case Some(v) => if Blank(v) then None else Some(v)
       case None => None)
    case _ => None
  }

  function FirstChoice(f: Field): Option<string> {
    if f.choices.Some? && f.choices.value != [] && f.choices.value[0].value != "" then Some(f.choices.value[0].value)
    else None
  }

  /** A safe static default, if the kind of the field has one. */
  function DefaultValue(f: Field): Option<Json> {
    match f.kind
    case None => None
    case Some(kind) =>
      if kind == "enum" then (if FirstChoice(f).Some? then Some(Str(FirstChoice(f).value)) else None)
      else if kind == "multi_enum" then Some(Arr(if FirstChoice(f).Some? then [Str(FirstChoice(f).value)] else []))
      else if kind == "boolean" then Some(Bool(false))
      else if kind in {"number", "currency", "percentage"} then Some(Num(if f.min.Some? then f.min.value else 0.0))
      else None
  }

  function Rationale(s: Source): string {
    match s
    case FromDraft => "Already filled in this draft."
    case FromHistory => "Drawn from similar quotes in your history."
    case FromDefault => "Sensible default - adjust as needed."
  }

  /** History is asked when it may be, the field wants it, and the allowance has a call left. */
  predicate Asks(f: Field, o: Outside, spent: ResearchBudget.Spent, maxCalls: int, maxCost: real) {
    o.mayAsk && f.historical && ResearchBudget.Allows(spent, maxCalls, maxCost, 0.0)
  }

  /** A JSON null from history counts as no value. */
  function Historical(o: Outside, id: string): Option<Json> {
    if o.history(id) == Some(Null) then None else o.history(id)
  }

  /** The ladder for one field: draft, then history, then default. */
  function Chosen(draft: seq<Member>, stepId: string, f: Field, o: Outside, asks: bool): Option<(Json, Source)> {
    if DraftValue(draft, stepId, f.id).Some? then Some((DraftValue(draft, stepId, f.id).value, FromDraft))
    else if asks && Historical(o, f.id).Some? then Some((Historical(o, f.id).value, FromHistory))
    else if DefaultValue(f).Some? then Some((DefaultValue(f).value, FromDefault))
    else None
  }

  // ----- all essential fields -----

  /** fields_by_id: the last field with an id, if the id is not empty. */
  function FieldById(fields: seq<Field>, id: string): Option<Field> {
    if id == "" then None else LastSpec(fields, id)
  }

  /** The essential ids that name a field of the tab. */
  function Essentials(step: Step, ids: seq<string>): (fs: seq<Field>)
    ensures |fs| <= |ids|
    ensures forall i :: 0 <= i < |fs| ==> fs[i] in step.fields
  {
    if ids == [] then []
    else
      var rest, f := Essentials(step, ids[..|ids| - 1]), FieldById(step.fields, ids[|ids| - 1]);
      if f.Some? then rest + [f.value] else rest
  }

  /** What the loop has gathered. */
  datatype Gathered = Gathered(payload: seq<Member>, rationale: seq<Member>, sources: set<Source>,
                               spent: ResearchBudget.Spent)

  datatype Asking = Asking(draft: seq<Member>, stepId: string, o: Outside, maxCalls: int, maxCost: real)

  function Gather(a: Asking, fs: seq<Field>, start: ResearchBudget.Spent): Gathered {
    if fs == [] then Gathered([], [], {}, start)
    else GatherOne(a, Gather(a, fs[..|fs| - 1], start), fs[|fs| - 1])
  }

  /** History is asked for a field the draft has no value for. */
  predicate AsksFor(a: Asking, f: Field, spent: ResearchBudget.Spent) {
    DraftValue(a.draft, a.stepId, f.id).None? && Asks(f, a.o, spent, a.maxCalls, a.maxCost)
  }

  function Charged(asks: bool, spent: ResearchBudget.Spent): ResearchBudget.Spent {
    if asks then ResearchBudget.Recorded(spent, 0.0) else spent
  }

  function Noted(g: Gathered, id: string, chosen: Option<(Json, Source)>): Gathered {
    match chosen
    case None => g
    case Some((v, source)) =>
      Gathered(Put(g.payload, id, v), Put(g.rationale, id, Str(Rationale(source))), g.sources + {source}, g.spent)
  }

  function GatherOne(a: Asking, g: Gathered, f: Field): Gathered {
    var asks := AsksFor(a, f, g.spent);
    Noted(g.(spent := Charged(asks, g.spent)), f.id, Chosen(a.draft, a.stepId, f, a.o, asks))
  }

  lemma GatherNext(a: Asking, fs: seq<Field>, start: ResearchBudget.Spent, i: nat)
    requires i < |fs|
    ensures Gather(a, fs[..i + 1], start) == GatherOne(a, Gather(a, fs[..i], start), fs[i])
  {
    assert fs[..i + 1][..i] == fs[..i];
  }

  function Min(a: real, b: real): real {
    if a <= b then a else b
  }

  function Quality(sources: set<Source>): real {
    if FromHistory in sources then 1.0
    else if FromDraft in sources then 0.7
    else if FromDefault in sources then 0.4
    else 0.0
  }

  /** round(x, 4): to the nearest ten-thousandth, a half to the even one. */
  function Round4(x: real): real {
    var scaled := x * 10000.0;
    var low := scaled.Floor;
    var rest := scaled - low as real;
    (if rest < 0.5 || (rest == 0.5 && low % 2 == 0) then low else low + 1) as real / 10000.0
  }

  function Confidence(filled: nat, essential: nat, sources: set<Source>): real {
    if essential == 0 then 0.0
    else Round4(0.7 * Min(1.0, filled as real / essential as real) + 0.3 * Quality(sources))
  }

  /** propose_step_payload. */
  method ProposeStepPayload(step: Step, draft: seq<Member>, o: Outside, budget: ResearchBudget.RunBudget)
    returns (p: Option<Proposal>)
    modifies budget
    ensures var fs := Essentials(step, step.essentials);
            var g := Gather(Asking(draft, step.id, o, budget.maxCalls, budget.maxCost), fs, old(budget.State()));
            && budget.State() == g.spent
            && p == if g.payload == [] then None
                    else Some(Proposal(g.payload, g.rationale, g.sources, Confidence(|g.payload|, |fs|, g.sources)))
  {
    var fs := FindEssentials(step);
    var payload: seq<Member>, rationale: seq<Member>, sources: set<Source> := [], [], {};
    ghost var a, start := Asking(draft, step.id, o, budget.maxCalls, budget.maxCost), budget.State();
    for i := 0 to |fs|
      invariant Gather(a, fs[..i], start) == Gathered(payload, rationale, sources, budget.State())
    {
      GatherNext(a, fs, start, i);
      var chosen := ChooseFor(step, draft, o, budget, fs[i]);
      if chosen.Some? {
        payload := Put(payload, fs[i].id, chosen.value.0);
        rationale := Put(rationale, fs[i].id, Str(Rationale(chosen.value.1)));
        sources := sources + {chosen.value.1};
      }
    }
    assert fs[..|fs|] == fs;
    if payload == [] {
      return None;
    }
    return Some(Proposal(payload, rationale, sources, Confidence(|payload|, |fs|, sources)));
  }

  /** The body of the loop: the draft wins outright; asking history is charged even when it has nothing to say. */
  method ChooseFor(step: Step, draft: seq<Member>, o: Outside, budget: ResearchBudget.RunBudget, f: Field)
    returns (chosen: Option<(Json, Source)>)
    modifies budget
    ensures var asks := AsksFor(Asking(draft, step.id, o, budget.maxCalls, budget.maxCost), f, old(budget.State()));
            chosen == Chosen(draft, step.id, f, o, asks) && budget.State() == Charged(asks, old(budget.State()))
  {
    var existing := DraftValue(draft, step.id, f.id);
    if existing.Some? {
      return Some((existing.value, FromDraft));
    }
    if o.mayAsk && f.historical {
      var allowed := budget.CanSpend(0.0);
      if allowed.value {
        var value := Historical(o, f.id);
        var _ := budget.Record(0.0);
        if value.Some? {
          return Some((value.value, FromHistory));
        }
      }
    }
    var default := DefaultValue(f);
    return if default.Some? then Some((default.value, FromDefault)) else None;
  }

  method FindEssentials(step: Step) returns (fs: seq<Field>)
    ensures fs == Essentials(step, step.essentials)
  {
    fs := [];
    for i := 0 to |step.essentials|
      invariant fs == Essentials(step, step.essentials[..i])
    {
      assert step.essentials[..i + 1][..i] == step.essentials[..i];
      var f := FieldById(step.fields, step.essentials[i]);
      if f.Some? {
        fs := fs + [f.value];
      }
    }
    assert step.essentials[..|step.essentials|] == step.essentials;
  }

  // ----- what a proposal contains -----

  predicate HasKey(ms: seq<Member>, key: string) {
    exists i :: 0 <= i < |ms| && ms[i].key == key
  }

  lemma {:induction false} PutKeys(ms: seq<Member>, key: string, v: Json, k: string)
    ensures HasKey(Put(ms, key, v), k) <==> HasKey(ms, k) || k == key
    ensures |Put(ms, key, v)| <= |ms| + 1
  {
    if ms == [] {
      assert Put(ms, key, v)[0].key == key;
    } else if ms[0].key == key {
      var after := Put(ms, key, v);
      assert after == [Member(key, v)] + ms[1..] && after[0].key == key;
      forall i | 0 <= i < |ms| ensures after[i].key == ms[i].key {}
    } else {
      PutKeys(ms[1..], key, v, k);
      TailKeys(ms, k);
      TailKeys(Put(ms, key, v), k);
      assert Put(ms, key, v)[1..] == Put(ms[1..], key, v);
    }
  }

  lemma TailKeys(ms: seq<Member>, k: string)
    requires ms != []
    ensures HasKey(ms, k) <==> ms[0].key == k || HasKey(ms[1..], k)
  {
    if i :| 0 <= i < |ms| && ms[i].key == k {
      assert i > 0 ==> ms[1..][i - 1].key == k;
    }
    if i :| 0 <= i < |ms[1..]| && ms[1..][i].key == k {
      assert ms[i + 1].key == k;
    }
  }

  lemma NotedKeys(g: Gathered, id: string, chosen: Option<(Json, Source)>, k: string)
    requires HasKey(g.payload, k) <==> HasKey(g.rationale, k)
    ensures var g' := Noted(g, id, chosen);
            && (HasKey(g'.payload, k) <==> HasKey(g'.rationale, k))
            && (HasKey(g'.payload, k) ==> HasKey(g.payload, k) || k == id)
            && |g'.payload| <= |g.payload| + 1
  {
    if chosen.Some? {
      PutKeys(g.payload, id, chosen.value.0, k);
      PutKeys(g.rationale, id, Str(Rationale(chosen.value.1)), k);
    }
  }

  predicate Names(fs: seq<Field>, k: string) {
    exists i :: 0 <= i < |fs| && fs[i].id == k
  }

  /** Payload and rationale have the same keys, each an essential field of the tab, and there are no more of them than
      essential fields. */
  lemma {:induction false} GatherKeys(a: Asking, fs: seq<Field>, start: ResearchBudget.Spent, k: string)
    ensures var g := Gather(a, fs, start);
            && (HasKey(g.payload, k) <==> HasKey(g.rationale, k))
            && (HasKey(g.payload, k) ==> Names(fs, k))
            && |g.payload| <= |fs|
  {
    if fs != [] {
      var init, f := fs[..|fs| - 1], fs[|fs| - 1];
      var g := Gather(a, init, start);
      var asks := AsksFor(a, f, g.spent);
      GatherKeys(a, init, start, k);
      NotedKeys(g.(spent := Charged(asks, g.spent)), f.id, Chosen(a.draft, a.stepId, f, a.o, asks), k);
      if i :| 0 <= i < |init| && init[i].id == k {
        assert fs[i].id == k;
      }
      assert fs[|fs| - 1].id == f.id;
    }
  }

  lemma {:induction false} GetHasKey(ms: seq<Member>, k: string)
    ensures Get(ms, k).Some? <==> HasKey(ms, k)
  {
    if ms != [] {
      TailKeys(ms, k);
      GetHasKey(ms[1..], k);
    }
  }

  /** A value the draft has is proposed as it is, and said to come from the draft. */
  lemma {:induction false} DraftWins(a: Asking, fs: seq<Field>, start: ResearchBudget.Spent, k: string)
    requires DraftValue(a.draft, a.stepId, k).Some? && Names(fs, k)
    ensures var g := Gather(a, fs, start);
            && Get(g.payload, k) == DraftValue(a.draft, a.stepId, k)
            && Get(g.rationale, k) == Some(Str(Rationale(FromDraft)))
            && FromDraft in g.sources
  {
    var init, f := fs[..|fs| - 1], fs[|fs| - 1];
    var g := Gather(a, init, start);
    var asks := AsksFor(a, f, g.spent);
    var chosen := Chosen(a.draft, a.stepId, f, a.o, asks);
    if f.id != k {
      var i :| 0 <= i < |fs| && fs[i].id == k;
      assert init[i].id == k;
      DraftWins(a, init, start, k);
    }
    if chosen.Some? {
      GetPut(g.payload, f.id, chosen.value.0, k);
      GetPut(g.rationale, f.id, Str(Rationale(chosen.value.1)), k);
    }
  }

  /** Nothing proposed is null, and what is proposed for a field the draft has a value for is that value. */
  lemma {:induction false} ProposedValues(a: Asking, fs: seq<Field>, start: ResearchBudget.Spent, k: string)
    requires Get(Gather(a, fs, start).payload, k).Some?
    ensures var v := Get(Gather(a, fs, start).payload, k).value;
            v != Null && (DraftValue(a.draft, a.stepId, k).Some? ==> Some(v) == DraftValue(a.draft, a.stepId, k))
  {
    var init, f := fs[..|fs| - 1], fs[|fs| - 1];
    var g := Gather(a, init, start);
    var chosen := Chosen(a.draft, a.stepId, f, a.o, AsksFor(a, f, g.spent));
    if chosen.Some? {
      GetPut(g.payload, f.id, chosen.value.0, k);
    }
    if chosen.None? || f.id != k {
      ProposedValues(a, init, start, k);
    }
  }

  /** History is charged once per field at most, costs nothing, and is never asked beyond the cap. */
  lemma {:induction false} GatherCharges(a: Asking, fs: seq<Field>, start: ResearchBudget.Spent)
    ensures var spent := Gather(a, fs, start).spent;
            && spent.cost == start.cost
            && start.calls <= spent.calls <= start.calls + |fs|
            && (spent.calls > start.calls ==> spent.calls <= a.maxCalls)
  {
    if fs != [] {
      GatherCharges(a, fs[..|fs| - 1], start);
    }
  }

  predicate DistinctFields(fs: seq<Field>) {
    forall i, j :: 0 <= i < j < |fs| ==> fs[i].id != fs[j].id
  }

  /** The ladder: the draft before history, history before the default. */
  function LadderValue(a: Asking, f: Field): Option<Json> {
    if DraftValue(a.draft, a.stepId, f.id).Some? then DraftValue(a.draft, a.stepId, f.id)
    else if a.o.mayAsk && f.historical && Historical(a.o, f.id).Some? then Historical(a.o, f.id)
    else DefaultValue(f)
  }

  /** With allowance for every field, each essential field is proposed exactly by the ladder, whatever the others are. */
  lemma {:induction false} ProposedByLadder(a: Asking, fs: seq<Field>, start: ResearchBudget.Spent, i: nat)
    requires i < |fs| && DistinctFields(fs)
    requires start.calls + |fs| <= a.maxCalls && start.cost <= a.maxCost
    ensures Get(Gather(a, fs, start).payload, fs[i].id) == LadderValue(a, fs[i])
  {
    var init, f := fs[..|fs| - 1], fs[|fs| - 1];
    var g := Gather(a, init, start);
    var asks := AsksFor(a, f, g.spent);
    var chosen := Chosen(a.draft, a.stepId, f, a.o, asks);
    GatherCharges(a, init, start);
    if chosen.Some? {
      GetPut(g.payload, f.id, chosen.value.0, fs[i].id);
    }
    if i < |init| {
      ProposedByLadder(a, init, start, i);
    } else {
      GatherKeys(a, init, start, f.id);
      GetHasKey(g.payload, f.id);
    }
  }

  /** The draft's section of the tab holds the value for the field, and it is not one that counts as unanswered. */
  predicate DraftHolds(draft: seq<Member>, stepId: string, id: string, v: Json) {
    && Get(draft, stepId).Some? && Get(draft, stepId).value.Obj?
    && Get(Get(draft, stepId).value.members, id) == Some(v) && v !in {Null, Str(""), Arr([])}
  }

  /** Each rung of the ladder. */
  lemma LadderExactly(a: Asking, f: Field)
    ensures forall v :: DraftHolds(a.draft, a.stepId, f.id, v) ==> LadderValue(a, f) == Some(v)
    ensures (forall v :: !DraftHolds(a.draft, a.stepId, f.id, v)) ==>
              LadderValue(a, f)
              == if a.o.mayAsk && f.historical && a.o.history(f.id) !in {None, Some(Null)} then a.o.history(f.id)
                 else DefaultValue(f)
  {
    if DraftValue(a.draft, a.stepId, f.id).Some? {
      assert DraftHolds(a.draft, a.stepId, f.id, DraftValue(a.draft, a.stepId, f.id).value);
    }
  }

  /** While the allowance lasts, each field that the draft has no value for and that wants history costs one call,
      whatever history says, and no other field costs any. */
  lemma ChargedExactly(a: Asking, fs: seq<Field>, start: ResearchBudget.Spent, i: nat)
    requires i < |fs| && start.cost <= a.maxCost
    ensures var was, now := Gather(a, fs[..i], start).spent, Gather(a, fs[..i + 1], start).spent;
            var wants := a.o.mayAsk && fs[i].historical && was.calls < a.maxCalls
                      && forall v :: !DraftHolds(a.draft, a.stepId, fs[i].id, v);
            now.calls == (if wants then was.calls + 1 else was.calls) && now.cost == was.cost
  {
    GatherNext(a, fs, start, i);
    GatherCharges(a, fs[..i], start);
    if DraftValue(a.draft, a.stepId, fs[i].id).Some? {
      assert DraftHolds(a.draft, a.stepId, fs[i].id, DraftValue(a.draft, a.stepId, fs[i].id).value);
    }
  }

  /** A default is an answer its own field accepts as it is, except an empty choice for a required field without options
      and a number beyond the field's maximum. */
  lemma DefaultAccepted(h: Answers.Host, f: Field)
    requires DefaultValue(f).Some?
    ensures Answers.Validate(h, f, DefaultValue(f).value) == Answers.Accepted(DefaultValue(f).value) <==>
            && !(DefaultValue(f) == Some(Arr([])) && f.required)
            && !(DefaultValue(f).value.Num? && f.max.Some? && f.max.value < DefaultValue(f).value.n)
  {
    if FirstChoice(f).Some? {
      assert f.choices.value[0].value in Answers.Values(f);
    }
  }

  function Bare(id: string, kind: string): Field {
    Field(id, None, Some(kind), true, false, None, None, None, None, None, None, false)
  }

  /** A required multiple choice without options is proposed empty, and the answer is refused. */
  lemma EmptyChoiceRefused(h: Answers.Host, id: string)
    ensures var f := Bare(id, "multi_enum");
            && DefaultValue(f) == Some(Arr([]))
            && Answers.Validate(h, f, Arr([])) == Answers.Refuses(Answers.Required)
  {
    assert "multi_enum"[0] != "enum"[0];
  }

  /** A number of at most -1 without a minimum is proposed as 0, and the answer is refused. */
  lemma DefaultAboveMaximum(h: Answers.Host, id: string)
    ensures var f := Bare(id, "number").(max := Some(-1.0));
            && DefaultValue(f) == Some(Num(0.0))
            && Answers.Validate(h, f, Num(0.0)) == Answers.Refuses(Answers.AboveMax)
  {
    assert "number"[0] != "enum"[0] && "number"[0] != "multi_enum"[0] && "number"[0] != "boolean"[0];
  }

  const KINDS_WITH_DEFAULT: set<string> := {"enum", "multi_enum", "boolean", "number", "currency", "percentage"}

  /** The default of each kind of field. */
  lemma DefaultExactly(f: Field)
    ensures var first := if f.choices.Some? && f.choices.value != [] then f.choices.value[0].value else "";
            && (f.kind == Some("enum") ==> DefaultValue(f) == if first == "" then None else Some(Str(first)))
            && (f.kind == Some("multi_enum") ==>
                  DefaultValue(f) == Some(Arr(if first == "" then [] else [Str(first)])))
            && (f.kind == Some("boolean") ==> DefaultValue(f) == Some(Bool(false)))
            && (f.kind in {Some("number"), Some("currency"), Some("percentage")} ==>
                  DefaultValue(f) == Some(Num(if f.min.Some? then f.min.value else 0.0)))
            && (f.kind.None? || f.kind.value !in KINDS_WITH_DEFAULT ==> DefaultValue(f) == None)
  {
    assert "enum"[0] == 'e' && "multi_enum"[0] == 'm' && "boolean"[0] == 'b';
    assert "number"[0] == 'n' && "currency"[0] == 'c' && "percentage"[0] == 'p';
  }

  /** An essential id names a field of the tab: the last one with this id. */
  predicate NamesField(step: Step, id: string, f: Field) {
    && id != "" && f.id == id
    && exists j :: 0 <= j < |step.fields| && step.fields[j] == f
                   && forall k :: j < k < |step.fields| ==> step.fields[k].id != id
  }

  predicate NamesNone(step: Step, id: string) {
    id == "" || forall k :: 0 <= k < |step.fields| ==> step.fields[k].id != id
  }

  lemma {:induction false} LastSpecLast(fields: seq<Field>, id: string)
    requires LastSpec(fields, id).Some?
    ensures exists j :: 0 <= j < |fields| && fields[j] == LastSpec(fields, id).value
                        && forall k :: j < k < |fields| ==> fields[k].id != id
  {
    var n := |fields| - 1;
    if fields[n].id == id {
      assert fields[n] == LastSpec(fields, id).value;
    } else {
      LastSpecLast(fields[..n], id);
      var j :| 0 <= j < n && fields[..n][j] == LastSpec(fields, id).value
               && forall k :: j < k < n ==> fields[..n][k].id != id;
      forall k | j < k < |fields| ensures fields[k].id != id {
        assert k < n ==> fields[..n][k] == fields[k];
      }
      assert fields[j] == LastSpec(fields, id).value;
    }
  }

  lemma FieldByIdExactly(step: Step, id: string)
    ensures match FieldById(step.fields, id) case Some(f) => NamesField(step, id, f) case None => NamesNone(step, id)
  {
    if FieldById(step.fields, id).Some? {
      LastSpecLast(step.fields, id);
    }
  }

  /** The essential fields are those that the ids name, in the order of the ids; ids that name none are left out. */
  lemma {:induction false} EssentialsExactly(step: Step, ids: seq<string>, i: nat)
    requires i < |ids|
    ensures |Essentials(step, ids[..i])| <= |Essentials(step, ids)|
    ensures Essentials(step, []) == []
    ensures NamesNone(step, ids[i]) ==> Essentials(step, ids[..i + 1]) == Essentials(step, ids[..i])
    ensures forall f :: NamesField(step, ids[i], f) ==>
              && |Essentials(step, ids[..i])| < |Essentials(step, ids)|
              && Essentials(step, ids)[|Essentials(step, ids[..i])|] == f
    decreases |ids|
  {
    var init, last := ids[..|ids| - 1], ids[|ids| - 1];
    assert ids[..i + 1][..i] == ids[..i] && ids[..i + 1][i] == ids[i];
    FieldByIdExactly(step, ids[i]);
    if i < |init| {
      EssentialsExactly(step, init, i);
      assert init[..i] == ids[..i];
    } else {
      assert ids[..i] == init;
      forall f | NamesField(step, ids[i], f) ensures FieldById(step.fields, ids[i]) == Some(f) {
        NamedOnce(step, ids[i], f);
      }
    }
    if NamesNone(step, ids[i]) {
      NoneNamed(step, ids[i]);
    }
  }

  lemma NamedOnce(step: Step, id: string, f: Field)
    requires NamesField(step, id, f)
    ensures FieldById(step.fields, id) == Some(f)
  {
    var j :| 0 <= j < |step.fields| && step.fields[j] == f
             && forall k :: j < k < |step.fields| ==> step.fields[k].id != id;
    assert LastAt(step.fields, id, j);
    LastIs(step.fields, id, j);
  }

  lemma NoneNamed(step: Step, id: string)
    requires NamesNone(step, id)
    ensures FieldById(step.fields, id) == None
  {
  }

  // ----- the confidence -----

  /** History counts in full, the draft for seven tenths, defaults for four; seven tenths of the confidence are how much
      of the tab is filled, three tenths the best source. */
  lemma ConfidenceExactly(filled: nat, essential: nat, sources: set<Source>)
    requires filled <= essential && essential > 0
    ensures FromHistory in sources ==> Quality(sources) == 1.0
    ensures FromHistory !in sources && FromDraft in sources ==> Quality(sources) == 0.7
    ensures sources == {FromDefault} ==> Quality(sources) == 0.4
    ensures sources == {} ==> Quality(sources) == 0.0
    ensures var exact := 0.7 * (filled as real / essential as real) + 0.3 * Quality(sources);
            -0.00005 <= Confidence(filled, essential, sources) - exact <= 0.00005
    ensures Confidence(0, 0, sources) == 0.0
  {
    ShareIsOne(filled, essential);
    Round4Near(0.7 * (filled as real / essential as real) + 0.3 * Quality(sources));
  }

  lemma ShareIsOne(filled: nat, essential: nat)
    requires filled <= essential && essential > 0
    ensures filled as real / essential as real <= 1.0
  {
  }

  lemma Round4Near(x: real)
    ensures -0.00005 <= Round4(x) - x <= 0.00005
  {
  }

  lemma Round4Bounds(x: real)
    requires 0.0 <= x <= 1.0
    ensures 0.0 <= Round4(x) <= 1.0
  {
    assert 0.0 <= x * 10000.0 <= 10000.0;
  }

  lemma CoverageBounds(filled: nat, essential: nat)
    requires 0 < essential
    ensures 0.0 <= Min(1.0, filled as real / essential as real) <= 1.0
  {
    assert 0.0 <= filled as real / essential as real;
  }

  /** The confidence of a proposal lies between nothing and certainty. */
  lemma ConfidenceBounds(filled: nat, essential: nat, sources: set<Source>)
    ensures 0.0 <= Confidence(filled, essential, sources) <= 1.0
  {
    if essential > 0 {
      CoverageBounds(filled, essential);
      Round4Bounds(0.7 * Min(1.0, filled as real / essential as real) + 0.3 * Quality(sources));
    }
  }

  // ----- accepting a proposal -----

  datatype Outcome =
    | Merged(populated: seq<string>)
    | StepNotFound
    | UnknownFields(ids: seq<string>)
    | ServerFault

  predicate FieldOf(step: Step, id: string) {
    id != "" && exists i :: 0 <= i < |step.fields| && step.fields[i].id == id
  }

  /** The keys of a payload that name no field of the tab. */
  function Strangers(step: Step, proposed: seq<Member>): seq<string> {
    if proposed == [] then []
    else
      var rest, key := Strangers(step, proposed[..|proposed| - 1]), proposed[|proposed| - 1].key;
      if FieldOf(step, key) then rest else rest + [key]
  }

  function Merge(section: seq<Member>, proposed: seq<Member>): seq<Member> {
    if proposed == [] then section
    else
      var last := proposed[|proposed| - 1];
      Put(Merge(section, proposed[..|proposed| - 1]), last.key, last.value)
  }

  function KeysOf(ms: seq<Member>): (r: seq<string>)
    ensures |r| == |ms| && forall i :: 0 <= i < |ms| ==> r[i] == ms[i].key
  {
    seq(|ms|, i requires 0 <= i < |ms| => ms[i].key)
  }

  /** The draft after a payload is accepted for a tab; None where the tab's section is not an object. */
  function Accepted(draft: seq<Member>, stepId: string, proposed: seq<Member>): Option<seq<Member>> {
    match ObjectAt(draft, stepId)
    case None => None
    case Some(section) => Some(Put(draft, stepId, Obj(Merge(section, proposed))))
  }

  /** decide_step_proposal, accept branch: only known fields, merged key by key. */
  method AcceptProposal(d: Draft, steps: seq<Step>, stepId: string, proposed: seq<Member>) returns (r: Outcome)
    modifies d
    ensures var step := GetStep(steps, stepId);
            && (step.None? <==> r == StepNotFound)
            && (step.Some? ==>
                  var strangers := Strangers(step.value, proposed);
                  && (r.UnknownFields? <==> strangers != []) && (r.UnknownFields? ==> r.ids == strangers)
                  && (strangers == [] ==>
                        match Accepted(old(d.payload), stepId, proposed)
                        case None => r == Outcome.ServerFault
                        case Some(merged) => r == Merged(KeysOf(proposed)) && d.payload == merged))
    ensures !r.Merged? ==> d.payload == old(d.payload)
  {
    var step := GetStep(steps, stepId);
    if step.None? {
      return StepNotFound;
    }
    var unknown := FindStrangers(step.value, proposed);
    if unknown != [] {
      return UnknownFields(unknown);
    }
    var section := ObjectAt(d.payload, stepId);
    if section.None? {
      return Outcome.ServerFault;
    }
    var merged := section.value;
    for i := 0 to |proposed|
      invariant merged == Merge(section.value, proposed[..i])
    {
      assert proposed[..i + 1][..i] == proposed[..i];
      merged := Put(merged, proposed[i].key, proposed[i].value);
    }
    assert proposed[..|proposed|] == proposed;
    d.payload := Put(d.payload, stepId, Obj(merged));
    return Merged(KeysOf(proposed));
  }

  method FindStrangers(step: Step, proposed: seq<Member>) returns (ids: seq<string>)
    ensures ids == Strangers(step, proposed)
  {
    ids := [];
    for i := 0 to |proposed|
      invariant ids == Strangers(step, proposed[..i])
    {
      assert proposed[..i + 1][..i] == proposed[..i];
      if !FieldOf(step, proposed[i].key) {
        ids := ids + [proposed[i].key];
      }
    }
    assert proposed[..|proposed|] == proposed;
  }

  lemma {:induction false} NoStrangers(step: Step, proposed: seq<Member>)
    requires forall i :: 0 <= i < |proposed| ==> FieldOf(step, proposed[i].key)
    ensures Strangers(step, proposed) == []
  {
    if proposed != [] {
      NoStrangers(step, proposed[..|proposed| - 1]);
    }
  }

  lemma {:induction false} EssentialsNamed(step: Step, ids: seq<string>, i: nat)
    requires i < |Essentials(step, ids)|
    ensures FieldOf(step, Essentials(step, ids)[i].id)
  {
    var init := ids[..|ids| - 1];
    var f := FieldById(step.fields, ids[|ids| - 1]);
    if i < |Essentials(step, init)| {
      EssentialsNamed(step, init, i);
    } else {
      var j :| 0 <= j < |step.fields| && step.fields[j] == f.value;
      assert step.fields[j].id == f.value.id;
    }
  }

  /** Every payload proposed for a tab passes the check of the accept endpoint. */
  lemma ProposalIsAcceptable(step: Step, a: Asking, start: ResearchBudget.Spent)
    ensures Strangers(step, Gather(a, Essentials(step, step.essentials), start).payload) == []
  {
    var fs := Essentials(step, step.essentials);
    var payload := Gather(a, fs, start).payload;
    forall k | 0 <= k < |payload| ensures FieldOf(step, payload[k].key) {
      assert HasKey(payload, payload[k].key);
      GatherKeys(a, fs, start, payload[k].key);
      var i :| 0 <= i < |fs| && fs[i].id == payload[k].key;
      EssentialsNamed(step, step.essentials, i);
    }
    NoStrangers(step, payload);
  }

  /** The value merged for a key: the last one proposed for it. */
  function LastOf(ms: seq<Member>, k: string): Option<Json> {
    if ms == [] then None
    else if ms[|ms| - 1].key == k then Some(ms[|ms| - 1].value)
    else LastOf(ms[..|ms| - 1], k)
  }

  lemma {:induction false} MergeGet(section: seq<Member>, proposed: seq<Member>, k: string)
    ensures Get(Merge(section, proposed), k)
         == if LastOf(proposed, k).Some? then LastOf(proposed, k) else Get(section, k)
  {
    if proposed != [] {
      var init, last := proposed[..|proposed| - 1], proposed[|proposed| - 1];
      MergeGet(section, init, k);
      GetPut(Merge(section, init), last.key, last.value, k);
    }
  }

  /** Accepting writes what was proposed and keeps every other field of the tab and every other entry of the draft, the
      conversation's cursor among them. */
  lemma AcceptKeepsOthers(draft: seq<Member>, stepId: string, proposed: seq<Member>, other: string, k: string)
    requires Accepted(draft, stepId, proposed).Some?
    ensures var after := Accepted(draft, stepId, proposed).value;
            && (other != stepId ==> Get(after, other) == Get(draft, other))
            && ObjectAt(after, stepId).Some?
            && Get(ObjectAt(after, stepId).value, k)
               == (if LastOf(proposed, k).Some? then LastOf(proposed, k) else Get(ObjectAt(draft, stepId).value, k))
            && (stepId != META ==> GetCursor(after) == GetCursor(draft))
  {
    var section := ObjectAt(draft, stepId).value;
    MergeGet(section, proposed, k);
    GetPut(draft, stepId, Obj(Merge(section, proposed)), other);
    GetPut(draft, stepId, Obj(Merge(section, proposed)), stepId);
    GetPut(draft, stepId, Obj(Merge(section, proposed)), META);
  }

  /** Proposing again keeps every accepted value that is not blank, whether the user edited the proposal or not, and says
      it comes from the draft; history and allowance do not matter any more. */
  lemma AcceptedStaysProposed(step: Step, draft: seq<Member>, proposed: seq<Member>, k: string, o: Outside, maxCalls: int,
                              maxCost: real, start: ResearchBudget.Spent)
    requires Accepted(draft, step.id, proposed).Some? && LastOf(proposed, k).Some? && !Blank(LastOf(proposed, k).value)
    requires Names(Essentials(step, step.essentials), k)
    ensures var after := Accepted(draft, step.id, proposed).value;
            var g := Gather(Asking(after, step.id, o, maxCalls, maxCost), Essentials(step, step.essentials), start);
            && Get(g.payload, k) == LastOf(proposed, k)
            && Get(g.rationale, k) == Some(Str(Rationale(FromDraft)))
  {
    var after := Accepted(draft, step.id, proposed).value;
    AcceptKeepsOthers(draft, step.id, proposed, "", k);
    var section := ObjectAt(draft, step.id).value;
    GetPut(draft, step.id, Obj(Merge(section, proposed)), step.id);
    MergeGet(section, proposed, k);
    DraftWins(Asking(after, step.id, o, maxCalls, maxCost), Essentials(step, step.essentials), start, k);
  }

  // ----- accepting keeps templates resolved -----

  lemma {:induction false} GatherUnique(a: Asking, fs: seq<Field>, start: ResearchBudget.Spent)
    ensures UniqueKeys(Gather(a, fs, start).payload)
  {
    if fs != [] {
      var init, f := fs[..|fs| - 1], fs[|fs| - 1];
      var g := Gather(a, init, start);
      GatherUnique(a, init, start);
      var chosen := Chosen(a.draft, a.stepId, f, a.o, AsksFor(a, f, g.spent));
      if chosen.Some? {
        PutUnique(g.payload, f.id, chosen.value.0);
      }
    }
  }

  lemma {:induction false} LastIsGet(ms: seq<Member>, k: string)
    requires UniqueKeys(ms)
    ensures LastOf(ms, k) == Get(ms, k)
  {
    if ms != [] {
      LastIsGet(ms[..|ms| - 1], k);
      GetInit(ms, k);
    }
  }

  lemma {:induction false} GetInit(ms: seq<Member>, k: string)
    requires UniqueKeys(ms) && ms != []
    ensures var last := ms[|ms| - 1];
            Get(ms, k) == if last.key == k then Some(last.value) else Get(ms[..|ms| - 1], k)
  {
    if |ms| > 1 {
      assert ms[1..][..|ms| - 2] == ms[..|ms| - 1][1..];
      GetInit(ms[1..], k);
    }
  }

  /** Every proposed value replaces nothing, a blank, or itself, and is not null. */
  ghost predicate OnlyFills(section: seq<Member>, proposed: seq<Member>) {
    forall k :: FillsAt(section, proposed, k)
  }

  predicate FillsAt(section: seq<Member>, proposed: seq<Member>, k: string) {
    LastOf(proposed, k).Some? ==>
      && LastOf(proposed, k).value != Null
      && (Get(section, k).Some? && !Blank(Get(section, k).value) ==> LastOf(proposed, k) == Get(section, k))
  }

  lemma MergeGrows(section: seq<Member>, proposed: seq<Member>)
    requires Template.WellKeyed(Obj(section)) && OnlyFills(section, proposed)
    ensures Template.Grows(Obj(section), Obj(Merge(section, proposed)))
  {
    var after := Merge(section, proposed);
    forall i: nat | i < |section|
      ensures Get(after, section[i].key).Some?
           && Template.Grows(section[i].value, Get(after, section[i].key).value)
    {
      var k := section[i].key;
      assert FillsAt(section, proposed, k);
      GetMember(section, i);
      MergeGet(section, proposed, k);
      Template.GrowsSelf(section[i].value);
    }
  }

  lemma PutGrows(draft: seq<Member>, key: string, v: Json)
    requires Template.WellKeyed(Obj(draft)) && (Get(draft, key).Some? ==> Template.Grows(Get(draft, key).value, v))
    ensures Template.Grows(Obj(draft), Obj(Put(draft, key, v)))
  {
    var after := Put(draft, key, v);
    forall i: nat | i < |draft|
      ensures Get(after, draft[i].key).Some? && Template.Grows(draft[i].value, Get(after, draft[i].key).value)
    {
      GetMember(draft, i);
      GetPut(draft, key, v, draft[i].key);
      Template.GrowsSelf(draft[i].value);
    }
  }

  lemma SectionWellKeyed(draft: seq<Member>, stepId: string)
    requires Template.WellKeyed(Obj(draft)) && ObjectAt(draft, stepId).Some?
    ensures Template.WellKeyed(Obj(ObjectAt(draft, stepId).value))
  {
    if Get(draft, stepId).Some? {
      GetFrom(draft, stepId);
    }
  }

  lemma {:induction false} GetFrom(ms: seq<Member>, k: string)
    requires Get(ms, k).Some?
    ensures exists i :: 0 <= i < |ms| && ms[i].value == Get(ms, k).value
  {
    if ms[0].key != k {
      GetFrom(ms[1..], k);
      var i :| 0 <= i < |ms[1..]| && ms[1..][i].value == Get(ms[1..], k).value;
      assert ms[i + 1].value == Get(ms, k).value;
    }
  }

  lemma ProposalOnlyFills(a: Asking, fs: seq<Field>, start: ResearchBudget.Spent)
    requires ObjectAt(a.draft, a.stepId).Some?
    ensures OnlyFills(ObjectAt(a.draft, a.stepId).value, Gather(a, fs, start).payload)
  {
    var section, payload := ObjectAt(a.draft, a.stepId).value, Gather(a, fs, start).payload;
    GatherUnique(a, fs, start);
    forall k ensures FillsAt(section, payload, k) {
      LastIsGet(payload, k);
      if Get(payload, k).Some? {
        ProposedValues(a, fs, start, k);
      }
    }
  }

  /** Accepting a proposal never takes a value away from a token of any template. */
  lemma AcceptNeverUnresolves(a: Asking, fs: seq<Field>, start: ResearchBudget.Spent, runtime: seq<Member>, s: string)
    requires Template.WellKeyed(Obj(a.draft))
    requires Accepted(a.draft, a.stepId, Gather(a, fs, start).payload).Some?
    requires !Template.Unresolved(s, Template.Scope(a.draft, runtime))
    ensures var after := Accepted(a.draft, a.stepId, Gather(a, fs, start).payload).value;
            !Template.Unresolved(s, Template.Scope(after, runtime))
  {
    var section, payload := ObjectAt(a.draft, a.stepId).value, Gather(a, fs, start).payload;
    SectionWellKeyed(a.draft, a.stepId);
    ProposalOnlyFills(a, fs, start);
    MergeGrows(section, payload);
    PutGrows(a.draft, a.stepId, Obj(Merge(section, payload)));
    Template.GrowthNeverUnresolves(s, Template.Scope(a.draft, runtime),
                                   Template.Scope(Put(a.draft, a.stepId, Obj(Merge(section, payload))), runtime));
  }
}
