/** The guided conversation: a cursor over phases of fields, kept inside the draft, and one answer after the other. */
module Conversation {
  import opened Json
  import opened Contract
  import opened Answers

  datatype Cursor = Cursor(phase: nat, field: nat)

  const META: string := "_meta"
  const CURSOR: string := "conversation_cursor"

  // ----- the cursor in the draft -----

  /** dict.get(key) or {}: a missing or empty entry reads as an empty object; anything else must be one. */
  function ObjectAt(ms: seq<Member>, key: string): Option<seq<Member>> {
    match Get(ms, key)
    case None => Some([])
    case Some(v) => if !Truthy(v) then Some([]) else if v.Obj? then Some(v.members) else None
  }

  /** An index that int() takes. */
  function IndexAt(ms: seq<Member>, key: string): Option<nat> {
    match Get(ms, key)
    case None => Some(0)
    case Some(Num(n)) => if n > -1.0 then Some(if n < 0.0 then 0 else n.Floor) else None
    case Some(Bool(b)) => Some(if b then 1 else 0)
    case _ => None
  }

  /** get_cursor; None where the stored cursor is malformed. */
  function GetCursor(payload: seq<Member>): Option<Cursor> {
    match ObjectAt(payload, META)
    case None => None
    case Some(meta) =>
      match ObjectAt(meta, CURSOR)
      case None => None
      case Some(raw) =>
        match (IndexAt(raw, "phase_index"), IndexAt(raw, "field_index"))
        case (Some(p), Some(f)) => Some(Cursor(p, f))
        case _ => None
  }

  function CursorJson(c: Cursor): Json {
    Obj([Member("phase_index", Num(c.phase as real)), Member("field_index", Num(c.field as real))])
  }

  /** set_cursor; dict() of a malformed entry fails. */
  function SetCursor(payload: seq<Member>, c: Cursor): Option<seq<Member>> {
    match ObjectAt(payload, META)
    case None => None
    case Some(meta) => Some(Put(payload, META, Obj(Put(meta, CURSOR, CursorJson(c)))))
  }

  lemma CursorJsonRead(c: Cursor)
    ensures var ms := CursorJson(c).members;
            IndexAt(ms, "phase_index") == Some(c.phase) && IndexAt(ms, "field_index") == Some(c.field)
  {
    var ms := CursorJson(c).members;
    var rest := [Member("field_index", Num(c.field as real))];
    assert ms[1..] == rest && rest[0].key == "field_index";
    assert ms[0].key != "field_index" by {
      assert ms[0].key[0] == 'p';
    }
    assert Get(ms, "field_index") == Get(rest, "field_index");
    assert (c.phase as real).Floor == c.phase && (c.field as real).Floor == c.field;
  }

  /** A cursor that is written is read back, and writing it touches nothing but its own entry. */
  lemma CursorRoundTrip(payload: seq<Member>, c: Cursor, key: string)
    requires SetCursor(payload, c).Some?
    ensures GetCursor(SetCursor(payload, c).value) == Some(c)
    ensures key != META ==> Get(SetCursor(payload, c).value, key) == Get(payload, key)
    ensures key != CURSOR ==>
              Get(ObjectAt(SetCursor(payload, c).value, META).value, key) == Get(ObjectAt(payload, META).value, key)
  {
    var meta := ObjectAt(payload, META).value;
    var meta' := Put(meta, CURSOR, CursorJson(c));
    GetPut(payload, META, Obj(meta'), META);
    GetPut(payload, META, Obj(meta'), key);
    GetPut(meta, CURSOR, CursorJson(c), CURSOR);
    GetPut(meta, CURSOR, CursorJson(c), key);
    assert meta' != [];
    CursorJsonRead(c);
  }

  /** A draft without the reserved entry, or with an empty one, stands at the first field. */
  lemma NoCursorIsStart(payload: seq<Member>)
    requires Get(payload, META).None? || !Truthy(Get(payload, META).value)
    ensures GetCursor(payload) == Some(Cursor(0, 0))
  {
    assert Get([], CURSOR) == None && Get([], "phase_index") == None && Get([], "field_index") == None;
  }

  // ----- the sequencer -----

  datatype FieldPrompt = FieldPrompt(
    phaseId: string, fieldId: string, caption: string, kind: string, control: string, required: bool, confirm: bool,
    choices: Option<seq<Choice>>, choicesSource: Option<Json>, ui: Option<Json>)

  datatype NextStep = Ask(prompt: FieldPrompt) | Recap

  function ControlOf(kind: string): string {
    if kind == "number" then "number"
    else if kind == "currency" then "currency"
    else if kind == "percentage" then "percentage"
    else if kind == "enum" then "single_select"
    else if kind == "multi_enum" then "multi_select"
    else if kind == "boolean" then "boolean"
    else if kind == "date" then "date"
    else "text"
  }

  function Prompt(phaseId: string, fieldId: string, f: Field): FieldPrompt {
    FieldPrompt(phaseId, fieldId, if f.caption.Some? then f.caption.value else fieldId, Kind(f), ControlOf(Kind(f)),
                f.required, f.confirm, f.choices, f.choicesSource, f.ui)
  }

  /** All fields of the contract in order. */
  function AllFields(steps: seq<Step>): seq<Field> {
    if steps == [] then [] else steps[0].fields + AllFields(steps[1..])
  }

  /** _field_index: of several fields with one id, the last one counts. */
  function LastSpec(fields: seq<Field>, id: string): (r: Option<Field>)
    ensures r.Some? ==> r.value in fields && r.value.id == id
    ensures r.None? <==> forall i :: 0 <= i < |fields| ==> fields[i].id != id
  {
    if fields == [] then None
    else if fields[|fields| - 1].id == id then Some(fields[|fields| - 1])
    else LastSpec(fields[..|fields| - 1], id)
  }

  /** _spec_for: here the first one counts. */
  function FirstSpec(fields: seq<Field>, id: string): (r: Option<Field>)
    ensures r.Some? ==> r.value in fields && r.value.id == id
    ensures r.None? <==> forall i :: 0 <= i < |fields| ==> fields[i].id != id
  {
    if fields == [] then None else if fields[0].id == id then Some(fields[0]) else FirstSpec(fields[1..], id)
  }

  function NextStepAt(c: Contract, at: Cursor): NextStep {
    if at.phase >= |c.phases| then Recap
    else
      var phase := c.phases[at.phase];
      if at.field >= |phase.fieldIds| then Recap
      else
        match LastSpec(AllFields(c.steps), phase.fieldIds[at.field])
        case None => Recap
        case Some(f) => Ask(Prompt(phase.id, phase.fieldIds[at.field], f))
  }

  function Advance(c: Contract, at: Cursor): Cursor {
    if at.phase >= |c.phases| then at
    else if at.field + 1 < |c.phases[at.phase].fieldIds| then Cursor(at.phase, at.field + 1)
    else Cursor(at.phase + 1, 0)
  }

  // ----- the flattened list -----

  /** All field ids from a phase on. */
  function FlatFrom(c: Contract, p: nat): seq<string>
    decreases |c.phases| - p
  {
    if p >= |c.phases| then [] else c.phases[p].fieldIds + FlatFrom(c, p + 1)
  }

  function Flat(c: Contract): seq<string> {
    FlatFrom(c, 0)
  }

  /** What is left of the list at a cursor. */
  function Rest(c: Contract, at: Cursor): seq<string> {
    if at.phase >= |c.phases| || at.field >= |c.phases[at.phase].fieldIds| then FlatFrom(c, at.phase + 1)
    else c.phases[at.phase].fieldIds[at.field..] + FlatFrom(c, at.phase + 1)
  }

  predicate Specified(c: Contract, id: string) {
    exists i :: 0 <= i < |AllFields(c.steps)| && AllFields(c.steps)[i].id == id
  }

  /** From this phase on every field is specified, and only phases at the end are empty. */
  predicate SoundFrom(c: Contract, p: nat) {
    SpecifiedFrom(c, p) && EmptyLastFrom(c, p)
  }

  predicate SpecifiedFrom(c: Contract, p: nat) {
    forall q :: p <= q < |c.phases| ==> AllSpecified(c, c.phases[q].fieldIds)
  }

  predicate EmptyLastFrom(c: Contract, p: nat) {
    forall q, r :: p <= q < r < |c.phases| && c.phases[q].fieldIds == [] ==> c.phases[r].fieldIds == []
  }

  predicate AllSpecified(c: Contract, ids: seq<string>) {
    forall k :: 0 <= k < |ids| ==> Specified(c, ids[k])
  }

  /** Answering every prompt and advancing, from a cursor on: the fields asked until the recap. */
  function Asked(c: Contract, at: Cursor): seq<string>
    decreases |c.phases| - at.phase, if at.phase < |c.phases| then |c.phases[at.phase].fieldIds| - at.field else 0
  {
    match NextStepAt(c, at)
    case Recap => []
    case Ask(prompt) => [prompt.fieldId] + Asked(c, Advance(c, at))
  }

  lemma AskedHere(c: Contract, at: Cursor)
    ensures NextStepAt(c, at).Ask? <==>
            at.phase < |c.phases| && at.field < |c.phases[at.phase].fieldIds|
            && Specified(c, c.phases[at.phase].fieldIds[at.field])
  {
  }

  /** The advance moves to the next entry of the flattened list. */
  lemma AdvanceIsSuccessor(c: Contract, at: Cursor)
    requires at.phase < |c.phases| && at.field < |c.phases[at.phase].fieldIds|
    ensures Rest(c, at) == [c.phases[at.phase].fieldIds[at.field]] + Rest(c, Advance(c, at))
  {
    var ids := c.phases[at.phase].fieldIds;
    assert ids[at.field..] == [ids[at.field]] + ids[at.field + 1..];
    if at.field + 1 == |ids| {
      assert ids[at.field + 1..] == [];
      RestFromStart(c, at.phase + 1);
      assert ids[at.field..] + FlatFrom(c, at.phase + 1) == [ids[at.field]] + FlatFrom(c, at.phase + 1);
    }
  }

  lemma RestFromStart(c: Contract, p: nat)
    ensures Rest(c, Cursor(p, 0)) == FlatFrom(c, p)
  {
  }

  lemma SoundSplit(c: Contract, p: nat)
    requires p < |c.phases|
    ensures SoundFrom(c, p) <==>
            && AllSpecified(c, c.phases[p].fieldIds) && SoundFrom(c, p + 1)
            && (c.phases[p].fieldIds == [] ==> forall q :: p < q < |c.phases| ==> c.phases[q].fieldIds == [])
  {
  }

  lemma {:induction false} EmptyTail(c: Contract, p: nat)
    ensures FlatFrom(c, p) == [] <==> forall q :: p <= q < |c.phases| ==> c.phases[q].fieldIds == []
    decreases |c.phases| - p
  {
    if p < |c.phases| {
      EmptyTail(c, p + 1);
    }
  }

  /** What is asked from the start of a phase. */
  lemma {:induction false} AskedFromPhase(c: Contract, p: nat)
    ensures Asked(c, Cursor(p, 0)) == FlatFrom(c, p) <==> SoundFrom(c, p)
    decreases |c.phases| - p, 0
  {
    if p < |c.phases| {
      SoundSplit(c, p);
      RestFromStart(c, p);
      EmptyTail(c, p);
      EmptyTail(c, p + 1);
      if c.phases[p].fieldIds != [] {
        AskedFromField(c, p, 0);
      }
    }
  }

  lemma {:induction false} AskedFromField(c: Contract, p: nat, k: nat)
    requires p < |c.phases| && k < |c.phases[p].fieldIds|
    ensures Asked(c, Cursor(p, k)) == Rest(c, Cursor(p, k)) <==>
            AllSpecified(c, c.phases[p].fieldIds[k..]) && SoundFrom(c, p + 1)
    decreases |c.phases| - p - 1, |c.phases[p].fieldIds| - k
  {
    var ids, at := c.phases[p].fieldIds, Cursor(p, k);
    AskedStep(c, at);
    FirstSpecified(c, ids, k);
    if Specified(c, ids[k]) {
      if k + 1 < |ids| {
        AskedFromField(c, p, k + 1);
      } else {
        AskedFromPhase(c, p + 1);
        RestFromStart(c, p + 1);
      }
    }
  }

  lemma FirstSpecified(c: Contract, ids: seq<string>, k: nat)
    requires k < |ids|
    ensures AllSpecified(c, ids[k..]) <==> Specified(c, ids[k]) && AllSpecified(c, ids[k + 1..])
  {
    assert ids[k..] == [ids[k]] + ids[k + 1..];
    if AllSpecified(c, ids[k..]) {
      assert Specified(c, ids[k..][0]);
      var tail := ids[k + 1..];
      forall j | 0 <= j < |tail| ensures Specified(c, tail[j]) {
        assert tail[j] == ids[k..][j + 1];
      }
    }
  }

  /** One prompt: it is the next of the list if its field is specified, and the end if not. */
  lemma AskedStep(c: Contract, at: Cursor)
    requires at.phase < |c.phases| && at.field < |c.phases[at.phase].fieldIds|
    ensures Asked(c, at) == Rest(c, at) <==>
            Specified(c, c.phases[at.phase].fieldIds[at.field]) && Asked(c, Advance(c, at)) == Rest(c, Advance(c, at))
  {
    AskedHere(c, at);
    AdvanceIsSuccessor(c, at);
    TailsMatter(c.phases[at.phase].fieldIds[at.field], Asked(c, Advance(c, at)), Rest(c, Advance(c, at)));
  }

  lemma TailsMatter(x: string, a: seq<string>, b: seq<string>)
    ensures [x] + a == [x] + b <==> a == b
  {
    assert ([x] + a)[1..] == a && ([x] + b)[1..] == b;
  }

  /** The conversation asks every field exactly once, in order, exactly when every field is specified and no empty phase
      comes before a phase that has fields; otherwise it ends early. */
  lemma AskedExactly(c: Contract)
    ensures Asked(c, Cursor(0, 0)) == Flat(c) <==> SoundFrom(c, 0)
  {
    AskedFromPhase(c, 0);
  }

  lemma OneTab(f: Field)
    ensures AllFields([Step("summary", [f], [], None, None)]) == [f]
  {
    var steps := [Step("summary", [f], [], None, None)];
    assert AllFields(steps[1..]) == [];
  }

  /** A phase without fields before one with a field: the conversation recaps at once and asks nothing. */
  lemma EmptyPhaseEndsEarly(f: Field)
    ensures var c := Contract([Step("summary", [f], [], None, None)], [Phase("intro", []), Phase("basics", [f.id])]);
            Flat(c) == [f.id] && Asked(c, Cursor(0, 0)) == []
  {
    var c := Contract([Step("summary", [f], [], None, None)], [Phase("intro", []), Phase("basics", [f.id])]);
    assert FlatFrom(c, 2) == [] && FlatFrom(c, 1) == [f.id] + [] && FlatFrom(c, 0) == [] + [f.id];
  }

  /** A phase that lists a field no tab declares: neither this field nor the one behind it is asked. */
  lemma UnspecifiedEndsEarly(f: Field, unknown: string)
    requires unknown != f.id
    ensures var c := Contract([Step("summary", [f], [], None, None)], [Phase("basics", [unknown, f.id])]);
            Flat(c) == [unknown, f.id] && Asked(c, Cursor(0, 0)) == []
  {
    var c := Contract([Step("summary", [f], [], None, None)], [Phase("basics", [unknown, f.id])]);
    OneTab(f);
    assert FlatFrom(c, 1) == [] && FlatFrom(c, 0) == [unknown, f.id] + [];
    AskedHere(c, Cursor(0, 0));
  }

  /** The cursor after n answers. */
  function CursorAfter(c: Contract, n: nat): Cursor {
    if n == 0 then Cursor(0, 0) else Advance(c, CursorAfter(c, n - 1))
  }

  predicate OnTrack(c: Contract, at: Cursor, n: nat) {
    && Rest(c, at) == (if n <= |Flat(c)| then Flat(c)[n..] else [])
    && (at.field > 0 ==> at.phase < |c.phases| && at.field < |c.phases[at.phase].fieldIds|)
  }

  lemma NothingAfterEmpty(c: Contract, p: nat)
    requires EmptyLastFrom(c, 0) && p < |c.phases| && c.phases[p].fieldIds == []
    ensures FlatFrom(c, p + 1) == []
  {
    EmptyTail(c, p + 1);
  }

  lemma TrackAtField(c: Contract, at: Cursor)
    requires at.phase < |c.phases| && at.field < |c.phases[at.phase].fieldIds|
    ensures Rest(c, at) != [] && Rest(c, Advance(c, at)) == Rest(c, at)[1..]
    ensures Advance(c, at).field > 0 ==> Advance(c, at).field < |c.phases[Advance(c, at).phase].fieldIds|
  {
    AdvanceIsSuccessor(c, at);
  }

  lemma TrackAtEnd(c: Contract, at: Cursor)
    requires EmptyLastFrom(c, 0) && at.field == 0
    requires at.phase < |c.phases| ==> c.phases[at.phase].fieldIds == []
    ensures Rest(c, at) == [] && Rest(c, Advance(c, at)) == [] && Advance(c, at).field == 0
  {
    if at.phase < |c.phases| {
      NothingAfterEmpty(c, at.phase);
      RestFromStart(c, at.phase + 1);
    }
  }

  lemma {:induction false} StaysOnTrack(c: Contract, n: nat)
    requires EmptyLastFrom(c, 0)
    ensures OnTrack(c, CursorAfter(c, n), n)
  {
    if n == 0 {
      RestFromStart(c, 0);
    } else {
      var at := CursorAfter(c, n - 1);
      StaysOnTrack(c, n - 1);
      if at.phase < |c.phases| && at.field < |c.phases[at.phase].fieldIds| {
        TrackAtField(c, at);
        assert Rest(c, at) == Flat(c)[n - 1..];
        assert Flat(c)[n - 1..][1..] == Flat(c)[n..];
      } else {
        TrackAtEnd(c, at);
      }
    }
  }

  /** After n answers the next field of the list is asked; after the last one comes the recap, and it stays. */
  lemma NthPrompt(c: Contract, n: nat)
    requires SoundFrom(c, 0)
    ensures var next := NextStepAt(c, CursorAfter(c, n));
            if n < |Flat(c)| then next.Ask? && next.prompt.fieldId == Flat(c)[n] else next == Recap
  {
    var at := CursorAfter(c, n);
    StaysOnTrack(c, n);
    AskedHere(c, at);
    if at.phase < |c.phases| && at.field < |c.phases[at.phase].fieldIds| {
      AdvanceIsSuccessor(c, at);
      assert Rest(c, at)[0] == c.phases[at.phase].fieldIds[at.field];
      assert AllSpecified(c, c.phases[at.phase].fieldIds);
    } else {
      TrackAtEnd(c, at);
    }
  }

  // ----- answering -----

  function HasField(fields: seq<Field>, id: string): bool {
    FirstSpec(fields, id).Some?
  }

  /** _step_id_for: the tab of the first field with the id; an empty tab id means the summary. */
  function StepIdFor(steps: seq<Step>, id: string): string {
    if steps == [] then "summary"
    else if HasField(steps[0].fields, id) then (if steps[0].id == "" then "summary" else steps[0].id)
    else StepIdFor(steps[1..], id)
  }

  /** The tab declares the field. */
  predicate Declares(step: Step, id: string) {
    exists k :: 0 <= k < |step.fields| && step.fields[k].id == id
  }

  /** The section that an answer to the field goes to: that of the first tab that declares it, "summary" if this tab has an
      empty id or no tab declares it. */
  predicate Owns(steps: seq<Step>, tab: string, id: string) {
    || (tab == "summary" && forall i :: 0 <= i < |steps| ==> !Declares(steps[i], id))
    || exists i :: 0 <= i < |steps| && FirstDeclares(steps, i, id)
                   && tab == if steps[i].id == "" then "summary" else steps[i].id
  }

  predicate FirstDeclares(steps: seq<Step>, i: nat, id: string) {
    i < |steps| && Declares(steps[i], id) && forall j :: 0 <= j < i ==> !Declares(steps[j], id)
  }

  lemma HasFieldExactly(step: Step, id: string)
    ensures HasField(step.fields, id) <==> Declares(step, id)
  {
  }

  lemma FirstDeclaresTail(steps: seq<Step>, i: nat, id: string)
    requires steps != [] && !Declares(steps[0], id) && FirstDeclares(steps[1..], i, id)
    ensures FirstDeclares(steps, i + 1, id)
  {
    forall j | 0 <= j < i + 1 ensures !Declares(steps[j], id) {
      assert j > 0 ==> steps[j] == steps[1..][j - 1];
    }
  }

  /** The lookup finds the section that owns the field, */
  lemma {:induction false} StepIdOwns(steps: seq<Step>, id: string)
    ensures Owns(steps, StepIdFor(steps, id), id)
  {
    if steps != [] {
      HasFieldExactly(steps[0], id);
      if Declares(steps[0], id) {
        assert FirstDeclares(steps, 0, id);
      } else {
        StepIdOwns(steps[1..], id);
        var tab := StepIdFor(steps, id);
        if i :| 0 <= i < |steps[1..]| && FirstDeclares(steps[1..], i, id)
                && tab == if steps[1..][i].id == "" then "summary" else steps[1..][i].id {
          FirstDeclaresTail(steps, i, id);
          assert steps[i + 1] == steps[1..][i];
        } else {
          forall j | 0 <= j < |steps| ensures !Declares(steps[j], id) {
            assert j > 0 ==> steps[j] == steps[1..][j - 1];
          }
        }
      }
    }
  }

  /** and there is one only. */
  lemma OneOwner(steps: seq<Step>, a: string, b: string, id: string)
    requires Owns(steps, a, id) && Owns(steps, b, id)
    ensures a == b
  {
    if i :| 0 <= i < |steps| && FirstDeclares(steps, i, id) {
      if j :| 0 <= j < |steps| && FirstDeclares(steps, j, id) && i != j {
        assert i < j || j < i;
      }
    }
  }

  datatype Answered =
    | Took(payload: seq<Member>, clean: Json)
    | UnknownField
    | Invalid(why: Complaint)
    | ServerFault

  /** Write a value into the section of a tab; None where the section is not an object. */
  function PutField(payload: seq<Member>, step: string, id: string, v: Json): Option<seq<Member>> {
    match ObjectAt(payload, step)
    case None => None
    case Some(section) => Some(Put(payload, step, Obj(Put(section, id, v))))
  }

  /** The field written and the cursor advanced. */
  function Written(c: Contract, payload: seq<Member>, id: string, clean: Json): Option<seq<Member>> {
    match PutField(payload, StepIdFor(c.steps, id), id, clean)
    case None => None
    case Some(written) =>
      match GetCursor(written)
      case None => None
      case Some(at) => SetCursor(written, Advance(c, at))
  }

  /** The field's own section holds the value, and every other section and every other field of this one is as it was; the
      reserved entry, where the cursor stands, is not looked at. */
  ghost predicate StoredInOwn(steps: seq<Step>, id: string, v: Json, was: seq<Member>, now: seq<Member>) {
    exists tab :: Owns(steps, tab, id) && (tab != META ==> StoredAlone(tab, id, v, was, now))
  }

  ghost predicate StoredAlone(tab: string, id: string, v: Json, was: seq<Member>, now: seq<Member>) {
    && ObjectAt(was, tab).Some? && ObjectAt(now, tab).Some?
    && Get(ObjectAt(now, tab).value, id) == Some(v)
    && (forall other: string :: other != id ==>
          Get(ObjectAt(now, tab).value, other) == Get(ObjectAt(was, tab).value, other))
    && (forall key: string :: key != tab && key != META ==> Get(now, key) == Get(was, key))
  }

  lemma WrittenAlone(c: Contract, payload: seq<Member>, id: string, clean: Json)
    requires Written(c, payload, id, clean).Some? && StepIdFor(c.steps, id) != META
    ensures StoredAlone(StepIdFor(c.steps, id), id, clean, payload, Written(c, payload, id, clean).value)
  {
    var tab := StepIdFor(c.steps, id);
    var section := ObjectAt(payload, tab).value;
    var written := PutField(payload, tab, id, clean).value;
    var at := Advance(c, GetCursor(written).value);
    var now := SetCursor(written, at).value;
    forall key: string | key != META ensures Get(now, key) == Get(written, key) {
      CursorRoundTrip(written, at, key);
    }
    forall key: string ensures Get(written, key) == if key == tab then Some(Obj(Put(section, id, clean)))
                                                   else Get(payload, key)
    {
      GetPut(payload, tab, Obj(Put(section, id, clean)), key);
    }
    forall other: string ensures Get(Put(section, id, clean), other) == if other == id then Some(clean)
                                                                       else Get(section, other)
    {
      GetPut(section, id, clean, other);
    }
    assert Put(section, id, clean) != [];
    assert ObjectAt(now, tab) == Some(Put(section, id, clean));
  }

  lemma WrittenInOwn(c: Contract, payload: seq<Member>, id: string, clean: Json)
    requires Written(c, payload, id, clean).Some?
    ensures StoredInOwn(c.steps, id, clean, payload, Written(c, payload, id, clean).value)
  {
    var tab := StepIdFor(c.steps, id);
    StepIdOwns(c.steps, id);
    if tab != META {
      WrittenAlone(c, payload, id, clean);
    }
  }

  class Draft {
    var payload: seq<Member>

    constructor ()
      ensures GetCursor(payload) == Some(Cursor(0, 0))
    {
      payload := SetCursor([], Cursor(0, 0)).value;
      new;
      CursorRoundTrip([], Cursor(0, 0), "");
    }

    /** submit_field_answer: the field is looked up and validated, written and the cursor advanced; whether the field is
        the one that was asked does not matter. */
    method SubmitFieldAnswer(h: Host, c: Contract, id: string, value: Json) returns (r: Answered)
      modifies this
      ensures var spec := FirstSpec(AllFields(c.steps), id);
              && (spec.None? <==> r == UnknownField)
              && (spec.Some? ==>
                    match Validate(h, spec.value, value)
                    case Refuses(why) => r == Invalid(why)
                    case Crashes => r == ServerFault
                    case Accepted(clean) =>
                      if Written(c, old(payload), id, clean).Some?
                      then r == Took(payload, clean) && payload == Written(c, old(payload), id, clean).value
                      else r == ServerFault)
      ensures r.Took? ==> StoredInOwn(c.steps, id, r.clean, old(payload), payload)
      ensures !r.Took? ==> payload == old(payload)
    {
      var spec := FirstSpec(AllFields(c.steps), id);
      if spec.None? {
        return UnknownField;
      }
      var verdict := Validate(h, spec.value, value);
      match verdict {
        case Refuses(why) => return Invalid(why);
        case Crashes => return ServerFault;
        case Accepted(clean) =>
          var written := PutField(payload, StepIdFor(c.steps, id), id, clean);
          if written.None? {
            return ServerFault;
          }
          var at := GetCursor(written.value);
          if at.None? {
            return ServerFault;
          }
          var moved := SetCursor(written.value, Advance(c, at.value));
          if moved.None? {
            return ServerFault;
          }
          WrittenInOwn(c, payload, id, clean);
          payload := moved.value;
          return Took(payload, clean);
      }
    }
  }

  /** What the draft holds for a field. */
  function Stored(c: Contract, payload: seq<Member>, id: string): Option<Json> {
    match ObjectAt(payload, StepIdFor(c.steps, id))
    case None => None
    case Some(section) => Get(section, id)
  }

  /** No tab is called like the reserved entry. */
  predicate NoReservedTab(c: Contract) {
    forall i :: 0 <= i < |c.steps| ==> c.steps[i].id != META
  }

  lemma {:induction false} StepIdFree(steps: seq<Step>, id: string)
    requires forall i :: 0 <= i < |steps| ==> steps[i].id != META
    ensures StepIdFor(steps, id) != META
  {
    if steps != [] && !HasField(steps[0].fields, id) {
      StepIdFree(steps[1..], id);
    }
  }

  lemma PutFieldEffect(payload: seq<Member>, step: string, id: string, v: Json, step': string, id': string)
    requires PutField(payload, step, id, v).Some? && ObjectAt(payload, step').Some?
    ensures var after := ObjectAt(PutField(payload, step, id, v).value, step');
            && after.Some?
            && Get(after.value, id')
               == if step == step' && id == id' then Some(v) else Get(ObjectAt(payload, step').value, id')
  {
    var section := ObjectAt(payload, step).value;
    GetPut(payload, step, Obj(Put(section, id, v)), step');
    GetPut(section, id, v, id');
    assert Put(section, id, v) != [];
  }

  /** Field writes and the cursor never disturb each other: the answer is stored, every other field keeps its value, and
      the cursor moves by exactly one advance. */
  lemma WrittenEffect(c: Contract, payload: seq<Member>, id: string, clean: Json, other: string)
    requires NoReservedTab(c) && GetCursor(payload).Some? && ObjectAt(payload, StepIdFor(c.steps, id)).Some?
    requires ObjectAt(payload, StepIdFor(c.steps, other)).Some?
    ensures var after := Written(c, payload, id, clean);
            && after.Some?
            && GetCursor(after.value) == Some(Advance(c, GetCursor(payload).value))
            && ObjectAt(after.value, StepIdFor(c.steps, other)).Some?
            && Stored(c, after.value, other) == if other == id then Some(clean) else Stored(c, payload, other)
  {
    var step, step' := StepIdFor(c.steps, id), StepIdFor(c.steps, other);
    StepIdFree(c.steps, id);
    StepIdFree(c.steps, other);
    PutFieldEffect(payload, step, id, clean, step', other);
    var written := PutField(payload, step, id, clean).value;
    GetPut(payload, step, Obj(Put(ObjectAt(payload, step).value, id, clean)), META);
    assert GetCursor(written) == GetCursor(payload);
    CursorRoundTrip(written, Advance(c, GetCursor(payload).value), step');
  }

  /** An answer to a field that was not asked skips the one that was: the cursor moves past it and it stays unanswered. */
  lemma OtherAnswerSkips(c: Contract, payload: seq<Member>, id: string, clean: Json)
    requires NoReservedTab(c) && GetCursor(payload).Some? && ObjectAt(payload, StepIdFor(c.steps, id)).Some?
    requires NextStepAt(c, GetCursor(payload).value).Ask?
    requires var asked := NextStepAt(c, GetCursor(payload).value).prompt.fieldId;
             id != asked && ObjectAt(payload, StepIdFor(c.steps, asked)).Some?
    ensures var asked := NextStepAt(c, GetCursor(payload).value).prompt.fieldId;
            && Written(c, payload, id, clean).Some?
            && GetCursor(Written(c, payload, id, clean).value) == Some(Advance(c, GetCursor(payload).value))
            && Stored(c, Written(c, payload, id, clean).value, asked) == Stored(c, payload, asked)
  {
    WrittenEffect(c, payload, id, clean, NextStepAt(c, GetCursor(payload).value).prompt.fieldId);
  }

  // ----- a whole conversation -----

  /** The draft a conversation starts with. */
  const INITIAL: seq<Member> := SetCursor([], Cursor(0, 0)).value

  /** Every tab's section can be written to. */
  ghost predicate Writable(c: Contract, payload: seq<Member>) {
    forall id :: ObjectAt(payload, StepIdFor(c.steps, id)).Some?
  }

  function SpecOf(c: Contract, id: string): Option<Field> {
    FirstSpec(AllFields(c.steps), id)
  }

  /** Answer what is asked, value by value; None when something is refused or nothing is asked any more. */
  function AnswerAll(h: Host, c: Contract, values: seq<Json>): Option<seq<Member>> {
    if values == [] then Some(INITIAL)
    else
      match AnswerAll(h, c, values[..|values| - 1])
      case None => None
      case Some(payload) => AnswerNext(h, c, payload, values[|values| - 1])
  }

  function AnswerNext(h: Host, c: Contract, payload: seq<Member>, value: Json): Option<seq<Member>> {
    match GetCursor(payload)
    case None => None
    case Some(at) =>
      match NextStepAt(c, at)
      case Recap => None
      case Ask(prompt) =>
        match SpecOf(c, prompt.fieldId)
        case None => None
        case Some(f) =>
          var v := Validate(h, f, value);
          if v.Accepted? then Written(c, payload, prompt.fieldId, v.value) else None
  }

  predicate Valid(h: Host, c: Contract, id: string, value: Json) {
    SpecOf(c, id).Some? && Validate(h, SpecOf(c, id).value, value).Accepted?
  }

  /** What is stored for an accepted answer. */
  function Clean(h: Host, c: Contract, id: string, value: Json): Json
    requires Valid(h, c, id, value)
  {
    Validate(h, SpecOf(c, id).value, value).value
  }

  predicate NoRepeats(ids: seq<string>) {
    forall i, j :: 0 <= i < j < |ids| ==> ids[i] != ids[j]
  }

  /** The draft after n answers: the cursor stands at the n-th field, and the first n fields hold these values. */
  ghost predicate AnsweredUpTo(c: Contract, payload: seq<Member>, cleans: seq<Json>) {
    && |cleans| <= |Flat(c)| && Writable(c, payload)
    && GetCursor(payload) == Some(CursorAfter(c, |cleans|))
    && forall k :: 0 <= k < |cleans| ==> Stored(c, payload, Flat(c)[k]) == Some(cleans[k])
  }

  lemma InitialDraft(c: Contract)
    requires NoReservedTab(c)
    ensures AnsweredUpTo(c, INITIAL, [])
  {
    CursorRoundTrip([], Cursor(0, 0), "");
    forall id ensures ObjectAt(INITIAL, StepIdFor(c.steps, id)).Some? {
      StepIdFree(c.steps, id);
      CursorRoundTrip([], Cursor(0, 0), StepIdFor(c.steps, id));
    }
  }

  lemma WrittenKeepsWritable(c: Contract, payload: seq<Member>, id: string, clean: Json)
    requires NoReservedTab(c) && GetCursor(payload).Some? && Writable(c, payload)
    ensures Written(c, payload, id, clean).Some? && Writable(c, Written(c, payload, id, clean).value)
  {
    WrittenEffect(c, payload, id, clean, id);
    forall other ensures ObjectAt(Written(c, payload, id, clean).value, StepIdFor(c.steps, other)).Some? {
      WrittenEffect(c, payload, id, clean, other);
    }
  }

  lemma AnswerNextIs(h: Host, c: Contract, payload: seq<Member>, n: nat, value: Json)
    requires SoundFrom(c, 0) && n < |Flat(c)| && GetCursor(payload) == Some(CursorAfter(c, n))
    requires Valid(h, c, Flat(c)[n], value)
    ensures AnswerNext(h, c, payload, value) == Written(c, payload, Flat(c)[n], Clean(h, c, Flat(c)[n], value))
  {
    NthPrompt(c, n);
  }

  lemma WrittenAnswers(c: Contract, payload: seq<Member>, cleans: seq<Json>, clean: Json)
    requires NoReservedTab(c) && NoRepeats(Flat(c)) && |cleans| < |Flat(c)| && AnsweredUpTo(c, payload, cleans)
    ensures var after := Written(c, payload, Flat(c)[|cleans|], clean);
            after.Some? && AnsweredUpTo(c, after.value, cleans + [clean])
  {
    var n, all := |cleans|, cleans + [clean];
    WrittenKeepsWritable(c, payload, Flat(c)[n], clean);
    WrittenEffect(c, payload, Flat(c)[n], clean, Flat(c)[n]);
    var after := Written(c, payload, Flat(c)[n], clean).value;
    forall k: nat | k < |all| ensures Stored(c, after, Flat(c)[k]) == Some(all[k]) {
      WrittenEffect(c, payload, Flat(c)[n], clean, Flat(c)[k]);
    }
  }

  /** Values that the fields accept, one for each of the first fields. */
  predicate AllValid(h: Host, c: Contract, values: seq<Json>) {
    |values| <= |Flat(c)| && forall k :: 0 <= k < |values| ==> Valid(h, c, Flat(c)[k], values[k])
  }

  /** What they are stored as. */
  function Cleans(h: Host, c: Contract, values: seq<Json>): (r: seq<Json>)
    requires AllValid(h, c, values)
    ensures |r| == |values|
  {
    seq(|values|, k requires 0 <= k < |values| => Clean(h, c, Flat(c)[k], values[k]))
  }

  lemma AnswerSnoc(h: Host, c: Contract, values: seq<Json>, value: Json, payload: seq<Member>)
    requires SoundFrom(c, 0) && AllValid(h, c, values + [value])
    requires AnswerAll(h, c, values) == Some(payload) && GetCursor(payload) == Some(CursorAfter(c, |values|))
    ensures AnswerAll(h, c, values + [value])
         == Written(c, payload, Flat(c)[|values|], Cleans(h, c, values + [value])[|values|])
  {
    assert (values + [value])[..|values|] == values;
    assert Valid(h, c, Flat(c)[|values|], (values + [value])[|values|]);
    AnswerNextIs(h, c, payload, |values|, value);
  }

  lemma CleansSnoc(h: Host, c: Contract, values: seq<Json>, value: Json)
    requires AllValid(h, c, values + [value])
    ensures AllValid(h, c, values)
    ensures Cleans(h, c, values + [value]) == Cleans(h, c, values) + [Cleans(h, c, values + [value])[|values|]]
  {
    var all := values + [value];
    forall k: nat | k < |values| ensures Valid(h, c, Flat(c)[k], values[k]) {
      assert Valid(h, c, Flat(c)[k], all[k]);
    }
    var a, b := Cleans(h, c, all), Cleans(h, c, values);
    assert forall k: nat :: k < |values| ==> a[k] == b[k];
  }

  /** In a sound contract without repeated fields, any values the fields accept can be given one after the other: each is
      stored, validated, in its own field, none disturbs another, and the cursor has moved once for each. */
  lemma {:induction false} ConversationStoresAll(h: Host, c: Contract, values: seq<Json>)
    requires NoReservedTab(c) && SoundFrom(c, 0) && NoRepeats(Flat(c)) && AllValid(h, c, values)
    ensures AnswerAll(h, c, values).Some?
    ensures AnsweredUpTo(c, AnswerAll(h, c, values).value, Cleans(h, c, values))
  {
    if values == [] {
      InitialDraft(c);
    } else {
      var init, last := values[..|values| - 1], values[|values| - 1];
      assert values == init + [last];
      CleansSnoc(h, c, init, last);
      ConversationStoresAll(h, c, init);
      var payload := AnswerAll(h, c, init).value;
      AnswerSnoc(h, c, init, last, payload);
      WrittenAnswers(c, payload, Cleans(h, c, init), Cleans(h, c, values)[|init|]);
    }
  }

  /** After as many accepted answers as there are fields, the conversation recaps, and no further answer is asked. */
  lemma RecapAfterAll(h: Host, c: Contract, values: seq<Json>, value: Json)
    requires NoReservedTab(c) && SoundFrom(c, 0) && NoRepeats(Flat(c)) && AllValid(h, c, values)
    requires |values| == |Flat(c)|
    ensures AnswerAll(h, c, values).Some?
    ensures GetCursor(AnswerAll(h, c, values).value).Some?
    ensures NextStepAt(c, GetCursor(AnswerAll(h, c, values).value).value) == Recap
    ensures AnswerAll(h, c, values + [value]).None?
  {
    ConversationStoresAll(h, c, values);
    NthPrompt(c, |values|);
    assert (values + [value])[..|values|] == values;
  }

  // ----- asking again -----

  /** The id of the first phase with the field. */
  function PhaseOf(phases: seq<Phase>, id: string): string {
    if phases == [] then "" else if id in phases[0].fieldIds then phases[0].id else PhaseOf(phases[1..], id)
  }

  /** _build_field_prompt_for. */
  function ReAsk(c: Contract, id: string): Option<FieldPrompt> {
    match FirstSpec(AllFields(c.steps), id)
    case None => None
    case Some(f) => Some(Prompt(PhaseOf(c.phases, id), id, f))
  }

  predicate FirstAt(fields: seq<Field>, id: string, i: nat) {
    i < |fields| && fields[i].id == id && forall k :: 0 <= k < i ==> fields[k].id != id
  }

  predicate LastAt(fields: seq<Field>, id: string, j: nat) {
    j < |fields| && fields[j].id == id && forall k :: j < k < |fields| ==> fields[k].id != id
  }

  predicate FirstPhase(phases: seq<Phase>, id: string, p: nat) {
    p < |phases| && id in phases[p].fieldIds && forall q :: 0 <= q < p ==> id !in phases[q].fieldIds
  }

  lemma {:induction false} FirstIs(fields: seq<Field>, id: string, i: nat)
    requires FirstAt(fields, id, i)
    ensures FirstSpec(fields, id) == Some(fields[i])
  {
    if i > 0 {
      assert fields[0].id != id;
      FirstIs(fields[1..], id, i - 1);
    }
  }

  lemma {:induction false} LastIs(fields: seq<Field>, id: string, j: nat)
    requires LastAt(fields, id, j)
    ensures LastSpec(fields, id) == Some(fields[j])
  {
    if j < |fields| - 1 {
      assert fields[|fields| - 1].id != id;
      LastIs(fields[..|fields| - 1], id, j);
    }
  }

  lemma {:induction false} PhaseIs(phases: seq<Phase>, id: string, p: nat)
    requires FirstPhase(phases, id, p)
    ensures PhaseOf(phases, id) == phases[p].id
  {
    if p > 0 {
      PhaseIs(phases[1..], id, p - 1);
    }
  }

  /** Asking a field again shows the prompt of the conversation exactly when its first and its last declaration look the
      same, and the phase it was asked in is named like the first one with the field. */
  lemma ReAskExactly(c: Contract, at: Cursor, i: nat, j: nat, p: nat)
    requires NextStepAt(c, at).Ask?
    requires var id := NextStepAt(c, at).prompt.fieldId;
             FirstAt(AllFields(c.steps), id, i) && LastAt(AllFields(c.steps), id, j) && FirstPhase(c.phases, id, p)
    ensures var fields, prompt := AllFields(c.steps), NextStepAt(c, at).prompt;
            ReAsk(c, prompt.fieldId) == Some(prompt) <==>
            && Prompt("", prompt.fieldId, fields[i]) == Prompt("", prompt.fieldId, fields[j])
            && c.phases[p].id == c.phases[at.phase].id
  {
    var id := NextStepAt(c, at).prompt.fieldId;
    FirstIs(AllFields(c.steps), id, i);
    LastIs(AllFields(c.steps), id, j);
    PhaseIs(c.phases, id, p);
  }

  /** How each kind of field is asked for. */
  predicate Controls(kind: string, control: string) {
    && (kind == "number" ==> control == "number")
    && (kind == "currency" ==> control == "currency")
    && (kind == "percentage" ==> control == "percentage")
    && (kind == "enum" ==> control == "single_select")
    && (kind == "multi_enum" ==> control == "multi_select")
    && (kind == "boolean" ==> control == "boolean")
    && (kind == "date" ==> control == "date")
    && (kind !in {"number", "currency", "percentage", "enum", "multi_enum", "boolean", "date"} ==> control == "text")
  }

  /** What a prompt shows of a field: its caption, or its id without one; its kind, text without one; the control of that
      kind; and the rest as declared. */
  predicate Shows(p: FieldPrompt, f: Field) {
    && p.caption == (if f.caption.Some? then f.caption.value else p.fieldId)
    && p.kind == (if f.kind.Some? then f.kind.value else "string")
    && Controls(p.kind, p.control)
    && p.required == f.required && p.confirm == f.confirm
    && p.choices == f.choices && p.choicesSource == f.choicesSource && p.ui == f.ui
  }

  /** The prompt at a cursor is for the field that stands there, in that phase, as it is declared last. */
  lemma PromptShows(c: Contract, at: Cursor, j: nat)
    requires NextStepAt(c, at).Ask? && LastAt(AllFields(c.steps), NextStepAt(c, at).prompt.fieldId, j)
    ensures at.phase < |c.phases| && at.field < |c.phases[at.phase].fieldIds|
    ensures var p := NextStepAt(c, at).prompt;
            && p.phaseId == c.phases[at.phase].id && p.fieldId == c.phases[at.phase].fieldIds[at.field]
            && Shows(p, AllFields(c.steps)[j])
  {
    LastIs(AllFields(c.steps), NextStepAt(c, at).prompt.fieldId, j);
    KindControls(AllFields(c.steps)[j]);
  }

  lemma KindControls(f: Field)
    ensures Controls(Kind(f), ControlOf(Kind(f)))
  {
  }

  predicate DeclaredOnce(fields: seq<Field>, id: string) {
    forall i, j :: 0 <= i < j < |fields| ==> fields[i].id != id || fields[j].id != id
  }

  lemma {:induction false} FirstExists(fields: seq<Field>, id: string) returns (i: nat)
    requires exists k :: 0 <= k < |fields| && fields[k].id == id
    ensures FirstAt(fields, id, i)
  {
    if fields[0].id == id {
      i := 0;
    } else {
      var k :| 0 <= k < |fields| && fields[k].id == id;
      assert fields[1..][k - 1].id == id;
      var i' := FirstExists(fields[1..], id);
      i := i' + 1;
      forall k' | 0 <= k' < i ensures fields[k'].id != id {
        assert k' > 0 ==> fields[k'] == fields[1..][k' - 1];
      }
    }
  }

  /** A field declared once and asked in one phase only is always asked again with its prompt; other fields may be declared
      as often as they like. */
  lemma ReAskSame(c: Contract, at: Cursor)
    requires NextStepAt(c, at).Ask? && DeclaredOnce(AllFields(c.steps), NextStepAt(c, at).prompt.fieldId)
    requires forall q :: 0 <= q < at.phase ==> NextStepAt(c, at).prompt.fieldId !in c.phases[q].fieldIds
    ensures ReAsk(c, NextStepAt(c, at).prompt.fieldId) == Some(NextStepAt(c, at).prompt)
  {
    var id := NextStepAt(c, at).prompt.fieldId;
    AskedHere(c, at);
    var i := FirstExists(AllFields(c.steps), id);
    ReAskExactly(c, at, i, i, at.phase);
  }

  /** A field declared on two tabs with different captions is asked with one and asked again with the other. */
  lemma ReAskDiffers(first: Field, last: Field)
    requires first.id == last.id && first.caption.Some? && last.caption.Some? && first.caption != last.caption
    ensures var c := Contract([Step("summary", [first], [], None, None), Step("setup_fee", [last], [], None, None)],
                              [Phase("basics", [first.id])]);
            var next := NextStepAt(c, Cursor(0, 0));
            next.Ask? && ReAsk(c, first.id).Some? && ReAsk(c, first.id) != Some(next.prompt)
  {
    var steps := [Step("summary", [first], [], None, None), Step("setup_fee", [last], [], None, None)];
    assert steps[1..][1..] == [] && AllFields(steps[1..]) == [last] + AllFields(steps[1..][1..]);
    assert AllFields(steps) == [first] + [last] == [first, last];
  }
}
