/** From answers to tool calls: what the conversation stores is what the templates of the tabs find. */
module DraftFlow {
  import opened Json
  import opened Contract
  import opened Conversation
  import opened Template
  import Answers
  import StepAdvance

  /** A token for a field of the conversation, in the tab that declares it. */
  predicate TokenOf(c: Contract, s: string, id: string) {
    Parse(s).FieldToken? && Owns(c.steps, Parse(s).step, id) && Parse(s).field == id
  }

  /** The tab that declares a field is the one its answers go to. */
  lemma TokenTab(c: Contract, s: string, id: string)
    requires TokenOf(c, s, id)
    ensures Parse(s) == FieldToken(StepIdFor(c.steps, id), id)
  {
    StepIdOwns(c.steps, id);
    OneOwner(c.steps, Parse(s).step, StepIdFor(c.steps, id), id);
  }

  /** A field token finds exactly what the draft holds for the field. */
  lemma TokenFindsStored(c: Contract, payload: seq<Member>, runtime: seq<Member>, s: string, id: string)
    requires TokenOf(c, s, id) && Stored(c, payload, id).Some?
    ensures !Unresolved(s, Scope(payload, runtime))
    ensures Filled(s, Scope(payload, runtime)) == Stored(c, payload, id).value
  {
    TokenTab(c, s, id);
    var section := ObjectAt(payload, StepIdFor(c.steps, id)).value;
    assert Get(section, id).Some? && section != [];
  }

  /** An accepted answer is what the field's token becomes in every template from then on, and the token of any other
      field keeps its value. */
  lemma AnswerFillsToken(c: Contract, payload: seq<Member>, id: string, clean: Json, runtime: seq<Member>, s: string,
                         other: string)
    requires NoReservedTab(c) && GetCursor(payload).Some? && Writable(c, payload) && TokenOf(c, s, other)
    requires other == id || Stored(c, payload, other).Some?
    ensures Written(c, payload, id, clean).Some?
    ensures Filled(s, Scope(Written(c, payload, id, clean).value, runtime))
         == if other == id then clean else Filled(s, Scope(payload, runtime))
  {
    WrittenEffect(c, payload, id, clean, other);
    TokenFindsStored(c, Written(c, payload, id, clean).value, runtime, s, other);
    if other != id {
      TokenFindsStored(c, payload, runtime, s, other);
    }
  }

  /** Every text of the template is a literal or the token of a field that the conversation asks. */
  ghost predicate AsksFor(c: Contract, template: Json) {
    forall path :: At(template, path).Some? && At(template, path).value.Str? ==>
                     AskedText(c, At(template, path).value.s)
  }

  predicate AskedText(c: Contract, s: string) {
    Parse(s) == Literal || exists k :: 0 <= k < |Flat(c)| && TokenOf(c, s, Flat(c)[k])
  }

  lemma StoredResolves(c: Contract, payload: seq<Member>, cleans: seq<Json>, runtime: seq<Member>, s: string)
    requires AnsweredUpTo(c, payload, cleans) && |cleans| == |Flat(c)| && AskedText(c, s)
    ensures !Unresolved(s, Scope(payload, runtime))
  {
    if Parse(s) != Literal {
      var k :| 0 <= k < |Flat(c)| && TokenOf(c, s, Flat(c)[k]);
      assert Stored(c, payload, Flat(c)[k]) == Some(cleans[k]);
      TokenFindsStored(c, payload, runtime, s, Flat(c)[k]);
    }
  }

  /** A conversation answered to its end blocks no tab: a template that asks only for its fields has no token left
      without a value. */
  lemma FinishedConversationResolves(h: Answers.Host, c: Contract, values: seq<Json>, template: Json, quote: Option<int>)
    requires NoReservedTab(c) && SoundFrom(c, 0) && NoRepeats(Flat(c)) && AllValid(h, c, values)
    requires |values| == |Flat(c)| && AsksFor(c, template)
    ensures AnswerAll(h, c, values).Some?
    ensures Missing(template, StepAdvance.ScopeOf(AnswerAll(h, c, values).value, quote)) == []
  {
    ConversationStoresAll(h, c, values);
    var payload := AnswerAll(h, c, values).value;
    var sc := StepAdvance.ScopeOf(payload, quote);
    if Missing(template, sc) != [] {
      var s := Missing(template, sc)[0];
      MissingExactly(template, sc, s);
      var path :| At(template, path) == Some(Str(s));
      assert AskedText(c, At(template, path).value.s);
      StoredResolves(c, payload, Cleans(h, c, values), sc.runtime, s);
    }
  }
}
