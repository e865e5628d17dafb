/** The workflow contract: the wizard's tabs with their fields, and the phases of the guided conversation. */
module Contract {
  import opened Json

  datatype Choice = Choice(value: string, caption: string)

  datatype Field = Field(
    id: string, caption: Option<string>, kind: Option<string>, required: bool, confirm: bool,
    choices: Option<seq<Choice>>, choicesSource: Option<Json>, ui: Option<Json>,
    min: Option<real>, max: Option<real>, pattern: Option<string>, historical: bool)

  /** What a tab does when the user leaves it: a tool, if one is named, and the template of its arguments. */
  datatype OnComplete = OnComplete(tool: Option<string>, template: seq<Member>)

  datatype Step = Step(
    id: string, fields: seq<Field>, essentials: seq<string>, approvalMode: Option<string>, onComplete: Option<OnComplete>)

  datatype Phase = Phase(id: string, fieldIds: seq<string>)

  datatype Contract = Contract(steps: seq<Step>, phases: seq<Phase>)

  /** get_step: the first tab with the id. */
  function GetStep(steps: seq<Step>, id: string): (r: Option<Step>)
    ensures r.Some? ==> r.value in steps && r.value.id == id
    ensures r.None? ==> forall i :: 0 <= i < |steps| ==> steps[i].id != id
  {
    if steps == [] then None else if steps[0].id == id then Some(steps[0]) else GetStep(steps[1..], id)
  }
}
