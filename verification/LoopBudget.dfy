/** The ceilings of one run of the model loop. */
module LoopBudget {
  import opened Json

  datatype Settings = Settings(
    maxSteps: nat, maxWallClock: real, maxToolCalls: nat, maxInput: int, maxOutput: int, costHard: real,
    maxParallel: nat)

  datatype Cause =
    | StepBudget | WallClock | ToolCallBudget | InputTokens | OutputTokens | Cost
    | LoopDetected | ProviderFailed

  /** What a run has used up. */
  datatype Tally = Tally(steps: nat, calls: nat, input: int, output: int, cost: real)

  /** The first token or cost ceiling that is crossed. */
  function Ceiling(s: Settings, used: Tally): Option<Cause> {
    if used.input > s.maxInput then Some(InputTokens)
    else if used.output > s.maxOutput then Some(OutputTokens)
    else if used.cost > s.costHard then Some(Cost)
    else None
  }

  /** The counters of a run. A method that finds a ceiling crossed returns the cause the code raises. */
  class Budget {
    const settings: Settings
    var steps: nat
    var toolCalls: nat
    var inputTokens: int
    var outputTokens: int
    var cost: real

    /** The two counters with a ceiling checked before counting never pass it. */
    predicate Within()
      reads this
    {
      steps <= settings.maxSteps && toolCalls <= settings.maxToolCalls
    }

    function Used(): Tally
      reads this
    {
      Tally(steps, toolCalls, inputTokens, outputTokens, cost)
    }

    constructor (settings: Settings)
      ensures this.settings == settings && Within()
      ensures steps == 0 && toolCalls == 0 && inputTokens == 0 && outputTokens == 0 && cost == 0.0
    {
      this.settings := settings;
      steps, toolCalls, inputTokens, outputTokens, cost := 0, 0, 0, 0, 0.0;
    }

    /** The step ceiling is looked at first, then the clock; only a permitted step is counted. */
    method BeginStep(elapsed: real) returns (raised: Option<Cause>)
      requires Within()
      modifies this`steps
      ensures Within()
      ensures raised == Some(StepBudget) <==> old(steps) == settings.maxSteps
      ensures raised == Some(WallClock) <==> old(steps) < settings.maxSteps && elapsed >= settings.maxWallClock
      ensures raised in {None, Some(StepBudget), Some(WallClock)}
      ensures steps == if raised == None then old(steps) + 1 else old(steps)
    {
      if steps >= settings.maxSteps {
        return Some(StepBudget);
      }
      if elapsed >= settings.maxWallClock {
        return Some(WallClock);
      }
      steps := steps + 1;
      return None;
    }

    method RecordToolCall() returns (raised: Option<Cause>)
      requires Within()
      modifies this`toolCalls
      ensures Within()
      ensures raised == if old(toolCalls) == settings.maxToolCalls then Some(ToolCallBudget) else None
      ensures toolCalls == if raised == None then old(toolCalls) + 1 else old(toolCalls)
    {
      if toolCalls >= settings.maxToolCalls {
        return Some(ToolCallBudget);
      }
      toolCalls := toolCalls + 1;
      return None;
    }

    /** Tokens and cost are counted first and compared afterwards, so what breaks a ceiling is still recorded.
        Rates are per thousand tokens. */
    method RecordUsage(input: int, output: int, inRate: real, outRate: real) returns (raised: Option<Cause>)
      modifies this`inputTokens, this`outputTokens, this`cost
      ensures inputTokens == old(inputTokens) + input && outputTokens == old(outputTokens) + output
      ensures cost == old(cost) + (input as real * inRate + output as real * outRate) / 1000.0
      ensures raised == Ceiling(settings, Used())
      ensures raised == if old(inputTokens) + input > settings.maxInput then Some(InputTokens)
                        else if old(outputTokens) + output > settings.maxOutput then Some(OutputTokens)
                        else if cost > settings.costHard then Some(Cost) else None
    {
      inputTokens := inputTokens + input;
      outputTokens := outputTokens + output;
      cost := cost + (input as real * inRate + output as real * outRate) / 1000.0;
      if inputTokens > settings.maxInput {
        return Some(InputTokens);
      }
      if outputTokens > settings.maxOutput {
        return Some(OutputTokens);
      }
      if cost > settings.costHard {
        return Some(Cost);
      }
      return None;
    }
  }
}
