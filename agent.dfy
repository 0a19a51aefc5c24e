/**
 * The code review agent (run_mcp_agent.py, class CodeReviewAgentMCP): a
 * bounded think/act loop over a tool registry. The language model behind
 * think() is the `Thinker` oracle; json.loads is folded into it, so what the
 * agent receives is an already classified `Decision`.
 */
module Agent {
  import opened Wrappers
  import opened Text
  import opened Json
  import opened OrderedDict
  import opened Registry

  /** What act() finds in the model's reply once json.loads has run on it. */
  datatype Decision =
    | Done(summary: string)                      // an object whose "done" is truthy
    | Invoke(tool: string, args: Option<Json>)   // an object with a "tool" key; "args" if present
    | NoToolKey                                  // an object with neither a truthy "done" nor a "tool" key
    | Malformed(error: string)                   // json.loads raised, with this message

  /** think(): the decision for (model, request, history, tool catalog). */
  type Thinker = (string, string, seq<string>, seq<ToolDescription>) -> Decision

  /** What act() returns, (result, is_done), with the history it leaves. */
  datatype ActOutcome = ActOutcome(result: string, isDone: bool, history: seq<string>)

  /** str() of the KeyError that parsed["tool"] raises. */
  const MissingToolKey := "'tool'"

  function ErrorObservation(error: string): string {
    "Error executing tool " + error
  }

  function HistoryRecord(tool: string, args: Json, result: string): string {
    "I used tool " + tool + " with args " + Str(args) + ". Result: " + result
  }

  function ContinueRequest(result: string, userInput: string): string {
    "Previous result: " + result + "\nContinue with the original task " + userInput
  }

  function Incomplete(maxSteps: int, last: string): string {
    "Workflow incomplete after " + Decimal(maxSteps) + " steps. Last result: " + last
  }

  /** parsed.get("args", {}). */
  function ArgsOf(d: Decision): Json
    requires d.Invoke?
  {
    d.args.GetOr(EmptyObject)
  }

  /**
   * What run() ends with: the text it returns, or the UnboundLocalError it
   * raises when its loop never ran and `result` was never assigned.
   */
  datatype RunOutcome = Answer(text: string) | UnboundResult

  /** One think/act pair: what think() was given, what it decided, what act() returned and the history it left. */
  datatype StepRecord = StepRecord(request: string, history: seq<string>, decision: Decision, result: string, isDone: bool, after: seq<string>)

  /** The steps of one run(), the history it leaves and its outcome. */
  datatype RunTrace = RunTrace(steps: seq<StepRecord>, history: seq<string>, outcome: RunOutcome)

  /**
   * act() on decision `d` with history `h`, calling tools through the
   * manager's tool index `tools`. A done decision returns its summary and
   * stops; a tool call that succeeds returns the tool's text and appends
   * exactly one record; every failure is returned as an error observation,
   * does not stop the loop and leaves the history alone.
   */
  function ActOn(tools: Dict<ToolEntry>, d: Decision, h: seq<string>, server: ToolServer): (o: ActOutcome)
    ensures o.isDone <==> d.Done?
    ensures h <= o.history && |o.history| <= |h| + 1
    ensures d.Done? ==> o.result == d.summary && o.history == h
    ensures d.NoToolKey? ==> o.result == ErrorObservation(MissingToolKey) && o.history == h
    ensures d.Malformed? ==> o.result == ErrorObservation(d.error) && o.history == h
    ensures d.Invoke? ==>
      var call := CallTool(tools, d.tool, ArgsOf(d), server).result;
      if call.Success? then
        o.result == call.value && o.history == h + [HistoryRecord(d.tool, ArgsOf(d), call.value)]
      else
        o.result == ErrorObservation(call.error) && o.history == h
  {
    match d
    case Done(summary) => ActOutcome(summary, true, h)
    case NoToolKey => ActOutcome(ErrorObservation(MissingToolKey), false, h)
    case Malformed(error) => ActOutcome(ErrorObservation(error), false, h)
    case Invoke(tool, _) =>
      var args := ArgsOf(d);
      match CallTool(tools, tool, args, server).result
      case Failure(error) => ActOutcome(ErrorObservation(error), false, h)
      case Success(result) => ActOutcome(result, false, h + [HistoryRecord(tool, args, result)])
  }

  /** What one think/act pair depends on besides its request and history. */
  datatype Context = Context(model: string, tools: Dict<ToolEntry>, catalog: seq<ToolDescription>, think: Thinker, server: ToolServer)

  /** One think/act pair from `request` and history `h`. */
  function StepOf(c: Context, request: string, h: seq<string>): (s: StepRecord)
    ensures s.request == request && s.history == h
    ensures s.decision == c.think(c.model, request, h, c.catalog)
    ensures s.isDone <==> s.decision.Done?
    ensures s.isDone ==> s.result == s.decision.summary
    ensures h <= s.after && |s.after| <= |h| + 1
  {
    var d := c.think(c.model, request, h, c.catalog);
    var o := ActOn(c.tools, d, h, c.server);
    StepRecord(request, h, d, o.result, o.isDone, o.history)
  }

  /** Step `s` is what think() and act() do with its request and history. */
  ghost predicate Faithful(c: Context, s: StepRecord) {
    s == StepOf(c, s.request, s.history)
  }

  /** A step function: the step taken from a request and a history. */
  type Stepper = (string, seq<string>) -> StepRecord

  /** The fixed parts of one run(): the user's input, the step budget and how each step is taken. */
  datatype Loop = Loop(userInput: string, maxSteps: int, next: Stepper)

  /** Every step only appends to the history it is given, at most one record. */
  ghost predicate Appends(next: Stepper) {
    forall r, h :: h <= next(r, h).after && |next(r, h).after| <= |h| + 1
  }

  /**
   * The loop of run() from step number `step` on, with the request,
   * history and last result that step starts with.
   */
  function RunFrom(l: Loop, step: int, request: string, h: seq<string>, last: Option<string>): (t: RunTrace)
    decreases l.maxSteps - step
  {
    if step > l.maxSteps then
      RunTrace([], h, if last.Some? then Answer(Incomplete(l.maxSteps, last.value)) else UnboundResult)
    else
      var s := l.next(request, h);
      if s.isDone then
        RunTrace([s], s.after, Answer(s.result))
      else
        var t := RunFrom(l, step + 1, ContinueRequest(s.result, l.userInput), s.after, Some(s.result));
        RunTrace([s] + t.steps, t.history, t.outcome)
  }

  /** The loop takes at most one step per remaining step number, and at least one if any remains. */
  lemma {:induction false} RunFromLength(l: Loop, step: int, request: string, h: seq<string>, last: Option<string>)
    ensures var t := RunFrom(l, step, request, h, last);
      && |t.steps| <= (if step <= l.maxSteps then l.maxSteps - step + 1 else 0)
      && (step <= l.maxSteps ==> |t.steps| >= 1)
    decreases l.maxSteps - step
  {
    if step <= l.maxSteps {
      var s := l.next(request, h);
      if !s.isDone {
        RunFromLength(l, step + 1, ContinueRequest(s.result, l.userInput), s.after, Some(s.result));
      }
    }
  }

  /**
   * The first step is taken from the given request and history; each later
   * one from the rewritten request and the history its predecessor left,
   * which did not stop.
   */
  lemma {:induction false} RunFromSteps(l: Loop, step: int, request: string, h: seq<string>, last: Option<string>)
    ensures var t := RunFrom(l, step, request, h, last);
      && (t.steps != [] ==> t.steps[0] == l.next(request, h))
      && (forall i :: 0 <= i < |t.steps| - 1 ==>
            && !t.steps[i].isDone
            && t.steps[i + 1] == l.next(ContinueRequest(t.steps[i].result, l.userInput), t.steps[i].after))
    decreases l.maxSteps - step
  {
    var t := RunFrom(l, step, request, h, last);
    if step <= l.maxSteps {
      var s := l.next(request, h);
      if s.isDone {
        assert t.steps == [s];
      } else {
        var tail := RunFrom(l, step + 1, ContinueRequest(s.result, l.userInput), s.after, Some(s.result));
        RunFromSteps(l, step + 1, ContinueRequest(s.result, l.userInput), s.after, Some(s.result));
        assert t.steps == [s] + tail.steps;
        forall i | 0 < i < |t.steps|
          ensures t.steps[i] == tail.steps[i - 1]
        {
        }
      }
    }
  }

  /** A loop whose last step is done ends with that step's summary. */
  lemma {:induction false} RunFromDone(l: Loop, step: int, request: string, h: seq<string>, last: Option<string>)
    ensures var t := RunFrom(l, step, request, h, last);
      t.steps != [] && t.steps[|t.steps| - 1].isDone ==> t.outcome == Answer(t.steps[|t.steps| - 1].result)
    decreases l.maxSteps - step
  {
    var t := RunFrom(l, step, request, h, last);
    if step <= l.maxSteps {
      var s := l.next(request, h);
      if !s.isDone {
        var tail := RunFrom(l, step + 1, ContinueRequest(s.result, l.userInput), s.after, Some(s.result));
        RunFromDone(l, step + 1, ContinueRequest(s.result, l.userInput), s.after, Some(s.result));
        assert t.steps == [s] + tail.steps;
        if tail.steps != [] {
          assert t.steps[|t.steps| - 1] == tail.steps[|tail.steps| - 1];
        }
      }
    }
  }

  /** A loop whose last step is not done ends with the incomplete message naming that step's result. */
  lemma {:induction false} RunFromIncomplete(l: Loop, step: int, request: string, h: seq<string>, last: Option<string>)
    ensures var t := RunFrom(l, step, request, h, last);
      t.steps != [] && !t.steps[|t.steps| - 1].isDone ==>
        t.outcome == Answer(Incomplete(l.maxSteps, t.steps[|t.steps| - 1].result))
    decreases l.maxSteps - step
  {
    var t := RunFrom(l, step, request, h, last);
    if step <= l.maxSteps {
      var s := l.next(request, h);
      if !s.isDone {
        var tail := RunFrom(l, step + 1, ContinueRequest(s.result, l.userInput), s.after, Some(s.result));
        RunFromIncomplete(l, step + 1, ContinueRequest(s.result, l.userInput), s.after, Some(s.result));
        assert t.steps == [s] + tail.steps;
        if tail.steps == [] {
          assert step + 1 > l.maxSteps;
          assert t.steps == [s];
        } else {
          assert t.steps[|t.steps| - 1] == tail.steps[|tail.steps| - 1];
        }
      }
    }
  }

  /** When the loop took a step, its history is the one the last step left. */
  lemma {:induction false} RunFromLastHistory(l: Loop, step: int, request: string, h: seq<string>, last: Option<string>)
    ensures var t := RunFrom(l, step, request, h, last);
      t.steps != [] ==> t.history == t.steps[|t.steps| - 1].after
    decreases l.maxSteps - step
  {
    var t := RunFrom(l, step, request, h, last);
    if step <= l.maxSteps {
      var s := l.next(request, h);
      if !s.isDone {
        var tail := RunFrom(l, step + 1, ContinueRequest(s.result, l.userInput), s.after, Some(s.result));
        RunFromLastHistory(l, step + 1, ContinueRequest(s.result, l.userInput), s.after, Some(s.result));
        assert t.steps == [s] + tail.steps;
        if tail.steps == [] {
          assert step + 1 > l.maxSteps;
          assert t.steps == [s];
        } else {
          assert t.steps[|t.steps| - 1] == tail.steps[|tail.steps| - 1];
        }
      }
    }
  }

  /** A loop whose last step did not finish used every step number from `step` to the budget. */
  lemma {:induction false} RunFromExhausts(l: Loop, step: int, request: string, h: seq<string>, last: Option<string>)
    ensures var t := RunFrom(l, step, request, h, last);
      t.steps != [] && !t.steps[|t.steps| - 1].isDone ==> |t.steps| == l.maxSteps - step + 1
    decreases l.maxSteps - step
  {
    var t := RunFrom(l, step, request, h, last);
    if step <= l.maxSteps {
      var s := l.next(request, h);
      if !s.isDone {
        var tail := RunFrom(l, step + 1, ContinueRequest(s.result, l.userInput), s.after, Some(s.result));
        RunFromExhausts(l, step + 1, ContinueRequest(s.result, l.userInput), s.after, Some(s.result));
        RunFromLength(l, step + 1, ContinueRequest(s.result, l.userInput), s.after, Some(s.result));
        assert t.steps == [s] + tail.steps;
        if tail.steps != [] {
          assert t.steps[|t.steps| - 1] == tail.steps[|tail.steps| - 1];
        }
      }
    }
  }

  /** With steps that only append, the loop only appends to its history, at most one record per step. */
  lemma {:induction false} RunFromHistory(l: Loop, step: int, request: string, h: seq<string>, last: Option<string>)
    requires Appends(l.next)
    ensures var t := RunFrom(l, step, request, h, last);
      h <= t.history && |t.history| <= |h| + |t.steps|
    decreases l.maxSteps - step
  {
    if step <= l.maxSteps {
      var s := l.next(request, h);
      if !s.isDone {
        RunFromHistory(l, step + 1, ContinueRequest(s.result, l.userInput), s.after, Some(s.result));
      }
    }
  }

  /** run(user_input, max_steps) as a loop: each step is StepOf in context `c`. */
  function LoopOf(c: Context, userInput: string, maxSteps: int): Loop {
    Loop(userInput, maxSteps, (r, h) => StepOf(c, r, h))
  }

  /** run(user_input, max_steps) in context `c`: the loop from step 1 with the user's request and an empty history. */
  function RunOf(c: Context, userInput: string, maxSteps: int): RunTrace {
    RunFrom(LoopOf(c, userInput, maxSteps), 1, userInput, [], None)
  }

  /**
   * run() calls think() at most max_steps times, and at least once when
   * max_steps >= 1; with max_steps < 1 it calls it never and raises on the
   * unbound result.
   */
  lemma RunStepBound(c: Context, userInput: string, maxSteps: int)
    ensures var t := RunOf(c, userInput, maxSteps);
      && |t.steps| <= (if maxSteps < 0 then 0 else maxSteps)
      && (maxSteps >= 1 ==> |t.steps| >= 1 && t.outcome.Answer?)
      && (maxSteps < 1 ==> t.steps == [] && t.outcome == UnboundResult)
  {
    var l := LoopOf(c, userInput, maxSteps);
    RunFromLength(l, 1, userInput, [], None);
    RunFromDone(l, 1, userInput, [], None);
    RunFromIncomplete(l, 1, userInput, [], None);
  }

  /**
   * The first think() sees the user's request and an empty history; each
   * later one sees "Previous result: ..." for the observation before it,
   * with the history the step before it left; every step is a faithful
   * think/act pair.
   */
  lemma RunRequests(c: Context, userInput: string, maxSteps: int)
    ensures var t := RunOf(c, userInput, maxSteps);
      && (t.steps != [] ==> t.steps[0].request == userInput && t.steps[0].history == [])
      && (forall i :: 0 <= i < |t.steps| ==> Faithful(c, t.steps[i]))
      && (forall i :: 0 < i < |t.steps| ==>
            && t.steps[i].request == ContinueRequest(t.steps[i - 1].result, userInput)
            && t.steps[i].history == t.steps[i - 1].after)
  {
    var l := LoopOf(c, userInput, maxSteps);
    RunFromSteps(l, 1, userInput, [], None);
    var t := RunOf(c, userInput, maxSteps);
    forall i | 0 <= i < |t.steps|
      ensures Faithful(c, t.steps[i])
      ensures i > 0 ==>
        && t.steps[i].request == ContinueRequest(t.steps[i - 1].result, userInput)
        && t.steps[i].history == t.steps[i - 1].after
    {
      if i > 0 {
        assert t.steps[i] == StepOf(c, ContinueRequest(t.steps[i - 1].result, userInput), t.steps[i - 1].after);
      } else {
        assert t.steps[i] == StepOf(c, userInput, []);
      }
    }
  }

  /**
   * run() returns the summary of the first done decision; no earlier step
   * was done; if no step is done it ran all max_steps steps and returns
   * the incomplete message with the last result.
   */
  lemma RunReturnsFirstSummary(c: Context, userInput: string, maxSteps: int)
    requires maxSteps >= 1
    ensures var t := RunOf(c, userInput, maxSteps);
      && t.steps != []
      && (forall i :: 0 <= i < |t.steps| - 1 ==> !t.steps[i].decision.Done?)
      && var s := t.steps[|t.steps| - 1];
         && (s.decision.Done? ==> t.outcome == Answer(s.decision.summary))
         && (!s.decision.Done? ==> |t.steps| == maxSteps && t.outcome == Answer(Incomplete(maxSteps, s.result)))
  {
    var l := LoopOf(c, userInput, maxSteps);
    RunRequests(c, userInput, maxSteps);
    RunFromLength(l, 1, userInput, [], None);
    RunFromSteps(l, 1, userInput, [], None);
    RunFromDone(l, 1, userInput, [], None);
    RunFromIncomplete(l, 1, userInput, [], None);
    RunFromExhausts(l, 1, userInput, [], None);
    var t := RunOf(c, userInput, maxSteps);
    assert Faithful(c, t.steps[|t.steps| - 1]);
    forall i | 0 <= i < |t.steps| - 1
      ensures !t.steps[i].decision.Done?
    {
      assert Faithful(c, t.steps[i]);
    }
  }

  /** run() starts from an empty history and leaves at most one record per step taken. */
  lemma RunHistoryBound(c: Context, userInput: string, maxSteps: int)
    ensures var t := RunOf(c, userInput, maxSteps);
      |t.history| <= |t.steps|
  {
    var l := LoopOf(c, userInput, maxSteps);
    assert Appends(l.next) by {
      forall r, h
        ensures h <= l.next(r, h).after && |l.next(r, h).after| <= |h| + 1
      {
        assert l.next(r, h) == StepOf(c, r, h);
      }
    }
    RunFromHistory(l, 1, userInput, [], None);
  }

  class CodeReviewAgent {
    const mcp: ToolRegistry
    const model: string
    var history: seq<string>

    constructor (mcp: ToolRegistry, model: string)
      ensures this.mcp == mcp && this.model == model && history == []
    {
      this.mcp := mcp;
      this.model := model;
      history := [];
    }

    /** act(): the step of ActOn, with the conversation history updated in place. */
    method Act(d: Decision, server: ToolServer) returns (result: string, isDone: bool)
      modifies this
      ensures ActOutcome(result, isDone, history) == ActOn(mcp.availableTools, d, old(history), server)
    {
      match d {
        case Done(summary) =>
          return summary, true;
        case NoToolKey =>
          return ErrorObservation(MissingToolKey), false;
        case Malformed(error) =>
          return ErrorObservation(error), false;
        case Invoke(tool, _) =>
          var args := ArgsOf(d);
          var call := CallTool(mcp.availableTools, tool, args, server);
          match call.result {
            case Failure(error) =>
              return ErrorObservation(error), false;
            case Success(r) =>
              history := history + [HistoryRecord(tool, args, r)];
              return r, false;
          }
      }
    }

    /** How this agent takes a step with the given think() and tool server. */
    function ContextOf(think: Thinker, server: ToolServer): Context
      reads mcp
      requires mcp.Valid()
    {
      Context(model, mcp.availableTools, mcp.ToolDescriptions(), think, server)
    }

    /** run(user_input, max_steps) of this agent: RunOf in its context. */
    function RunSpec(userInput: string, maxSteps: int, think: Thinker, server: ToolServer): RunTrace
      reads mcp
      requires mcp.Valid()
    {
      RunOf(ContextOf(think, server), userInput, maxSteps)
    }

    /**
     * run(): reset the history, then up to max_steps think/act pairs,
     * returning at the first done step and otherwise rewriting the request
     * from the step's result.
     */
    method Run(userInput: string, maxSteps: int, think: Thinker, server: ToolServer) returns (r: RunOutcome)
      requires mcp.Valid()
      modifies this
      ensures r == RunSpec(userInput, maxSteps, think, server).outcome
      ensures history == RunSpec(userInput, maxSteps, think, server).history
    {
      var c := ContextOf(think, server);
      var l := LoopOf(c, userInput, maxSteps);
      ghost var spec := RunSpec(userInput, maxSteps, think, server);
      history := [];
      var currentRequest := userInput;
      var result: Option<string> := None;
      var step := 1;
      while step <= maxSteps
        invariant mcp.Valid() && c == ContextOf(think, server) && l == LoopOf(c, userInput, maxSteps)
        invariant RunFrom(l, step, currentRequest, history, result).outcome == spec.outcome
        invariant RunFrom(l, step, currentRequest, history, result).history == spec.history
        decreases maxSteps - step
      {
        ghost var h := history;
        var decision := think(model, currentRequest, history, mcp.ToolDescriptions());
        var res, isDone := Act(decision, server);
        assert l.next(currentRequest, h) == StepRecord(currentRequest, h, decision, res, isDone, history);
        if isDone {
          return Answer(res);
        }
        currentRequest := ContinueRequest(res, userInput);
        result := Some(res);
        step := step + 1;
      }
      r := if result.Some? then Answer(Incomplete(maxSteps, result.value)) else UnboundResult;
    }
  }
}
