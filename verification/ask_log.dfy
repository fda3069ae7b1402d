/** The `/ask` endpoint's bookkeeping around the agent: the tool-call log
    built from the agent's intermediate steps, the decision-tree summary,
    the chat history returned to the client, and the health check. The
    agent itself is not modelled; its steps, output and memory are inputs. */
module AskLog {
  import opened Wrappers
  import Seqs

  /** An agent action: the tool called and the input given to it. */
  datatype AgentAction<I> = AgentAction(tool: string, toolInput: I)

  /** One intermediate step: the action and what the tool returned. */
  datatype AgentStep<I, O> = AgentStep(action: AgentAction<I>, observation: O)

  /** A `steps_log` record; input and observation are rendered with `str`. */
  datatype StepRecord = StepRecord(tool: string, toolInput: string, observation: string)

  datatype DecisionLog = DecisionLog(question: string, decision: string, toolUsed: Option<string>,
                                     steps: seq<StepRecord>, finalAnswer: string)

  /** A message of the conversation memory. */
  datatype MemoryMessage = MemoryMessage(kind: string, content: string)

  datatype HistoryItem = HistoryItem(role: string, content: string)

  datatype AskResponse = AskResponse(answer: string, decisionLog: DecisionLog, history: seq<HistoryItem>)

  const CalledTool: string := "调用工具"
  const AnsweredDirectly: string := "直接回答"

  /** The record of one step, rendering its input and observation with the given `str`. */
  function Record<I, O>(step: AgentStep<I, O>, strInput: I -> string, strObservation: O -> string): StepRecord {
    StepRecord(step.action.tool, strInput(step.action.toolInput), strObservation(step.observation))
  }

  /** The `for step in result["intermediate_steps"]` loop: one record per
      step, in order. */
  method BuildStepsLog<I, O>(steps: seq<AgentStep<I, O>>, strInput: I -> string, strObservation: O -> string)
    returns (log: seq<StepRecord>)
    ensures |log| == |steps|
    ensures forall k :: 0 <= k < |steps| ==>
      log[k].tool == steps[k].action.tool &&
      log[k].toolInput == strInput(steps[k].action.toolInput) &&
      log[k].observation == strObservation(steps[k].observation)
  {
    log := [];
    for i := 0 to |steps|
      invariant |log| == i
      invariant forall k :: 0 <= k < i ==> log[k] == Record(steps[k], strInput, strObservation)
    {
      var step := steps[i];
      log := log + [StepRecord(step.action.tool, strInput(step.action.toolInput), strObservation(step.observation))];
    }
  }

  /** `decision_log`: a tool was used exactly when there is a step, and the
      tool named is the first step's. */
  function MakeDecisionLog(question: string, stepsLog: seq<StepRecord>, output: string): (d: DecisionLog)
    ensures d.decision == CalledTool <==> stepsLog != []
    ensures d.decision == AnsweredDirectly <==> stepsLog == []
    ensures d.toolUsed.Some? <==> stepsLog != []
    ensures d.toolUsed.Some? ==> d.toolUsed.value == stepsLog[0].tool
    ensures d.question == question && d.steps == stepsLog && d.finalAnswer == output
  {
    DecisionLog(question,
                if stepsLog != [] then CalledTool else AnsweredDirectly,
                if stepsLog != [] then Some(stepsLog[0].tool) else None,
                stepsLog,
                output)
  }

  /** The history comprehension: one role/content pair per memory message, in order. */
  function History(messages: seq<MemoryMessage>): (h: seq<HistoryItem>)
    ensures |h| == |messages|
    ensures forall k :: 0 <= k < |messages| ==> h[k].role == messages[k].kind && h[k].content == messages[k].content
  {
    Seqs.Map(messages, (m: MemoryMessage) => HistoryItem(m.kind, m.content))
  }

  /** The response of `/ask`, given the agent's steps and output and the
      memory's messages after the call. */
  method Ask<I, O>(question: string, steps: seq<AgentStep<I, O>>, output: string, messages: seq<MemoryMessage>,
                   strInput: I -> string, strObservation: O -> string)
    returns (r: AskResponse)
    ensures r.answer == output && r.decisionLog.finalAnswer == output
    ensures r.decisionLog.question == question
    ensures |r.decisionLog.steps| == |steps|
    ensures forall k :: 0 <= k < |steps| ==> r.decisionLog.steps[k] == Record(steps[k], strInput, strObservation)
    ensures r.decisionLog.decision == (if steps != [] then CalledTool else AnsweredDirectly)
    ensures r.decisionLog.toolUsed == (if steps != [] then Some(steps[0].action.tool) else None)
    ensures r.history == History(messages)
  {
    var stepsLog := BuildStepsLog(steps, strInput, strObservation);
    var decisionLog := MakeDecisionLog(question, stepsLog, output);
    r := AskResponse(output, decisionLog, History(messages));
  }

  /** `/api/health` */
  function HealthCheck(): (r: map<string, string>)
    ensures r.Keys == {"status", "service"}
    ensures r["status"] == "healthy" && r["service"] == "english-checker"
  {
    map["status" := "healthy", "service" := "english-checker"]
  }
}
