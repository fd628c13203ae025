/** Event decoder: maps one event name and its decoded payload to a reasoning
    step, or to nothing for every name that is not a reasoning event. */
module EventDecoder {
  import opened Wrappers
  import opened ChatTypes

  /** The four event names that carry a reasoning step. */
  predicate IsThoughtEvent(event: string) {
    event == "agent_start" || event == "handoff" || event == "tool_call" || event == "tool_result"
  }

  function ToThoughtStep(event: string, payload: Payload): (step: Option<ThoughtStep>)
    ensures step.Some? <==> IsThoughtEvent(event)
  {
    if event == "agent_start" then
      Some(AgentStart(Lookup(payload, "agent")))
    else if event == "handoff" then
      Some(Handoff(Lookup(payload, "from"), Lookup(payload, "to")))
    else if event == "tool_call" then
      Some(ToolCall(Lookup(payload, "agent"), Lookup(payload, "tool"), LookupOrEmpty(payload, "query")))
    else if event == "tool_result" then
      Some(ToolResult(Lookup(payload, "agent"), Lookup(payload, "tool"), LookupOrEmpty(payload, "result")))
    else
      None
  }

  /** The step kind follows the event name, each field is copied from the
      payload key of the same name, and a missing query or result becomes "". */
  lemma DecodeFields(event: string, payload: Payload)
    requires IsThoughtEvent(event)
    ensures var step := ToThoughtStep(event, payload).value;
      && (event == "agent_start" <==> step.AgentStart?)
      && (event == "handoff" <==> step.Handoff?)
      && (event == "tool_call" <==> step.ToolCall?)
      && (event == "tool_result" <==> step.ToolResult?)
      && (!step.Handoff? ==> step.agent == Lookup(payload, "agent"))
      && (step.Handoff? ==> step.from == Lookup(payload, "from") && step.to == Lookup(payload, "to"))
      && ((step.ToolCall? || step.ToolResult?) ==> step.tool == Lookup(payload, "tool"))
      && (step.ToolCall? ==> step.query == (if "query" in payload then payload["query"] else ""))
      && (step.ToolResult? ==> step.result == (if "result" in payload then payload["result"] else ""))
  {
  }

  /** The two control events decode to nothing; every other name that is not a
      reasoning event is covered by `ToThoughtStep`'s own contract. */
  lemma ControlEventsAreNotSteps(payload: Payload)
    ensures ToThoughtStep("token", payload) == None
    ensures ToThoughtStep("done", payload) == None
  {
  }

  /** A field holds one of the three agent names. */
  predicate IsAgentName(f: Field) {
    f.Some? && (f.value == Scavenger.Wire() || f.value == Synthesizer.Wire() || f.value == Interface.Wire())
  }

  /** The step has the shape its declared type promises: every agent field names an agent. */
  predicate WellTyped(step: ThoughtStep) {
    match step
    case AgentStart(a) => IsAgentName(a)
    case Handoff(f, t) => IsAgentName(f) && IsAgentName(t)
    case ToolCall(a, tool, _) => IsAgentName(a) && tool.Some?
    case ToolResult(a, tool, _) => IsAgentName(a) && tool.Some?
  }

  /** The declared step type holds exactly when the server sent the fields it promises. */
  lemma DecodeWellTyped(event: string, payload: Payload)
    requires IsThoughtEvent(event)
    ensures WellTyped(ToThoughtStep(event, payload).value) <==>
      if event == "handoff" then IsAgentName(Lookup(payload, "from")) && IsAgentName(Lookup(payload, "to"))
      else IsAgentName(Lookup(payload, "agent")) && (event != "agent_start" ==> "tool" in payload)
  {
  }
}
