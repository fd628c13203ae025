/** A value that may be absent: `null`/`undefined` on the client, `None` on the server. */
module Wrappers {
  datatype Option<+T> = None | Some(value: T)
}

/** The chat data model: reasoning steps, messages and sessions, as the browser
    client keeps them in memory and in storage. */
module ChatTypes {
  import opened Wrappers

  /** The three agent roles of the orchestration service. */
  datatype AgentName = Scavenger | Synthesizer | Interface {
    /** The name the server sends on the wire. */
    function Wire(): string {
      match this
      case Scavenger => "scavenger"
      case Synthesizer => "synthesizer"
      case Interface => "interface"
    }
  }

  /** A payload field as the client reads it: None when the key is absent
      (`undefined` in the client). The client casts agent fields to an agent
      name without checking them, so a field may hold any text. */
  type Field = Option<string>

  /** The decoded payload of one event record. */
  type Payload = map<string, string>

  function Lookup(p: Payload, key: string): (f: Field)
    ensures f.Some? <==> key in p
    ensures f.Some? ==> f.value == p[key]
  {
    if key in p then Some(p[key]) else None
  }

  /** `payload[key] ?? ""` */
  function LookupOrEmpty(p: Payload, key: string): (s: string)
    ensures key in p ==> s == p[key]
    ensures key !in p ==> s == ""
  {
    if key in p then p[key] else ""
  }

  /** One step of the assistant's visible reasoning trace. */
  datatype ThoughtStep =
    | AgentStart(agent: Field)
    | Handoff(from: Field, to: Field)
    | ToolCall(agent: Field, tool: Field, query: string)
    | ToolResult(agent: Field, tool: Field, result: string)

  datatype Role = User | Assistant

  datatype Message = Message(
    id: string,
    role: Role,
    content: string,
    thoughts: seq<ThoughtStep>,
    isStreaming: bool)

  datatype Session = Session(
    id: string,
    createdAt: string,
    preview: string,
    messages: seq<Message>)

  /** The ids of a session list, in order. */
  function Ids(ss: seq<Session>): (ids: seq<string>)
    ensures |ids| == |ss|
    ensures forall i :: 0 <= i < |ss| ==> ids[i] == ss[i].id
  {
    seq(|ss|, i requires 0 <= i < |ss| => ss[i].id)
  }

  /** Session ids are unique across the list. */
  predicate DistinctIds(ss: seq<Session>) {
    forall i, j :: 0 <= i < j < |ss| ==> ss[i].id != ss[j].id
  }
}
