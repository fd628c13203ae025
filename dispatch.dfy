/** Record dispatch: what each framed record does to the in-flight assistant
    message, and what a whole response does to it. A `token` record appends its
    text, a `done` record ends streaming and stops consumption, a reasoning
    record appends a step; a record whose payload does not parse, and a record
    with any other event name, does nothing. */
module Dispatch {
  import opened Wrappers
  import opened ChatTypes
  import opened StreamFramer
  import opened EventDecoder

  /** The three updates the consumer applies to the assistant message. */
  datatype Action = AppendToken(text: string) | Finish | AddThought(step: ThoughtStep)

  /** The payload parser: None when parsing throws. */
  type Parser = string -> Option<Payload>

  /** How the response body ends after the given chunks: the reader reports
      completion, or a read fails. */
  datatype StreamEnd = Closed | Broken

  /** The outcome of the request: refused (the request fails, the status is not
      ok, or there is no body), or a body that delivers these chunks and then ends. */
  datatype Transport = Rejected | Streamed(chunks: seq<string>, end: StreamEnd)

  /** An empty `data` field is the empty payload and is never parsed. */
  function DecodePayload(data: string, parse: Parser): (p: Option<Payload>)
    ensures data == "" ==> p == Some(map[])
    ensures data != "" ==> p == parse(data)
  {
    if data == "" then Some(map[]) else parse(data)
  }

  function Dispatch(r: Record, parse: Parser): Option<Action> {
    match DecodePayload(r.data, parse)
    case None => None
    case Some(payload) =>
      if r.event == "token" then Some(AppendToken(LookupOrEmpty(payload, "text")))
      else if r.event == "done" then Some(Finish)
      else
        match ToThoughtStep(r.event, payload)
        case Some(step) => Some(AddThought(step))
        case None => None
  }

  /** The actions of a record sequence, in order, dropped records left out. */
  function Actions(rs: seq<Record>, parse: Parser): seq<Action>
    decreases |rs|
  {
    if rs == [] then []
    else
      Actions(rs[..|rs| - 1], parse) +
        match Dispatch(rs[|rs| - 1], parse)
        case Some(a) => [a]
        case None => []
  }

  /** The actions up to and including the first `Finish`. */
  function Through(acts: seq<Action>): seq<Action>
    decreases |acts|
  {
    if acts == [] then []
    else if acts[0] == Finish then [Finish]
    else [acts[0]] + Through(acts[1..])
  }

  /** What a streamed response does: the actions of its records up to the first
      `done`; without one, all of them, followed by the catch handler's `Finish`
      when a read fails. */
  function StreamActions(chunks: seq<string>, end: StreamEnd, parse: Parser): seq<Action> {
    Settle(Actions(Feed(chunks).records, parse), end)
  }

  /** The actions of all records read, cut at the first `Finish` or completed
      by the catch handler's. */
  function Settle(acts: seq<Action>, end: StreamEnd): seq<Action> {
    if Finish in acts then Through(acts)
    else acts + if end == Broken then [Finish] else []
  }

  function TransportActions(t: Transport, parse: Parser): seq<Action> {
    match t
    case Rejected => [Finish]
    case Streamed(chunks, end) => StreamActions(chunks, end, parse)
  }

  // ---------------------------------------------------------------------
  // Applying actions to the assistant message
  // ---------------------------------------------------------------------

  function Apply(m: Message, a: Action): Message {
    match a
    case AppendToken(t) => m.(content := m.content + t)
    case Finish => m.(isStreaming := false)
    case AddThought(s) => m.(thoughts := m.thoughts + [s])
  }

  function ApplyAll(m: Message, acts: seq<Action>): Message
    decreases |acts|
  {
    if acts == [] then m else Apply(ApplyAll(m, acts[..|acts| - 1]), acts[|acts| - 1])
  }

  /** The token texts of a sequence of actions, concatenated in order. */
  function Tokens(acts: seq<Action>): string
    decreases |acts|
  {
    if acts == [] then ""
    else if acts[0].AppendToken? then acts[0].text + Tokens(acts[1..])
    else Tokens(acts[1..])
  }

  /** The reasoning steps of a sequence of actions, in order. */
  function Steps(acts: seq<Action>): seq<ThoughtStep>
    decreases |acts|
  {
    if acts == [] then []
    else if acts[0].AddThought? then [acts[0].step] + Steps(acts[1..])
    else Steps(acts[1..])
  }

  lemma {:induction false} TokensSnoc(acts: seq<Action>, a: Action)
    ensures Tokens(acts + [a]) == Tokens(acts) + (if a.AppendToken? then a.text else "")
    ensures Steps(acts + [a]) == Steps(acts) + (if a.AddThought? then [a.step] else [])
    decreases |acts|
  {
    if acts != [] {
      assert (acts + [a])[1..] == acts[1..] + [a];
      TokensSnoc(acts[1..], a);
    } else {
      assert [a][1..] == [];
    }
  }

  /** The message's content grows by the token texts in order, its thoughts by
      the steps in order, it stops streaming exactly when a `Finish` occurs, and
      its id and role never change. */
  lemma {:induction false} ApplyAllEffect(m: Message, acts: seq<Action>)
    ensures var r := ApplyAll(m, acts);
      && r.id == m.id && r.role == m.role
      && r.content == m.content + Tokens(acts)
      && r.thoughts == m.thoughts + Steps(acts)
      && r.isStreaming == (m.isStreaming && Finish !in acts)
    decreases |acts|
  {
    if acts != [] {
      var init := acts[..|acts| - 1];
      var a := acts[|acts| - 1];
      ApplyAllEffect(m, init);
      assert acts == init + [a];
      TokensSnoc(init, a);
    }
  }

  // ---------------------------------------------------------------------
  // Dispatch
  // ---------------------------------------------------------------------

  /** A `token` record appends its `text` (or ""), `done` finishes, a reasoning
      event appends its decoded step, and nothing else produces an action; a
      payload that fails to parse drops the record whatever its event name. */
  lemma DispatchSpec(r: Record, parse: Parser)
    ensures DecodePayload(r.data, parse).None? ==> Dispatch(r, parse) == None
    ensures DecodePayload(r.data, parse).Some? ==>
      var p := DecodePayload(r.data, parse).value;
      && (r.event == "token" ==> Dispatch(r, parse) == Some(AppendToken(LookupOrEmpty(p, "text"))))
      && (r.event == "done" ==> Dispatch(r, parse) == Some(Finish))
      && (IsThoughtEvent(r.event) ==> Dispatch(r, parse) == Some(AddThought(ToThoughtStep(r.event, p).value)))
    ensures r.event != "token" && r.event != "done" && !IsThoughtEvent(r.event) ==> Dispatch(r, parse) == None
  {
  }

  lemma {:induction false} ActionsAppend(a: seq<Record>, b: seq<Record>, parse: Parser)
    ensures Actions(a + b, parse) == Actions(a, parse) + Actions(b, parse)
    decreases |b|
  {
    if b == [] {
      assert a + b == a;
    } else {
      var init := b[..|b| - 1];
      assert (a + b)[..|a + b| - 1] == a + init;
      assert (a + b)[|a + b| - 1] == b[|b| - 1];
      ActionsAppend(a, init, parse);
    }
  }

  /** A record whose payload does not parse is dropped, and the records after
      it are processed as if it had not been there. */
  lemma MalformedRecordDropped(before: seq<Record>, bad: Record, after: seq<Record>, parse: Parser)
    requires bad.data != "" && parse(bad.data).None?
    ensures Actions(before + [bad] + after, parse) == Actions(before, parse) + Actions(after, parse)
  {
    assert Dispatch(bad, parse) == None;
    ActionsOne(bad, parse);
    ActionsAppend(before, [bad], parse);
    var dropped := Actions(before + [bad], parse);
    assert dropped == Actions(before, parse);
    ActionsAppend(before + [bad], after, parse);
  }

  lemma ActionsOne(r: Record, parse: Parser)
    ensures Actions([r], parse) == match Dispatch(r, parse) case Some(a) => [a] case None => []
  {
    assert [r][..0] == [];
  }

  // ---------------------------------------------------------------------
  // The first done ends consumption
  // ---------------------------------------------------------------------

  lemma {:induction false} ThroughSpec(acts: seq<Action>)
    ensures IsPrefix(Through(acts), acts)
    ensures Finish !in acts ==> Through(acts) == acts
    ensures Finish in acts ==>
      && Through(acts) != [] && Through(acts)[|Through(acts)| - 1] == Finish
      && Finish !in Through(acts)[..|Through(acts)| - 1]
    decreases |acts|
  {
    if acts != [] && acts[0] != Finish {
      ThroughSpec(acts[1..]);
      assert acts == [acts[0]] + acts[1..];
      var t := Through(acts[1..]);
      if Finish in acts {
        assert Finish in acts[1..];
        assert Through(acts)[..|Through(acts)| - 1] == [acts[0]] + t[..|t| - 1];
      }
    }
  }

  lemma {:induction false} ThroughStopsAtFirst(before: seq<Action>, after: seq<Action>)
    requires Finish !in before
    ensures Through(before + [Finish] + after) == before + [Finish]
    decreases |before|
  {
    if before == [] {
      assert (before + [Finish] + after)[0] == Finish;
    } else {
      assert (before + [Finish] + after)[1..] == before[1..] + [Finish] + after;
      ThroughStopsAtFirst(before[1..], after);
    }
  }

  lemma {:induction false} ThroughPrefix(acts: seq<Action>, more: seq<Action>)
    requires Finish in acts
    ensures Through(acts + more) == Through(acts)
    decreases |acts|
  {
    if acts[0] != Finish {
      assert (acts + more)[1..] == acts[1..] + more;
      assert Finish in acts[1..];
      ThroughPrefix(acts[1..], more);
    }
  }

  /** Once a `done` has been read, neither later records of the same read nor
      later reads, nor how the stream ends, change what the response does. */
  lemma DoneIsFinal(c1: seq<string>, c2: seq<string>, e1: StreamEnd, e2: StreamEnd, parse: Parser)
    requires Finish in Actions(Feed(c1).records, parse)
    ensures StreamActions(c1 + c2, e1, parse) == StreamActions(c1, e2, parse)
  {
    FeedAppend(c1, c2);
    SettleAfterDone(Feed(c1).records, Feed(c1 + c2).records, e1, e2, parse);
  }

  lemma SettleAfterDone(r1: seq<Record>, r: seq<Record>, e1: StreamEnd, e2: StreamEnd, parse: Parser)
    requires IsPrefix(r1, r) && Finish in Actions(r1, parse)
    ensures Settle(Actions(r, parse), e1) == Settle(Actions(r1, parse), e2)
  {
    assert r == r1 + r[|r1|..];
    ActionsAppend(r1, r[|r1|..], parse);
    var a1 := Actions(r1, parse);
    var a2 := Actions(r[|r1|..], parse);
    assert Actions(r, parse) == a1 + a2;
    assert Finish in a1 + a2;
    ThroughPrefix(a1, a2);
  }

  /** The actions up to a record that yields `Finish` are those of the whole
      stream, whatever the stream holds after it. */
  lemma StopAtDone(done: seq<Record>, chunks: seq<string>, end: StreamEnd, parse: Parser)
    requires IsPrefix(done, Feed(chunks).records)
    requires done != [] && Dispatch(done[|done| - 1], parse) == Some(Finish)
    requires Finish !in Actions(done[..|done| - 1], parse)
    ensures StreamActions(chunks, end, parse) == Actions(done, parse)
  {
    var all := Feed(chunks).records;
    var rest := all[|done|..];
    assert all == done + rest;
    var before := Actions(done[..|done| - 1], parse);
    assert Actions(done, parse) == before + [Finish];
    ActionsAppend(done, rest, parse);
    var tail := Actions(rest, parse);
    assert Actions(all, parse) == before + [Finish] + tail;
    assert Finish in Actions(all, parse);
    ThroughStopsAtFirst(before, tail);
  }

  // ---------------------------------------------------------------------
  // How the assistant message ends
  // ---------------------------------------------------------------------

  /** A refused request or a failed read ends streaming and keeps whatever
      content and steps had arrived; a `done` ends it too. */
  lemma FailureOrDoneSettles(m: Message, t: Transport, parse: Parser)
    requires t.Rejected? || t.end == Broken || Finish in Actions(Feed(t.chunks).records, parse)
    ensures !ApplyAll(m, TransportActions(t, parse)).isStreaming
  {
    var acts := TransportActions(t, parse);
    ApplyAllEffect(m, acts);
    if t.Streamed? {
      var all := Actions(Feed(t.chunks).records, parse);
      if Finish in all {
        ThroughSpec(all);
        assert Through(all)[|Through(all)| - 1] in Through(all);
      } else {
        assert acts[|acts| - 1] == Finish;
      }
    }
  }

  /** A stream that closes without `done` leaves the assistant message streaming:
      only `done` and the error path clear the flag. */
  lemma CleanCloseKeepsStreaming(m: Message, chunks: seq<string>, parse: Parser)
    requires m.isStreaming
    requires Finish !in Actions(Feed(chunks).records, parse)
    ensures ApplyAll(m, StreamActions(chunks, Closed, parse)).isStreaming
    ensures ApplyAll(m, StreamActions(chunks, Closed, parse)).content ==
      m.content + Tokens(Actions(Feed(chunks).records, parse))
  {
    var acts := Actions(Feed(chunks).records, parse);
    assert StreamActions(chunks, Closed, parse) == acts + [];
    assert acts + [] == acts;
    ApplyAllEffect(m, acts);
  }

  /** A failed read keeps all content and steps that arrived before it. */
  lemma BrokenStreamKeepsPartialResult(m: Message, chunks: seq<string>, parse: Parser)
    requires Finish !in Actions(Feed(chunks).records, parse)
    ensures var acts := Actions(Feed(chunks).records, parse);
      var r := ApplyAll(m, StreamActions(chunks, Broken, parse));
      && !r.isStreaming
      && r.content == m.content + Tokens(acts)
      && r.thoughts == m.thoughts + Steps(acts)
  {
    var acts := Actions(Feed(chunks).records, parse);
    ApplyAllEffect(m, acts + [Finish]);
    TokensSnoc(acts, Finish);
  }
}
