/** The session store of the chat client: the session list, the active session
    id and the global streaming flag, updated copy-on-write by `newSession`,
    `selectSession` and `sendMessage`. Every list update replaces the list with
    a new one; `persisted` records the list last handed to storage. */
module SessionStore {
  import opened Wrappers
  import opened ChatTypes
  import opened Text
  import opened StreamFramer
  import opened Dispatch

  const PreviewLength := 40
  const NewChatPreview := "New chat"

  /** `text.slice(0, 40)` */
  function Preview(text: string): (p: string)
    ensures |p| == if |text| < PreviewLength then |text| else PreviewLength
    ensures p == text[..|p|]
  {
    if |text| <= PreviewLength then text else text[..PreviewLength]
  }

  /** `!sessionId`: there is no active id, or it is the empty string. */
  predicate NeedsSession(active: Option<string>) {
    active.None? || active.value == ""
  }

  /** The session an exchange goes to. */
  function TargetId(active: Option<string>, newId: string): string {
    if NeedsSession(active) then newId else active.value
  }

  /** The session-ensure step of `sendMessage`: without an active id, a session
      previewing the text is prepended. */
  function EnsureSession(ss: seq<Session>, active: Option<string>, text: string, newId: string, now: string): seq<Session> {
    if NeedsSession(active) then [Session(newId, now, Preview(text), [])] + ss else ss
  }

  function UserMessage(id: string, text: string): Message {
    Message(id, User, text, [], false)
  }

  /** The assistant message of an exchange before any record arrives. */
  function PendingReply(id: string): Message {
    Message(id, Assistant, "", [], true)
  }

  /** The exchange-append step: the target session gets the user message and
      the pending reply, and its preview is overwritten when it had no messages. */
  function AppendExchange(ss: seq<Session>, sid: string, text: string, userId: string, assistantId: string): seq<Session> {
    seq(|ss|, i requires 0 <= i < |ss| =>
      if ss[i].id != sid then ss[i]
      else ss[i].(
        preview := if |ss[i].messages| == 0 then Preview(text) else ss[i].preview,
        messages := ss[i].messages + [UserMessage(userId, text), PendingReply(assistantId)]))
  }

  function PatchMessages(ms: seq<Message>, aid: string, a: Action): seq<Message> {
    seq(|ms|, j requires 0 <= j < |ms| => if ms[j].id == aid then Apply(ms[j], a) else ms[j])
  }

  /** `patchAssistant`: one update of the message `aid` inside the session `sid`. */
  function PatchAssistant(ss: seq<Session>, sid: string, aid: string, a: Action): seq<Session> {
    seq(|ss|, i requires 0 <= i < |ss| =>
      if ss[i].id != sid then ss[i]
      else ss[i].(messages := PatchMessages(ss[i].messages, aid, a)))
  }

  /** A sequence of `patchAssistant` calls, in order. */
  function PatchAll(ss: seq<Session>, sid: string, aid: string, acts: seq<Action>): seq<Session>
    decreases |acts|
  {
    if acts == [] then ss
    else PatchAssistant(PatchAll(ss, sid, aid, acts[..|acts| - 1]), sid, aid, acts[|acts| - 1])
  }

  // ---------------------------------------------------------------------
  // Properties of the list updates
  // ---------------------------------------------------------------------

  /** Appending an exchange touches only the target session: it gains exactly
      the user message and the pending reply, and its preview changes only
      when it had no messages. */
  lemma AppendExchangeSpec(ss: seq<Session>, sid: string, text: string, userId: string, assistantId: string)
    ensures var r := AppendExchange(ss, sid, text, userId, assistantId);
      && Ids(r) == Ids(ss)
      && forall i :: 0 <= i < |ss| ==>
        if ss[i].id != sid then r[i] == ss[i]
        else
          && r[i].createdAt == ss[i].createdAt
          && r[i].messages == ss[i].messages + [UserMessage(userId, text), PendingReply(assistantId)]
          && r[i].preview == if ss[i].messages == [] then Preview(text) else ss[i].preview
  {
  }

  /** The preview is set by the first exchange of a session and kept by the next. */
  lemma PreviewSetOnce(ss: seq<Session>, sid: string, i: nat, t1: string, u1: string, a1: string, t2: string, u2: string, a2: string)
    requires i < |ss| && ss[i].id == sid
    ensures AppendExchange(AppendExchange(ss, sid, t1, u1, a1), sid, t2, u2, a2)[i].preview ==
      if ss[i].messages == [] then Preview(t1) else ss[i].preview
  {
    var once := AppendExchange(ss, sid, t1, u1, a1);
    assert once[i].id == sid;
    assert |once[i].messages| == |ss[i].messages| + 2;
  }

  /** A patch touches only the message `aid` in the session `sid`. */
  lemma {:induction false} PatchAllSpec(ss: seq<Session>, sid: string, aid: string, acts: seq<Action>)
    ensures var r := PatchAll(ss, sid, aid, acts);
      && |r| == |ss|
      && forall i :: 0 <= i < |ss| ==>
        if ss[i].id != sid then r[i] == ss[i]
        else
          && r[i].id == ss[i].id && r[i].createdAt == ss[i].createdAt && r[i].preview == ss[i].preview
          && |r[i].messages| == |ss[i].messages|
          && forall j :: 0 <= j < |ss[i].messages| ==>
               r[i].messages[j] == if ss[i].messages[j].id == aid then ApplyAll(ss[i].messages[j], acts) else ss[i].messages[j]
    decreases |acts|
  {
    if acts != [] {
      var init := acts[..|acts| - 1];
      PatchAllSpec(ss, sid, aid, init);
      var before := PatchAll(ss, sid, aid, init);
      forall i, j | 0 <= i < |ss| && ss[i].id == sid && 0 <= j < |ss[i].messages| && ss[i].messages[j].id == aid
        ensures before[i].messages[j].id == aid
      {
        ApplyAllEffect(ss[i].messages[j], init);
      }
    }
  }

  lemma PatchKeepsIds(ss: seq<Session>, sid: string, aid: string, acts: seq<Action>)
    ensures Ids(PatchAll(ss, sid, aid, acts)) == Ids(ss)
  {
    PatchAllSpec(ss, sid, aid, acts);
  }

  /** `patchAssistant` is a no-op when the session is absent, or when the
      session holds no message `aid`. */
  lemma PatchAbsentIsNoop(ss: seq<Session>, sid: string, aid: string, acts: seq<Action>)
    requires forall i :: 0 <= i < |ss| && ss[i].id == sid ==>
      forall j :: 0 <= j < |ss[i].messages| ==> ss[i].messages[j].id != aid
    ensures PatchAll(ss, sid, aid, acts) == ss
  {
    var r := PatchAll(ss, sid, aid, acts);
    PatchAllSpec(ss, sid, aid, acts);
    forall i | 0 <= i < |ss| ensures r[i] == ss[i] {
      if ss[i].id == sid {
        assert r[i].messages == ss[i].messages;
      }
    }
  }

  /** The session an exchange goes to ends with the user message followed by
      the reply all the actions built, and no other session changes. */
  lemma ExchangeResult(ss: seq<Session>, sid: string, i: nat, text: string, userId: string, assistantId: string, acts: seq<Action>)
    requires i < |ss| && ss[i].id == sid
    requires forall j :: 0 <= j < |ss[i].messages| ==> ss[i].messages[j].id != assistantId
    requires userId != assistantId
    ensures var r := PatchAll(AppendExchange(ss, sid, text, userId, assistantId), sid, assistantId, acts);
      && |r| == |ss|
      && r[i].messages == ss[i].messages + [UserMessage(userId, text), ApplyAll(PendingReply(assistantId), acts)]
      && r[i].preview == (if ss[i].messages == [] then Preview(text) else ss[i].preview)
      && forall k :: 0 <= k < |ss| && ss[k].id != sid ==> r[k] == ss[k]
  {
    var mid := AppendExchange(ss, sid, text, userId, assistantId);
    var r := PatchAll(mid, sid, assistantId, acts);
    PatchAllSpec(mid, sid, assistantId, acts);
    var want := ss[i].messages + [UserMessage(userId, text), ApplyAll(PendingReply(assistantId), acts)];
    assert |r[i].messages| == |want|;
    forall j | 0 <= j < |want| ensures r[i].messages[j] == want[j] {
      if j < |ss[i].messages| {
        assert mid[i].messages[j] == ss[i].messages[j];
      }
    }
  }

  /** The reply of an exchange holds the token texts in order as its content and
      the decoded steps in order as its thoughts, and streams until a `Finish`. */
  lemma ReplyContents(assistantId: string, acts: seq<Action>)
    ensures var reply := ApplyAll(PendingReply(assistantId), acts);
      && reply.id == assistantId && reply.role == Assistant
      && reply.content == Tokens(acts)
      && reply.thoughts == Steps(acts)
      && reply.isStreaming == (Finish !in acts)
  {
    ApplyAllEffect(PendingReply(assistantId), acts);
  }

  /** An active id that names no session makes the whole exchange a no-op on
      the session list (the request is still sent). */
  lemma OrphanActiveIdChangesNothing(ss: seq<Session>, sid: string, text: string, userId: string, assistantId: string, acts: seq<Action>)
    requires sid !in Ids(ss)
    ensures PatchAll(AppendExchange(ss, sid, text, userId, assistantId), sid, assistantId, acts) == ss
  {
    var mid := AppendExchange(ss, sid, text, userId, assistantId);
    forall i | 0 <= i < |ss| ensures ss[i].id != sid {
      assert Ids(ss)[i] == ss[i].id;
    }
    assert mid == ss;
    PatchAbsentIsNoop(ss, sid, assistantId, acts);
  }

  /** With a fresh id, ensuring a session and running an exchange keep session ids unique. */
  lemma ExchangeKeepsDistinctIds(ss: seq<Session>, active: Option<string>, text: string, newId: string, now: string,
                                 userId: string, assistantId: string, acts: seq<Action>)
    requires DistinctIds(ss)
    requires NeedsSession(active) ==> newId !in Ids(ss)
    ensures var prepared := EnsureSession(ss, active, text, newId, now);
      var sid := TargetId(active, newId);
      DistinctIds(PatchAll(AppendExchange(prepared, sid, text, userId, assistantId), sid, assistantId, acts))
  {
    var prepared := EnsureSession(ss, active, text, newId, now);
    var sid := TargetId(active, newId);
    if NeedsSession(active) {
      forall i, j | 0 <= i < j < |prepared| ensures prepared[i].id != prepared[j].id {
        if i == 0 {
          assert Ids(ss)[j - 1] == prepared[j].id;
        }
      }
    }
    var mid := AppendExchange(prepared, sid, text, userId, assistantId);
    PatchKeepsIds(mid, sid, assistantId, acts);
    var r := PatchAll(mid, sid, assistantId, acts);
    forall i, j | 0 <= i < j < |r| ensures r[i].id != r[j].id {
      assert Ids(r)[i] == Ids(prepared)[i] && Ids(r)[j] == Ids(prepared)[j];
    }
  }

  lemma PrependFreshKeepsDistinctIds(ss: seq<Session>, s: Session)
    requires DistinctIds(ss) && s.id !in Ids(ss)
    ensures DistinctIds([s] + ss)
  {
    var r := [s] + ss;
    forall i, j | 0 <= i < j < |r| ensures r[i].id != r[j].id {
      if i == 0 {
        assert Ids(ss)[j - 1] == r[j].id;
      }
    }
  }

  // ---------------------------------------------------------------------
  // Steps of the read loop
  // ---------------------------------------------------------------------

  /** One read: the buffer keeps the last piece and the complete lines are
      scanned with fresh fields. */
  lemma ReadStep(chunks: seq<string>, j: nat)
    requires j < |chunks|
    ensures var pieces := Split(Feed(chunks[..j]).carry + Normalize(chunks[j]));
      && Feed(chunks[..j + 1]).carry == pieces[|pieces| - 1]
      && Feed(chunks[..j + 1]).records == Feed(chunks[..j]).records + Scan(pieces[..|pieces| - 1]).records
  {
    assert chunks[..j + 1][..j] == chunks[..j];
  }

  lemma ScanStep(lines: seq<string>, k: nat)
    requires k < |lines|
    ensures Scan(lines[..k + 1]) == FeedLine(Scan(lines[..k]), lines[k])
  {
    assert lines[..k + 1][..k] == lines[..k];
  }

  /** Scanning a line after earlier records only appends to them. */
  lemma FeedLineAfter(fr: Framer, earlier: seq<Record>, line: string)
    ensures var next := FeedLine(fr, line);
      FeedLine(Framer(fr.event, fr.data, earlier + fr.records), line) == Framer(next.event, next.data, earlier + next.records)
  {
    var rs := fr.records;
    if !StartsWith(line, "event:") && !StartsWith(line, "data:") && line == "" && fr.event != "" {
      assert (earlier + rs) + [Record(fr.event, fr.data)] == earlier + (rs + [Record(fr.event, fr.data)]);
    }
  }

  /** One more record patches the reply with its action, if it has one. */
  lemma PatchRecord(start: seq<Session>, sid: string, aid: string, prior: seq<Record>, r: Record, parse: Parser)
    ensures var before := PatchAll(start, sid, aid, Actions(prior, parse));
      var action := Dispatch.Dispatch(r, parse);
      && PatchAll(start, sid, aid, Actions(prior + [r], parse)) ==
           (if action.Some? then PatchAssistant(before, sid, aid, action.value) else before)
      && (Finish in Actions(prior + [r], parse) <==> Finish in Actions(prior, parse) || action == Some(Finish))
  {
    var rs := prior + [r];
    assert rs[..|rs| - 1] == prior;
    var acts := Actions(prior, parse);
    match Dispatch.Dispatch(r, parse) {
      case None =>
        assert acts + [] == acts;
      case Some(a) =>
        assert (acts + [a])[..|acts|] == acts;
    }
  }

  /** A `done` record met in the middle of read `j` ends the stream there. */
  lemma DoneRecord(chunks: seq<string>, j: nat, lines: seq<string>, k: nat, done: seq<Record>, end: StreamEnd, parse: Parser)
    requires j < |chunks| && k < |lines|
    requires Feed(chunks[..j + 1]).records == Feed(chunks[..j]).records + Scan(lines).records
    requires done == Feed(chunks[..j]).records + Scan(lines[..k + 1]).records
    requires done != [] && Dispatch.Dispatch(done[|done| - 1], parse) == Some(Finish)
    requires Finish !in Actions(done[..|done| - 1], parse)
    ensures StreamActions(chunks, end, parse) == Actions(done, parse)
  {
    FeedPrefix(chunks, j + 1);
    PrefixThroughLines(Feed(chunks[..j]).records, lines, k, done, Feed(chunks[..j + 1]).records, Feed(chunks).records);
    StopAtDone(done, chunks, end, parse);
  }

  /** The records up to line `k` of a read are a prefix of everything read. */
  lemma PrefixThroughLines(earlier: seq<Record>, lines: seq<string>, k: nat, done: seq<Record>,
                           now: seq<Record>, all: seq<Record>)
    requires k < |lines|
    requires now == earlier + Scan(lines).records && IsPrefix(now, all)
    requires done == earlier + Scan(lines[..k + 1]).records
    ensures IsPrefix(done, all)
  {
    ScanPrefix(lines, k + 1);
    PrefixConcat(earlier, Scan(lines[..k + 1]).records, Scan(lines).records);
    PrefixTrans(done, now, all);
  }

  /** The stream ends without `done`: a failed read adds the final `Finish`. */
  lemma StreamEnds(start: seq<Session>, sid: string, aid: string, chunks: seq<string>, end: StreamEnd, parse: Parser)
    requires Finish !in Actions(Feed(chunks).records, parse)
    ensures var acts := Actions(Feed(chunks).records, parse);
      var patched := PatchAll(start, sid, aid, acts);
      PatchAll(start, sid, aid, StreamActions(chunks, end, parse)) ==
        if end == Broken then PatchAssistant(patched, sid, aid, Finish) else patched
  {
    var acts := Actions(Feed(chunks).records, parse);
    if end == Broken {
      assert (acts + [Finish])[..|acts|] == acts;
    } else {
      assert acts + [] == acts;
    }
  }

  // ---------------------------------------------------------------------
  // The store
  // ---------------------------------------------------------------------

  class ChatStore {
    var sessions: seq<Session>
    var activeId: Option<string>
    var streaming: bool
    ghost var persisted: seq<Session>

    /** The hook's initial state, from the list loaded from storage (empty when
        storage is empty or unreadable): the first session is active. */
    constructor (stored: seq<Session>)
      ensures sessions == stored && persisted == stored && !streaming
      ensures activeId == if stored == [] then None else Some(stored[0].id)
    {
      sessions := stored;
      persisted := stored;
      activeId := if stored == [] then None else Some(stored[0].id);
      streaming := false;
    }

    /** `newSession`: prepends an empty session, saves the list and activates it. */
    method NewSession(id: string, now: string)
      modifies this
      ensures sessions == [Session(id, now, NewChatPreview, [])] + old(sessions)
      ensures persisted == sessions
      ensures activeId == Some(id) && streaming == old(streaming)
      ensures DistinctIds(old(sessions)) && id !in Ids(old(sessions)) ==> DistinctIds(sessions)
    {
      var session := Session(id, now, NewChatPreview, []);
      sessions := [session] + sessions;
      persisted := sessions;
      activeId := Some(id);
      if DistinctIds(old(sessions)) && id !in Ids(old(sessions)) {
        PrependFreshKeepsDistinctIds(old(sessions), session);
      }
    }

    /** `selectSession`: changes the active id only, whether or not it names a session. */
    method SelectSession(id: string)
      modifies this`activeId
      ensures activeId == Some(id)
    {
      activeId := Some(id);
    }

    /** `sendMessage`. `newId`, `userId` and `assistantId` are the ids the
        generator would return, `now` the creation time, `t` the outcome of the
        request and `parse` the payload parser. */
    method SendMessage(text: string, newId: string, userId: string, assistantId: string, now: string,
                       t: Transport, parse: Parser)
      modifies this
      ensures old(streaming) ==>
        && sessions == old(sessions) && activeId == old(activeId)
        && persisted == old(persisted) && streaming
      ensures !old(streaming) ==>
        var sid := TargetId(old(activeId), newId);
        var prepared := EnsureSession(old(sessions), old(activeId), text, newId, now);
        && sessions == PatchAll(AppendExchange(prepared, sid, text, userId, assistantId), sid, assistantId, TransportActions(t, parse))
        && activeId == Some(sid)
        && persisted == sessions
        && !streaming
    {
      if streaming {
        return;
      }
      var sid: string;
      if NeedsSession(activeId) {
        sid := newId;
        sessions := [Session(sid, now, Preview(text), [])] + sessions;
        persisted := sessions;
        activeId := Some(sid);
      } else {
        sid := activeId.value;
      }
      sessions := AppendExchange(sessions, sid, text, userId, assistantId);
      streaming := true;
      match t {
        case Rejected =>
          sessions := PatchAssistant(sessions, sid, assistantId, Finish);
          assert [Finish][..0] == [];
        case Streamed(chunks, end) =>
          ReadStream(sid, assistantId, chunks, end, parse);
      }
      // finally
      streaming := false;
      persisted := sessions;
    }

    /** The read loop of `sendMessage` over a response body that delivers
        `chunks` and then ends as `end`. */
    method ReadStream(sid: string, aid: string, chunks: seq<string>, end: StreamEnd, parse: Parser)
      modifies this`sessions
      ensures sessions == PatchAll(old(sessions), sid, aid, StreamActions(chunks, end, parse))
    {
      ghost var start := sessions;
      var buffer := "";
      var j := 0;
      label outer: while true
        invariant 0 <= j <= |chunks|
        invariant buffer == Feed(chunks[..j]).carry
        invariant Finish !in Actions(Feed(chunks[..j]).records, parse)
        invariant sessions == PatchAll(start, sid, aid, Actions(Feed(chunks[..j]).records, parse))
        decreases |chunks| - j
      {
        if j == |chunks| {
          // the reader reports completion, or the read fails and the catch handler runs
          assert chunks[..j] == chunks;
          StreamEnds(start, sid, aid, chunks, end, parse);
          if end == Broken {
            sessions := PatchAssistant(sessions, sid, aid, Finish);
          }
          break;
        }
        ReadStep(chunks, j);
        ghost var earlier := Feed(chunks[..j]).records;
        var pieces := Split(buffer + Normalize(chunks[j]));
        buffer := pieces[|pieces| - 1];
        var lines := pieces[..|pieces| - 1];
        assert Feed(chunks[..j + 1]).records == earlier + Scan(lines).records;
        var event, data := "", "";
        ghost var consumed := earlier;
        assert lines[..0] == [];
        for k := 0 to |lines|
          invariant event == Scan(lines[..k]).event && data == Scan(lines[..k]).data
          invariant consumed == earlier + Scan(lines[..k]).records
          invariant Finish !in Actions(consumed, parse)
          invariant sessions == PatchAll(start, sid, aid, Actions(consumed, parse))
        {
          ScanStep(lines, k);
          FeedLineAfter(Scan(lines[..k]), earlier, lines[k]);
          var finished;
          event, data, finished, consumed := ConsumeLine(lines[k], event, data, sid, aid, parse, start, consumed);
          if finished {
            DoneRecord(chunks, j, lines, k, consumed, end, parse);
            break outer;
          }
        }
        assert lines[..|lines|] == lines;
        j := j + 1;
      }
    }

    /** The body of the line loop: `event:` and `data:` lines set a field, a
        blank line after an event name dispatches the record and clears both
        fields, and every other line is ignored. `finished` reports a `done`. */
    method ConsumeLine(line: string, event: string, data: string, sid: string, aid: string, parse: Parser,
                       ghost start: seq<Session>, ghost consumed: seq<Record>)
      returns (nextEvent: string, nextData: string, finished: bool, ghost nextConsumed: seq<Record>)
      modifies this`sessions
      requires Finish !in Actions(consumed, parse)
      requires sessions == PatchAll(start, sid, aid, Actions(consumed, parse))
      ensures var next := FeedLine(Framer(event, data, consumed), line);
        && nextConsumed == next.records
        && sessions == PatchAll(start, sid, aid, Actions(nextConsumed, parse))
        && (!finished ==> nextEvent == next.event && nextData == next.data && Finish !in Actions(nextConsumed, parse))
        && (finished ==>
              && nextConsumed != [] && nextConsumed[..|nextConsumed| - 1] == consumed
              && Dispatch.Dispatch(nextConsumed[|nextConsumed| - 1], parse) == Some(Finish))
    {
      nextEvent, nextData, finished, nextConsumed := event, data, false, consumed;
      if StartsWith(line, "event:") {
        nextEvent := Trim(line[6..]);
      } else if StartsWith(line, "data:") {
        nextData := Trim(line[5..]);
      } else if line == "" {
        if event == "" {
          return;
        }
        var record := Record(event, data);
        PatchRecord(start, sid, aid, consumed, record, parse);
        nextConsumed := consumed + [record];
        var action := Dispatch.Dispatch(record, parse);
        if action.Some? {
          sessions := PatchAssistant(sessions, sid, aid, action.value);
          if action.value == Finish {
            assert nextConsumed[..|consumed|] == consumed;
            finished := true;
            return;
          }
        }
        nextEvent := "";
        nextData := "";
      }
    }
  }
}
