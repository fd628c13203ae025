# ChaosContext chat client and mock tools, in Dafny

This project models the logic core of ChaosContext AI. It has four parts.

- **Browser chat hook** (`useChat`). It holds the session list, the active session id and a global streaming flag. `sendMessage` posts one message to the backend. It then reads the streamed response as text chunks, cuts the chunks into `event:`/`data:` records, and applies each record to the in-flight assistant message: a token, a reasoning step, or `done`.
- **Reasoning panel** (`ThoughtProcess`). It groups consecutive reasoning steps by agent. A long tool result is shown truncated.
- **Sidebar helpers.** One renders how long ago a session was created. The other picks the label shown for a session.
- **Backend mock tools.** These are keyword searches over Notion documents and Slack messages, plus the name-to-tool dispatcher.

Files:

- `types.dfy`: the shared `Option` (`Wrappers`) and the data model (`ChatTypes`). This covers agents, reasoning steps, messages and sessions.
- `text.dfy` (`Text`): the JavaScript string primitives the stream reader uses, with their properties. These are `trim`, `split("\n")` and its inverse, and the two-pass CR/LF normalisation.
- `decoder.dfy` (`EventDecoder`): `toThoughtStep`.
- `framer.dfy` (`StreamFramer`): a reference definition of what the read loop extracts from a sequence of chunks. It covers the carry-over buffer, line scanning, and which records are emitted.
- `dispatch.dfy` (`Dispatch`): what each record does to the assistant message, and what a whole response does. A response is one of three things: refused, streamed to a clean close, or streamed until a read fails.
- `sessions.dfy` (`SessionStore`): the copy-on-write list updates as functions, with their frame properties. The class `ChatStore` holds the hook's state. Its `SendMessage` and `ReadStream` methods mirror the imperative code, including the labelled `break outer`; the body of the line loop is the method `ConsumeLine`. They are proved equal to the reference definitions.
- `thoughts.dfy` (`ThoughtPanel`): agent grouping, proved against a reference definition that is shown to be the unique well-grouped partition. Also the tool-result preview.
- `sidebar.dfy` (`Sidebar`): `relativeTime` and the session label.
- `tools.dfy` (`Tools`): `read_notion_mock`, `read_slack_mock`, `TOOL_REGISTRY` and `execute_tool`.

Three behaviours of the code are worth knowing, and the model states each of them:

- **Clean close without `done`.** A clean close without `done` leaves the assistant message with `isStreaming = true` (frontend/src/hooks/useChat.ts:176). Only `done` (line 210) and the catch handler (line 233) clear it. So after such a stream, a later exchange can leave two messages streaming. `Dispatch.CleanCloseKeepsStreaming` states this.
- **A record split across two reads is dropped.** `currentEvent`/`currentData` are reset on every read (lines 186-187). So a record whose lines arrive in two reads is lost, while the same text read at once gives the record. `StreamFramer.RecordSplitAcrossReadsIsDropped` exhibits this.
- **A CR at the end of one read and an LF at the start of the next become two newlines.** `Text.CrLfAcrossReads` states this.

## Model

| member | source | states |
|---|---|---|
| EventDecoder.ToThoughtStep | frontend/src/hooks/useChat.ts:14-44 | a step is produced exactly for `agent_start`, `handoff`, `tool_call` and `tool_result`; every other name gives none |
| EventDecoder.DecodeFields | frontend/src/hooks/useChat.ts:18-40 | the step kind follows the event name, each field is copied from the payload key of the same name, and a missing `query`/`result` becomes "" |
| EventDecoder.ControlEventsAreNotSteps | frontend/src/hooks/useChat.ts:41-42 | `token` and `done` decode to no step |
| EventDecoder.DecodeWellTyped | frontend/src/hooks/useChat.ts:20-39 | the unchecked casts yield a step whose agent fields name agents exactly when the payload carries agent names (and a tool for tool steps) |
| Text.TrimSpec | frontend/src/hooks/useChat.ts:191-193 | `trim` returns the infix of the input with all white space removed at both ends and none left at its ends |
| Text.Split | frontend/src/hooks/useChat.ts:183 | `split("\n")` never returns an empty list |
| Text.SplitJoin | frontend/src/hooks/useChat.ts:183 | joining the pieces with newlines gives the text back, and no piece holds a newline |
| Text.JoinSplit | frontend/src/hooks/useChat.ts:183 | splitting newline-joined newline-free pieces gives the pieces back |
| Text.NormalizeSpec | frontend/src/hooks/useChat.ts:181-182 | the two replacements leave no CR, leave CR-free text unchanged, and are idempotent |
| Text.NormalizeLineBreaks | frontend/src/hooks/useChat.ts:181-182 | after CR-free text, a CR LF pair becomes one LF, and so does a CR not followed by LF; the rest is normalised on its own, which with the CR-free identity fixes the result on every input |
| Text.CrLfAcrossReads | frontend/src/hooks/useChat.ts:179-182 | a CR ending one read and an LF starting the next give two newlines, where CR LF read at once gives one |
| StreamFramer.ReadChunkReconstructs | frontend/src/hooks/useChat.ts:179-184 | after a read the buffer has no newline, and the complete lines joined by newlines, plus a newline and the buffer, give back old buffer + normalised chunk |
| StreamFramer.CarryIsPartialLine | frontend/src/hooks/useChat.ts:183-184 | the buffer kept between reads never holds a newline or a CR |
| StreamFramer.ScanBlock | frontend/src/hooks/useChat.ts:189-193 | between blank lines the last `event:` and the last `data:` line (trimmed) set the fields, other lines are ignored, and no record is emitted |
| StreamFramer.BlankLine | frontend/src/hooks/useChat.ts:194-227 | a blank line emits (event, data) and clears both fields exactly when the event is non-empty, and changes nothing otherwise |
| StreamFramer.RecordsHaveEvents | frontend/src/hooks/useChat.ts:190-197 | every emitted record has a non-empty event name that does not start with white space |
| StreamFramer.FeedAppend | frontend/src/hooks/useChat.ts:174-230 | later reads never change the records earlier reads produced |
| StreamFramer.RecordSplitAcrossReadsIsDropped | frontend/src/hooks/useChat.ts:186-187 | for any one-line, trimmed, non-empty event name `e`, "event:e" + two newlines read at once gives the record (e, ""), while the same text read as "event:e\n" then "\n" gives no record |
| Dispatch.DecodePayload | frontend/src/hooks/useChat.ts:200-202 | empty data decodes to the empty map without parsing; other data is parsed |
| Dispatch.DispatchSpec | frontend/src/hooks/useChat.ts:199-223 | a failed parse drops the record; `token` appends `text` or ""; `done` finishes; a reasoning event appends its step; other names do nothing |
| Dispatch.MalformedRecordDropped | frontend/src/hooks/useChat.ts:221-227 | a record whose payload fails to parse contributes no action, and the records around it are still processed |
| Dispatch.ApplyAllEffect | frontend/src/hooks/useChat.ts:205-218 | content grows by the token texts in order, thoughts by the steps in order, streaming stops exactly when a `done` is applied, and id and role never change |
| Dispatch.ThroughSpec | frontend/src/hooks/useChat.ts:209-211 | consumption stops at the first `done`: what is applied is a prefix ending in the first `Finish`, and everything when there is none |
| Dispatch.DoneIsFinal | frontend/src/hooks/useChat.ts:209-211 | once a `done` has been read, neither later chunks nor how the stream ends change what the response does |
| Dispatch.StopAtDone | frontend/src/hooks/useChat.ts:209-211 | the actions up to the first record yielding `Finish` are the actions of the whole stream |
| Dispatch.FailureOrDoneSettles | frontend/src/hooks/useChat.ts:165-233 | a refused request, a failed read or a `done` leaves the assistant message not streaming |
| Dispatch.CleanCloseKeepsStreaming | frontend/src/hooks/useChat.ts:175-176 | a stream that closes without `done` leaves the assistant message streaming, with all token texts appended |
| Dispatch.BrokenStreamKeepsPartialResult | frontend/src/hooks/useChat.ts:231-233 | a failed read ends streaming and keeps every token and step that arrived before it |
| SessionStore.Preview | frontend/src/hooks/useChat.ts:99 | the preview is the first 40 characters of the text, or all of it when shorter |
| SessionStore.AppendExchangeSpec | frontend/src/hooks/useChat.ts:110-139 | only the target session changes: it gains exactly the user message and the pending reply, and its preview is replaced only when it had no messages |
| SessionStore.PreviewSetOnce | frontend/src/hooks/useChat.ts:135 | the first exchange of a session sets its preview and the next one keeps it |
| SessionStore.PatchAllSpec | frontend/src/hooks/useChat.ts:143-156 | a patch changes only the message `assistantId` in the session `sid`, and that message becomes the actions applied in order |
| SessionStore.PatchKeepsIds | frontend/src/hooks/useChat.ts:143-156 | patching never changes the list of session ids |
| SessionStore.PatchAbsentIsNoop | frontend/src/hooks/useChat.ts:146-151 | a patch is a no-op when the session or the message is absent |
| SessionStore.ExchangeResult | frontend/src/hooks/useChat.ts:110-156 | after an exchange the target session ends with the user message and the reply the actions built; no other session changes |
| SessionStore.ReplyContents | frontend/src/hooks/useChat.ts:204-218 | the reply's content is the token texts in order, its thoughts the steps in order, and it streams until a `done` or an error |
| SessionStore.OrphanActiveIdChangesNothing | frontend/src/hooks/useChat.ts:110-139 | an active id naming no session leaves the session list unchanged |
| SessionStore.ExchangeKeepsDistinctIds | frontend/src/hooks/useChat.ts:92-139 | with a fresh id for a new session, an exchange keeps session ids unique |
| SessionStore.PrependFreshKeepsDistinctIds | frontend/src/hooks/useChat.ts:64-73 | prepending a session with a fresh id keeps session ids unique |
| SessionStore.ChatStore.constructor | frontend/src/hooks/useChat.ts:51-55 | the stored list is loaded, its first session (if any) is active, and nothing is streaming |
| SessionStore.ChatStore.NewSession | frontend/src/hooks/useChat.ts:63-76 | an empty session labelled "New chat" is prepended, the list is saved, and the new session becomes active |
| SessionStore.ChatStore.SelectSession | frontend/src/hooks/useChat.ts:81-83 | only the active id changes |
| SessionStore.ChatStore.SendMessage | frontend/src/hooks/useChat.ts:88-244 | a no-op while streaming; otherwise the session list becomes the ensure/append/patch composition for the transport's actions, the target becomes active, the flag is cleared and the list is saved |
| SessionStore.ChatStore.ConsumeLine | frontend/src/hooks/useChat.ts:189-223 | one line moves the fields and the records exactly as the reference framer's step does; the list is patched with the actions of all records so far; `finished` is reported exactly when the new record dispatches to `done` |
| SessionStore.ChatStore.ReadStream | frontend/src/hooks/useChat.ts:171-233 | the read loop applies exactly the reference stream's actions to the list |
| ThoughtPanel.GroupsSpec | frontend/src/components/ThoughtProcess.tsx:227-236 | the blocks' steps concatenate to the thoughts, every block is non-empty and single-agent, and adjacent blocks have different agents |
| ThoughtPanel.GroupsCount | frontend/src/components/ThoughtProcess.tsx:230-235 | there is one block more than there are agent changes between neighbouring steps |
| ThoughtPanel.GroupsUnique | frontend/src/components/ThoughtProcess.tsx:227-236 | the grouping is the only well-grouped cut of the steps into blocks |
| ThoughtPanel.GroupThoughts | frontend/src/components/ThoughtProcess.tsx:210-236 | no panel for no thoughts; otherwise the loop builds exactly the reference grouping |
| ThoughtPanel.DisplayedResult | frontend/src/components/ThoughtProcess.tsx:93-96 | the full result when expanded or at most 120 characters; otherwise exactly its first 120 characters followed by "…" |
| Sidebar.DecimalRoundTrip | frontend/src/components/Sidebar.tsx:16-20 | a number is written in digits without leading zeros and reads back as itself |
| Sidebar.RelativeTimeBuckets | frontend/src/components/Sidebar.tsx:12-21 | under a minute (negative included) is "just now"; under an hour "{minutes}m ago" with 1..59; under a day "{hours}h ago" with 1..23; otherwise "{days}d ago" with days ≥ 1 |
| Sidebar.InvalidDateShowsNaN | frontend/src/components/Sidebar.tsx:13-20 | an unparsable creation time falls through every comparison and shows "NaNd ago" |
| Sidebar.SessionLabel | frontend/src/components/Sidebar.tsx:160 | the label is never empty: the preview, or "New chat" when the preview is empty |
| Tools.Lower | backend/app/tools.py:13 | lowering keeps the length; each of `A`..`Z` becomes the small letter 32 code points above it, every other character is kept, and no capital is left |
| Tools.LowerSpec | backend/app/tools.py:15 | lowering is idempotent, and lowering a concatenation lowers each part, as the haystack built from title, space and content needs |
| Tools.WordsSpec | backend/app/tools.py:13 | `split()` yields non-empty words without white space, and none exactly when the query is all white space |
| Tools.WordsAreRuns | backend/app/tools.py:13 | a non-empty space-free text is one word, and a white-space character cuts a text into the words before it followed by the words after it: the words are the maximal non-space runs, in order |
| Tools.ContainsAcrossSpace | backend/app/tools.py:15-16 | a space-free keyword occurs in `a + " " + b` exactly when it occurs in `a` or in `b` |
| Tools.FindNotion | backend/app/tools.py:14-16 | the least index of a document whose lowered title and content contain a keyword, or none when no document does |
| Tools.FindSlack | backend/app/tools.py:31-33 | the least index of a message whose lowered text contains a keyword, or none when no message does |
| Tools.ReadNotionMock | backend/app/tools.py:8-22 | the first matching document in list order, formatted with title and date, or the not-found text quoting the query as given |
| Tools.ReadSlackMock | backend/app/tools.py:25-39 | the first message whose text matches, formatted with channel, user and date, or the not-found text quoting the query as given |
| Tools.NotionMatchIsTitleOrContent | backend/app/tools.py:15-16 | a document matches exactly when a keyword occurs in its lowered title or in its lowered content |
| Tools.BlankQueryFindsNothing | backend/app/tools.py:8-39 | an empty or all-white-space query finds nothing in either tool |
| Tools.ExecuteTool | backend/app/tools.py:46-56 | the two registered names run their tool on the query; any other name gives "Unknown tool: " + name |

## Left out

- Storage (frontend/src/lib/storage.ts) is not part of this model. Saving is the ghost field `persisted`, a snapshot of the list last saved. Loading is the constructor's argument. A JSON round trip of the list is not stated.
- The network is a `Transport` value: refused (fetch fails, a non-ok status, or no body), or a sequence of decoded text chunks ending in a clean close or a failed read. `fetch`, `reader.read()` and the streaming UTF-8 decoder are not modelled. Chunks are already-decoded text.
- `JSON.parse` is a parameter from data text to a string map or failure. The kinds of JSON value (non-object results, non-string fields) are not modelled. For example, a `done` whose data parses to `null` still finishes in the code, while a parser that maps it to failure drops it.
- Ids from `uuidv4` and times from `Date` are parameters. `relativeTime` takes the elapsed milliseconds, or NaN.
- React scheduling is not modelled: `useState`, the `useCallback` closures that capture a stale `isStreaming`/`activeSessionId`, and `await`. `sendMessage` runs as one sequential method on the current state.
- `console.error`, `API_URL` and the request body are not modelled. They do not affect state.
- A char is a Unicode scalar value; text with characters outside the BMP, which JavaScript counts as two units in `slice`/`length`, is not modelled. This concerns `slice(0, 40)` for the preview and `PREVIEW_LEN` for tool results.
- Tools.Lower: ASCII capitals only; other characters are kept unchanged, because Python's Unicode `lower()` table is out of scope.
- Tools.WordsSpec: white space is ASCII only (space, `\t`..`\r`, `\x1c`..`\x1f`). Python's Unicode white space is out of scope.
- Loading the JSON data files in tools.py is not modelled: documents and messages are passed in. A document missing a key (a `KeyError` in the source) is not modelled, because the data model always has every field.
- The tool schemas (`TOOL_SCHEMAS`) are configuration, not logic.
- The rendering of the panel and sidebar is presentation, beyond the computed groups, preview text and labels.
