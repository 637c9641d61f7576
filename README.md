# Deep Research client core, modelled in Dafny

This project models the sequential logic of `skills/deep-research/scripts/research.py`, the client for the Gemini Deep Research interactions API. It proves properties of that logic. It covers:

- **History** (`history.dfy`, module `History`): the `HistoryManager` cache. This is a newest-first list of interaction records keyed by id.
  - The JSON document becomes the `records` field of the class `HistoryStore`.
  - `add_interaction`, `update_status` and `get_interaction` are methods whose loops are proved against the specification functions `Upsert`, `SetStatus` and `Lookup`. `get_recent` has no loop; its method returns the slice `Recent`. The properties of those functions are stated as lemmas:
    - an existing record is refreshed in place;
    - a new record goes first, with the list capped at 50;
    - queries are truncated at 200 characters;
    - `completed_at` is set exactly for "completed";
    - nothing else changes.
- **Server-sent-event decoder** (`sse.dfy`, module `Sse`): the buffer loop of `stream_research`.
  - The class `StreamSession` keeps the text `buffer`, the current `interactionId` and the shared history.
  - `Feed` appends a chunk and handles every complete "\n\n"-terminated block.
  - `HandleBlock` does the following:
    - it skips blank blocks;
    - it takes the first `data: ` line and strips the prefix;
    - it skips an empty payload or one that does not parse;
    - it maps the document by `event_type` to a start, text, thought, complete or error event;
    - it applies the history writes.
  - Both methods are proved against the specification functions `SplitFrames`, `Events` and `Effects`.
  - The lemmas show the following:
    - framing loses nothing and leaves no terminator in the buffer;
    - the blocks and events do not depend on how the text was chunked;
    - events come out in arrival order;
    - a stream written in the wire format decodes back to the events it carries.
- **Client** (`client.dfy`, module `Client`):
  - `_build_prompt`, the start request body, and the id rule of `start_research` (`id`, else the last `/`-segment of `name`).
  - The `get_status` response mapping.
  - `wait_for_completion`, as the method `ResearchClient.WaitForCompletion`. It runs the polling loop `PollUntilDone`, which is proved against the specification function `WaitFrom`, and then records the outcome in the history.
  - The strategy order of `parse_result`.

JSON documents are the datatype `Json.Value`. The JSON parser (`json.loads`) is a parameter `parse: string -> Option<Value>`. HTTP responses are inputs (`HttpResponse`, `LookupResponse`). Timestamps are opaque strings supplied by the caller. The event-loop clock is a sequence of elapsed-time readings in milliseconds.

Python's `x or default` treats a timeout of 0 as missing. `wait_for_completion(timeout=0)` therefore waits for the configured default timeout; it does not give up at once. The model follows the code, and `ZeroTimeoutFallsBack` states the consequence. The deadline test is strict (`elapsed > timeout`).

## Model

| member | source | states |
|---|---|---|
| Json.Get | skills/deep-research/scripts/research.py:293-319 | `obj.get(key, default)`: the member when the value is an object holding the key, the default otherwise |
| Json.FalsyValues | skills/deep-research/scripts/research.py:165-168 | the values `if value:` and `or` treat as false are exactly null, false, 0, "", [] and {} |
| History.StoredQuery | skills/deep-research/scripts/research.py:70 | a query of at most 200 characters is stored unchanged; a longer one is stored as its first 200 characters followed by "...", 203 in all |
| History.IndexOf | skills/deep-research/scripts/research.py:62-63 | the position found holds the id and no earlier record does; nothing is found exactly when no record has the id |
| History.IndexOfUnique | skills/deep-research/scripts/research.py:62-63 | the first position holding the id is the one the loop stops at |
| History.Lookup | skills/deep-research/scripts/research.py:92-97 | finds the first record of the list with the id (no earlier record has it), and finds nothing exactly when no record has the id |
| History.Upsert | skills/deep-research/scripts/research.py:60-75 | a present id keeps the length; a new id is put first and the length becomes min(n + 1, 50) |
| History.UpsertExisting | skills/deep-research/scripts/research.py:60-67 | for an id already present, only that record's status and updated_at change; length, query, started_at and every other record are kept |
| History.UpsertNew | skills/deep-research/scripts/research.py:68-74 | for a new id the record (id, truncated query, started_at = now, status) is first, the old list follows shifted by one, and the length is min(n + 1, 50), evicting the oldest record of a full list |
| History.UpsertBounded | skills/deep-research/scripts/research.py:74 | a history of at most 50 records stays at most 50 records |
| History.LookupAfterUpsert | skills/deep-research/scripts/research.py:60-74 | after an upsert the id is found with the new status: the old record with status and updated_at refreshed, or the new record |
| History.UpsertKeepsOthers | skills/deep-research/scripts/research.py:60-74 | an upsert does not change what any other id finds, unless it inserted into a full list and that id's first record sat at the last place the list keeps, so it was evicted |
| History.SetStatusAbsent | skills/deep-research/scripts/research.py:77-86 | updating an id that is not present leaves the list unchanged |
| History.SetStatusPresent | skills/deep-research/scripts/research.py:77-86 | only the first matching record changes: status and updated_at are set, completed_at is set if and only if the status is "completed", and every other record is kept |
| History.SetStatusReadBack | skills/deep-research/scripts/research.py:77-86 | right after `update_status`, a present id reads back as its record with the new status and updated_at, and with completed_at set when the status is "completed"; an absent id stays absent |
| History.SetStatusKeepsOthers | skills/deep-research/scripts/research.py:77-86 | `update_status` on one id does not change what any other id finds |
| History.SetStatus | skills/deep-research/scripts/research.py:77-86 | a status update keeps the length and the id at every position |
| History.SetStatusIdempotent | skills/deep-research/scripts/research.py:77-86 | writing the same status twice is one write at the later time |
| History.Recent | skills/deep-research/scripts/research.py:88-90 | the slice `[:limit]` is a prefix of the list: min(limit, n) records for limit ≥ 0, and n + limit records (at least 0) for a negative limit |
| History.HistoryStore.constructor | skills/deep-research/scripts/research.py:49-55 | the store holds the loaded interactions list |
| History.HistoryStore.AddInteraction | skills/deep-research/scripts/research.py:60-75 | the scan with early return leaves the list equal to `Upsert` of the old list |
| History.HistoryStore.UpdateStatus | skills/deep-research/scripts/research.py:77-86 | the scan with `break` leaves the list equal to `SetStatus` of the old list |
| History.HistoryStore.GetRecent | skills/deep-research/scripts/research.py:88-90 | returns Python's slice `[:limit]` of the list, negative limits included |
| History.HistoryStore.GetInteraction | skills/deep-research/scripts/research.py:92-97 | returns a record of the list with that id (the first), and None exactly when no record has the id |
| Sse.FindTerminatorFrom | skills/deep-research/scripts/research.py:273 | finds the first "\n\n" at or after a position, or reports that there is none |
| Sse.FindTerminatorIs | skills/deep-research/scripts/research.py:273-274 | a terminator with none before it is the one `split("\n\n", 1)` cuts at |
| Sse.SplitFrames | skills/deep-research/scripts/research.py:273-274 | what stays in the buffer after the inner loop never contains "\n\n" |
| Sse.SplitFramesRoundTrip | skills/deep-research/scripts/research.py:273-274 | the blocks, each followed by "\n\n", and then the remainder, give back the buffer text |
| Sse.UnsplitSplitFrames | skills/deep-research/scripts/research.py:273-274 | framing recovers exactly the blocks and the remainder they were joined from, when no block holds a terminator or ends in a newline |
| Sse.SplitFramesAppend | skills/deep-research/scripts/research.py:271-274 | appending text keeps the blocks already complete and frames the old remainder plus the new text after them |
| Sse.ChunkingInvariance | skills/deep-research/scripts/research.py:270-274 | handling chunks one by one yields the blocks, in order, and the remainder of framing their concatenation at once |
| Sse.SameTextSameBlocks | skills/deep-research/scripts/research.py:270-274 | two chunkings of the same text yield the same blocks and remainder |
| Sse.Lines | skills/deep-research/scripts/research.py:280 | `split("\n")` gives at least one line and no line contains a newline |
| Sse.LinesRoundTrip | skills/deep-research/scripts/research.py:280 | joining the lines with "\n" gives back the block |
| Sse.LinesSingle | skills/deep-research/scripts/research.py:280 | a text without newlines is a single line |
| Sse.FirstDataIndex | skills/deep-research/scripts/research.py:280-283 | the line chosen starts with `data: ` and no earlier line does; none is chosen exactly when no line does |
| Sse.DataPayload | skills/deep-research/scripts/research.py:279-283 | a payload exists exactly when some line starts with `data: `; it is the first such line with its 6-character prefix cut, and it holds no newline |
| Sse.FindDataLine | skills/deep-research/scripts/research.py:279-283 | the loop yields a payload exactly when some line starts with `data: `; the payload is the first such line with the 6-character prefix removed |
| Sse.LinesOfBlank | skills/deep-research/scripts/research.py:276-280 | every line of a blank block is blank |
| Sse.BlankBlockHasNoData | skills/deep-research/scripts/research.py:276-283 | a block that `strip()` empties has no `data: ` line |
| Sse.StripEmptyIffBlank | skills/deep-research/scripts/research.py:276 | `strip()` empties a block exactly when every character of it is whitespace, so the blank test `IsBlank` is Python's |
| Sse.DecodeBlock | skills/deep-research/scripts/research.py:276-291 | a document comes out only from a non-empty first data payload, and that payload is always handed to the parser |
| Sse.Classify | skills/deep-research/scripts/research.py:293-319 | an event comes out exactly for the four known event types, and for content.delta only with delta type text or thought_summary; its kind matches the `event_type` and delta type; a start carries `interaction.id`, a text carries `delta.text` (default ""), a thought carries `delta.content.text` (default ""), and an error carries `error` (default "Unknown error") |
| Sse.ClassifyEventDocument | skills/deep-research/scripts/research.py:293-319 | every event, written as the server writes it, maps back to itself |
| Sse.BlockEvent | skills/deep-research/scripts/research.py:276-319 | a blank block, a block without a non-empty first data payload, and a payload that does not parse give no event; a payload that parses gives the classification of the parsed document |
| Sse.Events | skills/deep-research/scripts/research.py:273-319 | a run of blocks gives at most one event per block |
| Sse.EventsAppend | skills/deep-research/scripts/research.py:273-319 | consecutive runs of blocks emit their events one after the other, so nothing is reordered or held back, and complete and error do not end the stream |
| Sse.Step | skills/deep-research/scripts/research.py:295-318 | only a start event changes the interaction id, to the one it carries; text and thought events change nothing; complete and error change nothing while no id is set |
| Sse.StepWrites | skills/deep-research/scripts/research.py:295-318 | a start with a non-empty id makes that id read back as "streaming", and a start with any other id writes nothing; complete and error make a present current id read back as "completed", with completed_at set, or as "failed" |
| Sse.StepKeepsOthers | skills/deep-research/scripts/research.py:295-318 | one event does not change what any id other than the one it writes finds, unless a start inserted into a full list and evicted that id's record |
| Sse.Effects | skills/deep-research/scripts/research.py:295-318 | a run of text and thought events changes nothing, nor does a run without a start while no id is set |
| Sse.EffectsAppend | skills/deep-research/scripts/research.py:295-318 | the history effects of two runs of events compose in order |
| Sse.StartThenComplete | skills/deep-research/scripts/research.py:295-314 | a start for id s followed by complete leaves s as the current id and in the history as completed, with completed_at set |
| Sse.DecodeWire | skills/deep-research/scripts/research.py:270-319 | a stream of `data: <json>` blocks decodes to exactly the events it carries, in order, and leaves the buffer empty |
| Sse.EventsOfWire | skills/deep-research/scripts/research.py:276-319 | the wire blocks of a list of events yield exactly those events |
| Sse.StreamSession.constructor | skills/deep-research/scripts/research.py:267-268 | a session starts with an empty buffer and no interaction id |
| Sse.StreamSession.Apply | skills/deep-research/scripts/research.py:295-319 | applies one event's effect on the interaction id and the history: start replaces the id and records a non-empty one as "streaming", while complete and error mark the current id "completed" or "failed" |
| Sse.StreamSession.HandleBlock | skills/deep-research/scripts/research.py:276-319 | handles one block: the event it emits is the block's event, if any, and its effects are applied |
| Sse.StreamSession.Feed | skills/deep-research/scripts/research.py:271-319 | after a chunk, the buffer is the unterminated remainder, holds no "\n\n", and the events are those of the blocks completed, with their effects applied in order |
| Sse.StreamSession.Run | skills/deep-research/scripts/research.py:267-319 | over a whole response, the events and the final buffer are those of framing the concatenated text |
| Client.BuildPrompt | skills/deep-research/scripts/research.py:126-130 | the prompt is the query, and with a non-empty format spec it is followed by the format header and then the spec |
| Client.StartRequest | skills/deep-research/scripts/research.py:141-148 | the request body carries input, agent and background, and carries previous_interaction_id exactly when one is given non-empty |
| Client.LastSegment | skills/deep-research/scripts/research.py:165 | `split("/")[-1]` is the longest slash-free suffix |
| Client.LastSegmentOfPath | skills/deep-research/scripts/research.py:165 | a name "prefix/segment" yields its segment |
| Client.ExtractId | skills/deep-research/scripts/research.py:165-168 | a non-empty string `id` is the id; without a truthy `id`, the last segment of `name` is the id; an id, when there is one, is never empty |
| Client.ExtractIdExamples | skills/deep-research/scripts/research.py:165-168 | `id` wins over `name`; a resource name yields its last segment; a name ending in "/" and an empty document give no id |
| Client.StartOutcome | skills/deep-research/scripts/research.py:160-174 | start succeeds exactly on a 200 response with an id; a 200 response with no id is a missing-id error; any other code is an API error carrying the code and body text, and a transport failure is an HTTP error |
| Client.GetStatus | skills/deep-research/scripts/research.py:176-204 | on a 200 response the result is done exactly when the remote status is "completed", a failure exactly when it is "failed", and pending otherwise, reporting the remote status (default "unknown"); a completed result carries the last output's text or none, and a failed one carries its error (default "Unknown error"); another code gives an API error with that code, and a transport failure gives an error with its message |
| Client.CompletedResult | skills/deep-research/scripts/research.py:192-197 | a completed body whose outputs end in an output o gives result `o.get("text", "")`, whatever the rest of the body holds |
| Client.CompletedWithoutOutputs | skills/deep-research/scripts/research.py:192-197 | a completed body with no outputs, or an empty list, gives no result |
| Client.LastOutputText | skills/deep-research/scripts/research.py:193-197 | the text of the last output (default ""), and none for a missing, empty or non-list `outputs` |
| Client.OrDefault | skills/deep-research/scripts/research.py:213-214 | a missing or zero setting falls back to the default, and any other setting is used |
| Client.RecordedStatus | skills/deep-research/scripts/research.py:220-235 | the wait records "timeout" exactly when it timed out, "completed" exactly when the result is completed, and "failed" otherwise |
| Client.WaitFrom | skills/deep-research/scripts/research.py:218-237 | the wait ends within the clock readings; it times out only at a check past the deadline, and it finishes only with a terminal poll result taken within the deadline |
| Client.WaitFromOutcome | skills/deep-research/scripts/research.py:218-237 | the wait times out at the first check past the deadline, after one poll per earlier check, all of them non-terminal; or it returns the first terminal poll result, with every check up to it within the deadline |
| Client.TimeoutBeforeFirstPoll | skills/deep-research/scripts/research.py:219-222 | a deadline already passed at the first check ends the wait with no poll |
| Client.ZeroTimeoutFallsBack | skills/deep-research/scripts/research.py:213-220 | a timeout of 0 falls back to the default, so a wait starting at elapsed 0 polls at least once |
| Client.ErrorIsNotRetried | skills/deep-research/scripts/research.py:199-235 | a poll whose status is "error" ends the wait at once and is recorded as "failed": a non-200 lookup, a lookup that never reached the server, or a remote status "error" passed through |
| Client.ParseResult | skills/deep-research/scripts/research.py:324-347 | empty text gives nothing; the whole text wins when it parses; the fenced block is next, then the flat object; nothing comes out only when every strategy fails |
| Client.ResearchClient.constructor | skills/deep-research/scripts/research.py:113-115 | the client holds its history, default timeout and poll interval |
| Client.ResearchClient.StartResearch | skills/deep-research/scripts/research.py:132-174 | posts the request body for the built prompt and returns the outcome for the response; a started id is upserted into the history as "started", and on failure the history is untouched |
| Client.PollUntilDone | skills/deep-research/scripts/research.py:218-237 | the loop ends as `WaitFrom` says; progress is (poll count, elapsed, status) after every poll, with one sleep of the interval per non-terminal poll |
| Client.ResearchClient.WaitForCompletion | skills/deep-research/scripts/research.py:206-237 | with the effective timeout and interval (`x or default`), the result, poll count, progress and sleeps are those of the polling loop; the history then records how the wait ended |
| Client.StartThenCompleted | skills/deep-research/scripts/research.py:160-237 | a start returning "abc" followed by one completed poll with output "hello" returns "hello" and leaves "abc" completed, with completed_at set |

## Left out

- HTTP transport is not modelled: the httpx client, the requests themselves, the API key header and the URLs. Responses are inputs instead. An `httpx.HTTPError` in `get_status` and `start_research` appears as a transport-failure response. The HTTP error event `stream_research` yields when the stream itself fails is not modelled.
- `response.json()` raising on a body that is not JSON is not modelled: bodies are already-decoded values.
- File persistence is not modelled: the cache directory, reading and writing `history.json`, and a document that fails to load. The store starts from whatever list was loaded.
- Python `.get` on a value that is not a dict raises `AttributeError`; the model reads such a value as the default instead. This affects an event document, its `interaction` or `delta` member that is not an object, and a `get_status` body whose `outputs` is a non-empty non-list.
- Client.ExtractId: an `id` that is truthy but not a string (a number, say) is returned by the source as the interaction id; the model reports it as a missing id.
- Client.ExtractId: a `name` that is not a string (null, say) makes the source's `.split` raise `AttributeError`; the model reports a missing id instead.
- Sse.Step: a truthy interaction id that is not a string is not recorded in the history; the source would record it.
- Timestamps are opaque; one `now` is supplied per operation. `update_status` reads the clock twice, once for `updated_at` and once for `completed_at`; the model gives both the same value.
- Elapsed time is read in whole milliseconds; the source uses the event loop's floating-point clock.
- The sleep itself (`asyncio.sleep`) is not modelled. The method reports the interval it would sleep for, and the clock readings carry the passage of time.
- The progress callback is not called; the method returns the list of arguments it would have received.
- The regular expressions and `json.loads` inside `parse_result` are parameters: the parser, the fenced-block matcher and the flat-object matcher.
- Client.ParseResult: text that parses to JSON `null` gives `Some(JNull)`; the source returns `None`, the same value as a failed parse.
- JSON numbers are integers only; fractions and exponents are not modelled.
- `stream_research` is a lazy generator. Later blocks' history writes happen only as the consumer pulls events, and the console command stops pulling at the first error event. `Feed` handles every block of a chunk, so the model assumes a consumer that reads the whole stream.
- Sse.StreamSession.Run: one `now` serves the whole response, so a record the stream starts and completes gets the same started_at and completed_at; the source reads the clock at each write.
- The request body of `stream_research` is not modelled; it is a fixed document sent over the network.
- `print_progress`, the `cmd_*` commands, `main`, argument parsing, `.env` loading and the API-key check are not modelled; they are console and configuration plumbing.
