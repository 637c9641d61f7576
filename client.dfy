/** `DeepResearchClient` without its transport: the prompt it sends, the
    interaction id it reads from a creation response, the mapping of a status
    lookup to a result, the start operation's history write, the polling loop
    of `wait_for_completion`, and the strategy order of `parse_result`.
    HTTP responses, clock readings and the JSON parser are inputs. */
module Client {
  import opened Json
  import opened History

  const Agent := "deep-research-pro-preview-12-2025"
  const FormatHeader := "\n\nFormat the output with the following structure:\n"

  // ---------------------------------------------------------------------
  // Prompt and request
  // ---------------------------------------------------------------------

  /** `_build_prompt`: the query, followed by the format instructions when a
      non-empty format specification is given. */
  function BuildPrompt(query: string, formatSpec: Option<string>): (r: string)
    ensures |r| >= |query| && r[..|query|] == query
    ensures formatSpec.None? || formatSpec.value == "" ==> r == query
    ensures formatSpec.Some? && formatSpec.value != "" ==>
              && |r| == |query| + |FormatHeader| + |formatSpec.value|
              && r[|query|..|query| + |FormatHeader|] == FormatHeader
              && r[|query| + |FormatHeader|..] == formatSpec.value
  {
    if formatSpec.Some? && formatSpec.value != "" then query + FormatHeader + formatSpec.value else query
  }

  /** The body `start_research` posts. */
  function StartRequest(prompt: string, previousId: Option<string>): (r: Value)
    ensures r.JObj?
    ensures "input" in r.fields && r.fields["input"] == JStr(prompt)
    ensures "agent" in r.fields && r.fields["agent"] == JStr(Agent)
    ensures "background" in r.fields && r.fields["background"] == JBool(true)
    ensures "previous_interaction_id" in r.fields <==> previousId.Some? && previousId.value != ""
    ensures "previous_interaction_id" in r.fields ==> r.fields["previous_interaction_id"] == JStr(previousId.value)
    ensures r.fields.Keys <= {"input", "agent", "background", "previous_interaction_id"}
  {
    var base := map["input" := JStr(prompt), "agent" := JStr(Agent), "background" := JBool(true)];
    if previousId.Some? && previousId.value != "" then
      JObj(base["previous_interaction_id" := JStr(previousId.value)])
    else
      JObj(base)
  }

  // ---------------------------------------------------------------------
  // The interaction id of a creation response
  // ---------------------------------------------------------------------

  /** `name.split("/")[-1]`: the longest suffix without a slash. */
  function LastSegment(s: string): (r: string)
    ensures |r| <= |s| && r == s[|s| - |r|..]
    ensures forall i :: 0 <= i < |r| ==> r[i] != '/'
    ensures |r| < |s| ==> s[|s| - |r| - 1] == '/'
  {
    if s == [] then ""
    else if s[|s| - 1] == '/' then ""
    else LastSegment(s[..|s| - 1]) + [s[|s| - 1]]
  }

  /** A resource name "prefix/segment" yields its segment. */
  lemma {:induction false} LastSegmentOfPath(prefix: string, segment: string)
    requires forall i :: 0 <= i < |segment| ==> segment[i] != '/'
    ensures LastSegment(prefix + "/" + segment) == segment
    decreases |segment|
  {
    var s := prefix + "/" + segment;
    if segment == [] {
      assert s[|s| - 1] == '/';
    } else {
      var init := segment[..|segment| - 1];
      assert s[..|s| - 1] == prefix + "/" + init;
      LastSegmentOfPath(prefix, init);
      assert segment == init + [segment[|segment| - 1]];
    }
  }

  /** `data.get("id") or data.get("name", "").split("/")[-1]`, empty meaning
      "no interaction id". */
  function ExtractId(data: Value): (r: Option<string>)
    ensures r.Some? ==> r.value != ""
    ensures IsId(Get(data, "id", JNull)) ==> r == Some(Get(data, "id", JNull).s)
    ensures !Truthy(Get(data, "id", JNull)) && Get(data, "name", JStr("")).JStr? ==>
              r == (var seg := LastSegment(Get(data, "name", JStr("")).s); if seg == "" then None else Some(seg))
  {
    var id := Get(data, "id", JNull);
    if Truthy(id) then
      if id.JStr? then Some(id.s) else None
    else
      var name := Get(data, "name", JStr(""));
      if name.JStr? && LastSegment(name.s) != "" then Some(LastSegment(name.s)) else None
  }

  /** An `id` field wins over `name`; without it the last segment of a
      resource name is the id; a name ending in "/" gives no id. */
  lemma ExtractIdExamples(id: string, prefix: string, segment: string)
    requires id != "" && segment != ""
    requires forall i :: 0 <= i < |segment| ==> segment[i] != '/'
    ensures ExtractId(JObj(map["id" := JStr(id), "name" := JStr(prefix + "/" + segment)])) == Some(id)
    ensures ExtractId(JObj(map["name" := JStr(prefix + "/" + segment)])) == Some(segment)
    ensures ExtractId(JObj(map["name" := JStr(prefix + "/")])) == None
    ensures ExtractId(JObj(map[])) == None
  {
    LastSegmentOfPath(prefix, segment);
    assert LastSegment(prefix + "/") == "";
  }

  /** A transport-level response: the status code, the body text and the
      decoded body, or a connection failure. */
  datatype HttpResponse =
    | Response(code: int, text: string, body: Value)
    | ConnectionFailure(message: string)

  /** What `start_research` raises. */
  datatype StartError =
    | ApiError(code: int, body: string)
    | MissingId
    | HttpError(message: string)

  datatype StartResult = Accepted(id: string) | Rejected(error: StartError)

  /** The outcome of `start_research` for a given response. */
  function StartOutcome(response: HttpResponse): (r: StartResult)
    ensures r.Accepted? <==> response.Response? && response.code == 200 && ExtractId(response.body).Some?
    ensures r.Accepted? ==> r.id == ExtractId(response.body).value && r.id != ""
    ensures response.Response? && response.code != 200 ==> r == Rejected(ApiError(response.code, response.text))
    ensures response.Response? && response.code == 200 && ExtractId(response.body).None? ==> r == Rejected(MissingId)
    ensures response.ConnectionFailure? ==> r == Rejected(HttpError(response.message))
  {
    match response
    case ConnectionFailure(message) => Rejected(HttpError(message))
    case Response(code, text, body) =>
      if code != 200 then Rejected(ApiError(code, text))
      else match ExtractId(body)
        case None => Rejected(MissingId)
        case Some(id) => Accepted(id)
  }

  // ---------------------------------------------------------------------
  // Status lookup
  // ---------------------------------------------------------------------

  /** A status lookup response: code and decoded body, or a transport failure. */
  datatype LookupResponse = Reply(code: int, body: Value) | Unreachable(message: string)

  /** The dictionaries `get_status` returns. */
  datatype StatusResult =
    | Done(result: Value, raw: Value)      // status "completed"; result is None (JNull) without outputs
    | RemoteFailure(error: Value)          // status "failed"
    | Pending(status: Value, raw: Value)   // any other remote status, passed through
    | BadCode(code: int)                   // status "error", error "API error: <code>"
    | TransportError(message: string)      // status "error", error str(e)

  /** The `status` entry of a result. */
  function StatusOf(r: StatusResult): Value
  {
    match r
    case Done(_, _) => JStr("completed")
    case RemoteFailure(_) => JStr("failed")
    case Pending(status, _) => status
    case BadCode(_) => JStr("error")
    case TransportError(_) => JStr("error")
  }

  /** `data.get("status", "unknown")`. */
  function RemoteStatus(body: Value): Value
  {
    Get(body, "status", JStr("unknown"))
  }

  /** The text of the last output, "" if it has none; nothing when there
      are no outputs. */
  function LastOutputText(body: Value): (r: Value)
    ensures Get(body, "outputs", JArr([])) == JArr([]) ==> r == JNull
    ensures !Get(body, "outputs", JArr([])).JArr? ==> r == JNull
    ensures var outputs := Get(body, "outputs", JArr([]));
            outputs.JArr? && outputs.items != [] ==> r == Get(outputs.items[|outputs.items| - 1], "text", JStr(""))
  {
    var outputs := Get(body, "outputs", JArr([]));
    if outputs.JArr? && outputs.items != [] then
      Get(outputs.items[|outputs.items| - 1], "text", JStr(""))
    else JNull
  }

  /** `get_status`: the local status is the remote one (default "unknown")
      whenever the lookup answered 200, and "error" otherwise. */
  function GetStatus(response: LookupResponse): (r: StatusResult)
    ensures response.Reply? && response.code == 200 ==> StatusOf(r) == RemoteStatus(response.body)
    ensures !(response.Reply? && response.code == 200) ==> StatusOf(r) == JStr("error")
    ensures response.Reply? && response.code == 200 ==>
              && (r.Done? <==> RemoteStatus(response.body) == JStr("completed"))
              && (r.RemoteFailure? <==> RemoteStatus(response.body) == JStr("failed"))
              && (r.Pending? <==> RemoteStatus(response.body) !in {JStr("completed"), JStr("failed")})
    ensures response.Reply? && response.code != 200 ==> r == BadCode(response.code)
    ensures response.Unreachable? ==> r == TransportError(response.message)
    ensures r.Done? ==> response.Reply? && r.raw == response.body && r.result == LastOutputText(response.body)
    ensures r.RemoteFailure? ==> response.Reply? && r.error == Get(response.body, "error", JStr("Unknown error"))
    ensures r.Pending? ==> response.Reply? && r.raw == response.body
    ensures r.BadCode? ==> response.Reply? && r.code == response.code
  {
    match response
    case Unreachable(message) => TransportError(message)
    case Reply(code, body) =>
      if code != 200 then BadCode(code)
      else
        var status := RemoteStatus(body);
        if status == JStr("completed") then Done(LastOutputText(body), body)
        else if status == JStr("failed") then RemoteFailure(Get(body, "error", JStr("Unknown error")))
        else Pending(status, body)
  }

  /** A completed interaction whose outputs end in o yields o's text ("" if
      it has none), whatever other members the body carries. */
  lemma CompletedResult(fields: map<string, Value>, outputs: seq<Value>, last: Value)
    requires "status" in fields && fields["status"] == JStr("completed")
    requires "outputs" in fields && fields["outputs"] == JArr(outputs + [last])
    ensures GetStatus(Reply(200, JObj(fields))) == Done(Get(last, "text", JStr("")), JObj(fields))
  {
    var items := outputs + [last];
    assert items[|items| - 1] == last;
  }

  /** A completed interaction with no outputs, or an empty list of them, is
      still completed, with no result. */
  lemma CompletedWithoutOutputs(fields: map<string, Value>)
    requires "status" in fields && fields["status"] == JStr("completed")
    requires "outputs" !in fields || fields["outputs"] == JArr([])
    ensures GetStatus(Reply(200, JObj(fields))) == Done(JNull, JObj(fields))
  {
  }

  // ---------------------------------------------------------------------
  // Waiting for completion
  // ---------------------------------------------------------------------

  /** `setting or default`: a missing or zero setting falls back to the default. */
  function OrDefault(setting: Option<int>, default: int): (r: int)
    ensures setting.Some? && setting.value != 0 ==> r == setting.value
    ensures setting.None? || setting.value == 0 ==> r == default
  {
    if setting.Some? && setting.value != 0 then setting.value else default
  }

  /** Statuses that end the wait: "completed", "failed" and "error". */
  predicate IsTerminal(r: StatusResult)
  {
    StatusOf(r) == JStr("completed") || StatusOf(r) == JStr("failed") || StatusOf(r) == JStr("error")
  }

  /** The deadline test `elapsed > timeout`, with elapsed time read in
      milliseconds and the timeout given in seconds. */
  predicate PastDeadline(elapsedMs: nat, timeout: int)
  {
    elapsedMs > timeout * 1000
  }

  /** What `wait_for_completion` returns. */
  datatype WaitResult = Expired(timeout: int) | Finished(result: StatusResult)

  /** The status the wait writes to the history when it ends. */
  function RecordedStatus(w: WaitResult): (s: string)
    ensures s in {TimedOut, Completed, Failed}
    ensures s == TimedOut <==> w.Expired?
    ensures s == Completed <==> w.Finished? && StatusOf(w.result) == JStr("completed")
  {
    match w
    case Expired(_) => TimedOut
    case Finished(r) => if StatusOf(r) == JStr("completed") then Completed else Failed
  }

  /** The readings the loop consumes: the k-th deadline check sees clock[k],
      the k-th poll returns polls[k]. The clock eventually passes the
      deadline, so the loop ends within the readings. */
  predicate Readings(clock: seq<nat>, polls: seq<StatusResult>, timeout: int)
  {
    |clock| > 0 && PastDeadline(clock[|clock| - 1], timeout) && |polls| + 1 >= |clock|
  }

  datatype WaitRun = WaitRun(result: WaitResult, pollCount: nat)

  /** The loop from its k-th iteration on: deadline check, poll, then a
      terminal return or another round. */
  function WaitFrom(clock: seq<nat>, polls: seq<StatusResult>, timeout: int, k: nat): (run: WaitRun)
    requires Readings(clock, polls, timeout) && k < |clock|
    ensures k <= run.pollCount < |clock| && run.pollCount <= |polls|
    ensures run.result.Expired? ==> run.result.timeout == timeout && PastDeadline(clock[run.pollCount], timeout)
    ensures run.result.Finished? ==>
              && k < run.pollCount
              && run.result.result == polls[run.pollCount - 1] && IsTerminal(run.result.result)
              && !PastDeadline(clock[run.pollCount - 1], timeout)
    decreases |clock| - k
  {
    if PastDeadline(clock[k], timeout) then WaitRun(Expired(timeout), k)
    else if IsTerminal(polls[k]) then WaitRun(Finished(polls[k]), k + 1)
    else WaitFrom(clock, polls, timeout, k + 1)
  }

  /** How a wait ends. It times out at the first check past the deadline,
      having polled once per earlier check and seen only non-terminal
      statuses; or it returns the first terminal poll result, every check
      up to it being within the deadline. */
  lemma {:induction false} WaitFromOutcome(clock: seq<nat>, polls: seq<StatusResult>, timeout: int, k: nat)
    requires Readings(clock, polls, timeout) && k < |clock|
    requires forall j :: 0 <= j < k ==> !PastDeadline(clock[j], timeout) && !IsTerminal(polls[j])
    ensures var run := WaitFrom(clock, polls, timeout, k);
      && (run.result.Expired? ==>
            && run.result.timeout == timeout
            && run.pollCount < |clock| && PastDeadline(clock[run.pollCount], timeout)
            && forall j :: 0 <= j < run.pollCount ==> !PastDeadline(clock[j], timeout) && !IsTerminal(polls[j]))
      && (run.result.Finished? ==>
            && 1 <= run.pollCount <= |polls| && run.pollCount < |clock|
            && run.result.result == polls[run.pollCount - 1] && IsTerminal(run.result.result)
            && !PastDeadline(clock[run.pollCount - 1], timeout)
            && forall j :: 0 <= j < run.pollCount - 1 ==> !PastDeadline(clock[j], timeout) && !IsTerminal(polls[j]))
    decreases |clock| - k
  {
    if !PastDeadline(clock[k], timeout) && !IsTerminal(polls[k]) {
      WaitFromOutcome(clock, polls, timeout, k + 1);
    }
  }

  /** A deadline already passed at the first check ends the wait with no poll. */
  lemma TimeoutBeforeFirstPoll(clock: seq<nat>, polls: seq<StatusResult>, timeout: int)
    requires Readings(clock, polls, timeout) && PastDeadline(clock[0], timeout)
    ensures WaitFrom(clock, polls, timeout, 0) == WaitRun(Expired(timeout), 0)
  {
  }

  /** A timeout of 0 is not "no time at all": it falls back to the default,
      so with a non-negative default a wait whose first reading is 0 polls
      at least once. */
  lemma ZeroTimeoutFallsBack(default: int, clock: seq<nat>, polls: seq<StatusResult>)
    requires default >= 0 && Readings(clock, polls, OrDefault(Some(0), default)) && clock[0] == 0
    ensures WaitFrom(clock, polls, OrDefault(Some(0), default), 0).pollCount >= 1
  {
    var t := OrDefault(Some(0), default);
    assert !PastDeadline(clock[0], t);
    WaitFromOutcome(clock, polls, t, 0);
  }

  /** A status of "error" ends the wait and is recorded as "failed"; it is
      not retried. That status comes from a non-200 lookup, from a lookup
      that never reached the server, and from a remote status "error"
      passed through. */
  lemma ErrorIsNotRetried(clock: seq<nat>, polls: seq<StatusResult>, timeout: int)
    requires Readings(clock, polls, timeout) && !PastDeadline(clock[0], timeout)
    requires |polls| > 0 && StatusOf(polls[0]) == JStr("error")
    ensures WaitFrom(clock, polls, timeout, 0) == WaitRun(Finished(polls[0]), 1)
    ensures RecordedStatus(Finished(polls[0])) == Failed
  {
  }

  /** The callback arguments after each poll. */
  datatype Progress = Progress(pollCount: nat, elapsedMs: nat, status: Value)

  // ---------------------------------------------------------------------
  // parse_result
  // ---------------------------------------------------------------------

  /** `parse_result` over abstract matchers: `fencedBlock` gives the group of
      the first fenced-code-block match, `flatObject` the first flat-object
      match. Strategies are tried in order: the whole text, the fenced
      block, the flat object. */
  function ParseResult(text: string, parse: string -> Option<Value>,
                       fencedBlock: string -> Option<string>, flatObject: string -> Option<string>): (r: Option<Value>)
    ensures text == "" ==> r.None?
    ensures text != "" && parse(text).Some? ==> r == parse(text)
    ensures (text != "" && parse(text).None? && fencedBlock(text).Some? && parse(fencedBlock(text).value).Some?)
              ==> r == parse(fencedBlock(text).value)
    ensures r.Some? ==>
              || r == parse(text)
              || (fencedBlock(text).Some? && r == parse(fencedBlock(text).value))
              || (flatObject(text).Some? && r == parse(flatObject(text).value))
    ensures r.None? && text != "" ==>
              && parse(text).None?
              && (fencedBlock(text).Some? ==> parse(fencedBlock(text).value).None?)
              && (flatObject(text).Some? ==> parse(flatObject(text).value).None?)
  {
    if text == "" then None
    else if parse(text).Some? then parse(text)
    else if fencedBlock(text).Some? && parse(fencedBlock(text).value).Some? then parse(fencedBlock(text).value)
    else if flatObject(text).Some? && parse(flatObject(text).value).Some? then parse(flatObject(text).value)
    else None
  }

  /** The polling loop of `wait_for_completion`, with the effective timeout
      and interval: it ends as `WaitFrom` says, reporting (poll count,
      elapsed, status) after every poll and sleeping once per non-terminal
      poll. */
  method PollUntilDone(timeout: int, interval: int, clock: seq<nat>, polls: seq<StatusResult>)
    returns (result: WaitResult, pollCount: nat, progress: seq<Progress>, sleeps: seq<int>)
    requires Readings(clock, polls, timeout)
    ensures WaitRun(result, pollCount) == WaitFrom(clock, polls, timeout, 0)
    ensures pollCount <= |polls| && pollCount < |clock| && |progress| == pollCount
    ensures forall j :: 0 <= j < pollCount ==> progress[j] == Progress(j + 1, clock[j], StatusOf(polls[j]))
    ensures |sleeps| == (if result.Finished? then pollCount - 1 else pollCount)
    ensures forall j :: 0 <= j < |sleeps| ==> sleeps[j] == interval
  {
    pollCount := 0;
    progress := [];
    sleeps := [];
    result := Expired(timeout);
    while true
      invariant pollCount < |clock| && pollCount <= |polls|
      invariant WaitFrom(clock, polls, timeout, pollCount) == WaitFrom(clock, polls, timeout, 0)
      invariant |progress| == pollCount && |sleeps| == pollCount
      invariant forall j :: 0 <= j < pollCount ==> progress[j] == Progress(j + 1, clock[j], StatusOf(polls[j]))
      invariant forall j :: 0 <= j < pollCount ==> sleeps[j] == interval
      decreases |clock| - pollCount
    {
      var elapsed := clock[pollCount];
      if PastDeadline(elapsed, timeout) {
        result := Expired(timeout);
        break;
      }
      var status := polls[pollCount];
      pollCount := pollCount + 1;
      progress := progress + [Progress(pollCount, elapsed, StatusOf(status))];
      if IsTerminal(status) {
        result := Finished(status);
        break;
      }
      sleeps := sleeps + [interval];
    }
  }

  // ---------------------------------------------------------------------
  // The client
  // ---------------------------------------------------------------------

  class ResearchClient {
    const history: HistoryStore
    /** `DEEP_RESEARCH_TIMEOUT`, seconds. */
    const timeout: int
    /** `DEEP_RESEARCH_POLL_INTERVAL`, seconds. */
    const pollInterval: int

    constructor (history: HistoryStore, timeout: int, pollInterval: int)
      ensures this.history == history && this.timeout == timeout && this.pollInterval == pollInterval
    {
      this.history := history;
      this.timeout := timeout;
      this.pollInterval := pollInterval;
    }

    /** `start_research`: the request it posts and, for the response it gets,
        the id it returns or the error it raises; a started interaction is
        recorded as "started". */
    method StartResearch(query: string, formatSpec: Option<string>, previousId: Option<string>,
                         response: HttpResponse, now: Timestamp)
      returns (request: Value, r: StartResult)
      modifies history
      ensures request == StartRequest(BuildPrompt(query, formatSpec), previousId)
      ensures r == StartOutcome(response)
      ensures r.Accepted? ==> history.records == Upsert(old(history.records), r.id, query, Started, now)
      ensures r.Rejected? ==> history.records == old(history.records)
    {
      request := StartRequest(BuildPrompt(query, formatSpec), previousId);
      match response {
        case ConnectionFailure(message) =>
          r := Rejected(HttpError(message));
        case Response(code, text, body) =>
          if code != 200 {
            r := Rejected(ApiError(code, text));
          } else {
            var id := ExtractId(body);
            if id.None? {
              r := Rejected(MissingId);
            } else {
              history.AddInteraction(id.value, query, Started, now);
              r := Accepted(id.value);
            }
          }
      }
    }

    /** `wait_for_completion`: polls until a terminal status or the deadline,
        reporting progress after every poll and sleeping between polls, and
        records how the wait ended. */
    method WaitForCompletion(id: string, timeoutSetting: Option<int>, intervalSetting: Option<int>,
                             clock: seq<nat>, polls: seq<StatusResult>, now: Timestamp)
      returns (result: WaitResult, pollCount: nat, progress: seq<Progress>, sleeps: seq<int>)
      requires Readings(clock, polls, OrDefault(timeoutSetting, timeout))
      modifies history
      ensures WaitRun(result, pollCount) == WaitFrom(clock, polls, OrDefault(timeoutSetting, timeout), 0)
      ensures pollCount <= |polls| && pollCount < |clock| && |progress| == pollCount
      ensures forall j :: 0 <= j < pollCount ==> progress[j] == Progress(j + 1, clock[j], StatusOf(polls[j]))
      ensures |sleeps| == (if result.Finished? then pollCount - 1 else pollCount)
      ensures forall j :: 0 <= j < |sleeps| ==> sleeps[j] == OrDefault(intervalSetting, pollInterval)
      ensures history.records == SetStatus(old(history.records), id, RecordedStatus(result), now)
    {
      result, pollCount, progress, sleeps :=
        PollUntilDone(OrDefault(timeoutSetting, timeout), OrDefault(intervalSetting, pollInterval), clock, polls);
      // The status recorded is `timeout`, `completed` or `failed`, as each exit path writes it.
      history.UpdateStatus(id, RecordedStatus(result), now);
    }
  }

  // ---------------------------------------------------------------------
  // End to end
  // ---------------------------------------------------------------------

  /** A start whose response carries id "abc", followed by a wait whose first
      poll finds the interaction completed with output "hello", returns
      "hello" and leaves "abc" in the history as completed with its
      completion time set. */
  lemma StartThenCompleted(records: seq<Record>, query: string, t1: Timestamp, t2: Timestamp,
                           timeout: int, clock: seq<nat>)
    requires timeout >= 0 && |clock| == 2 && clock[0] == 0 && PastDeadline(clock[1], timeout)
    ensures var body := JObj(map["status" := JStr("completed"), "outputs" := JArr([JObj(map["text" := JStr("hello")])])]);
      && StartOutcome(Response(200, "", JObj(map["id" := JStr("abc")]))) == Accepted("abc")
      && var polls := [GetStatus(Reply(200, body))];
      && WaitFrom(clock, polls, timeout, 0) == WaitRun(Finished(Done(JStr("hello"), body)), 1)
      && var after := SetStatus(Upsert(records, "abc", query, Started, t1), "abc", Completed, t2);
      && Lookup(after, "abc").Some?
      && Lookup(after, "abc").value.status == Completed
      && Lookup(after, "abc").value.completedAt == Some(t2)
  {
    var body := JObj(map["status" := JStr("completed"), "outputs" := JArr([JObj(map["text" := JStr("hello")])])]);
    var o := JObj(map["text" := JStr("hello")]);
    assert [] + [o] == [o];
    CompletedResult(body.fields, [], o);
    var r1 := Upsert(records, "abc", query, Started, t1);
    LookupAfterUpsert(records, "abc", query, Started, t1);
    var i := IndexOf(r1, "abc").value;
    SetStatusPresent(r1, "abc", Completed, t2, i);
    IndexOfUnique(SetStatus(r1, "abc", Completed, t2), "abc", i);
  }
}
