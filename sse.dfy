/** The server-sent-event decoder inside `stream_research`: a text buffer that
    received chunks are appended to, split at every "\n\n" into event blocks;
    the first `data: ` line of a block is decoded as JSON and mapped by its
    `event_type` to a stream event, with history writes on the way. */
module Sse {
  import opened Json
  import opened History

  const DataPrefix := "data: "

  // ---------------------------------------------------------------------
  // Framing: splitting the buffer at "\n\n"
  // ---------------------------------------------------------------------

  /** An event terminator "\n\n" starts at index i of s. */
  predicate TerminatorAt(s: string, i: int)
  {
    0 <= i && i + 1 < |s| && s[i] == '\n' && s[i + 1] == '\n'
  }

  /** `"\n\n" in s`. */
  predicate HasTerminator(s: string)
  {
    exists i :: 0 <= i < |s| && TerminatorAt(s, i)
  }

  /** The first terminator at or after index k. */
  function FindTerminatorFrom(s: string, k: nat): (r: Option<nat>)
    requires k <= |s|
    ensures r.Some? ==> k <= r.value && TerminatorAt(s, r.value)
    ensures r.Some? ==> forall j :: k <= j < r.value ==> !TerminatorAt(s, j)
    ensures r.None? ==> forall j :: k <= j ==> !TerminatorAt(s, j)
    decreases |s| - k
  {
    if k + 1 >= |s| then None
    else if s[k] == '\n' && s[k + 1] == '\n' then Some(k)
    else FindTerminatorFrom(s, k + 1)
  }

  function FindTerminator(s: string): Option<nat>
  {
    FindTerminatorFrom(s, 0)
  }

  lemma FindTerminatorIs(s: string, i: nat)
    requires TerminatorAt(s, i)
    requires forall j :: 0 <= j < i ==> !TerminatorAt(s, j)
    ensures FindTerminator(s) == Some(i)
  {
  }

  /** The complete event blocks of a text, in order, and the unterminated
      remainder that stays in the buffer. */
  datatype Framing = Framing(blocks: seq<string>, rest: string)

  /** `while "\n\n" in buffer: block, buffer = buffer.split("\n\n", 1)`.
      What stays buffered never holds a complete event. */
  function SplitFrames(s: string): (f: Framing)
    ensures !HasTerminator(f.rest)
    decreases |s|
  {
    match FindTerminator(s)
    case None => Framing([], s)
    case Some(i) =>
      var tail := SplitFrames(s[i + 2..]);
      Framing([s[..i]] + tail.blocks, tail.rest)
  }

  /** The inverse of framing: every block followed by "\n\n", then the rest. */
  function Unsplit(blocks: seq<string>, rest: string): string
  {
    if blocks == [] then rest else blocks[0] + "\n\n" + Unsplit(blocks[1..], rest)
  }

  /** Framing loses nothing: the blocks and the remainder put back together
      are the text. */
  lemma {:induction false} SplitFramesRoundTrip(s: string)
    ensures Unsplit(SplitFrames(s).blocks, SplitFrames(s).rest) == s
    decreases |s|
  {
    match FindTerminator(s)
    case None =>
    case Some(i) =>
      SplitFramesRoundTrip(s[i + 2..]);
      var tail := SplitFrames(s[i + 2..]);
      UnsplitCons(s[..i], tail.blocks, tail.rest);
      JoinAtTerminator(s, i);
  }

  lemma UnsplitCons(block: string, blocks: seq<string>, rest: string)
    ensures Unsplit([block] + blocks, rest) == block + "\n\n" + Unsplit(blocks, rest)
  {
    assert ([block] + blocks)[1..] == blocks;
  }

  /** Cutting a text at a terminator and gluing it back with "\n\n". */
  lemma JoinAtTerminator(s: string, i: nat)
    requires TerminatorAt(s, i)
    ensures s[..i] + "\n\n" + s[i + 2..] == s
  {
    assert s[i..i + 2] == "\n\n";
    assert s == s[..i] + s[i..i + 2] + s[i + 2..];
  }

  /** A block the framing can return as it is: no terminator inside and no
      newline at its end (which would merge with the "\n\n" after it). */
  predicate Frameable(block: string)
  {
    !HasTerminator(block) && (block == [] || block[|block| - 1] != '\n')
  }

  /** Framing undoes `Unsplit` for blocks that can be framed and a remainder
      without a terminator. */
  lemma {:induction false} UnsplitSplitFrames(blocks: seq<string>, rest: string)
    requires forall k :: 0 <= k < |blocks| ==> Frameable(blocks[k])
    requires !HasTerminator(rest)
    ensures SplitFrames(Unsplit(blocks, rest)) == Framing(blocks, rest)
    decreases |blocks|
  {
    if blocks == [] {
      assert FindTerminator(rest).None?;
    } else {
      var b := blocks[0];
      var tail := Unsplit(blocks[1..], rest);
      var s := Unsplit(blocks, rest);
      assert s == b + "\n\n" + tail;
      assert TerminatorAt(s, |b|);
      forall j | 0 <= j < |b|
        ensures !TerminatorAt(s, j)
      {
        if j + 1 < |b| {
          assert !TerminatorAt(b, j);
        }
      }
      FindTerminatorIs(s, |b|);
      assert s[..|b|] == b;
      assert s[|b| + 2..] == tail;
      UnsplitSplitFrames(blocks[1..], rest);
      assert blocks == [b] + blocks[1..];
    }
  }

  /** The first terminator of s is still the first one once text is appended. */
  lemma FirstTerminatorKept(s: string, t: string, i: nat)
    requires FindTerminator(s) == Some(i)
    ensures FindTerminator(s + t) == Some(i)
  {
    var st := s + t;
    assert TerminatorAt(s, i);
    assert TerminatorAt(st, i);
    forall j | 0 <= j < i
      ensures !TerminatorAt(st, j)
    {
      assert !TerminatorAt(s, j);
    }
    FindTerminatorIs(st, i);
  }

  /** One step of framing: the block before the first terminator, then the
      framing of what follows it. */
  lemma SplitFramesUnfold(s: string, i: nat)
    requires FindTerminator(s) == Some(i)
    ensures i + 2 <= |s|
    ensures SplitFrames(s) == Framing([s[..i]] + SplitFrames(s[i + 2..]).blocks, SplitFrames(s[i + 2..]).rest)
  {
  }

  /** Framing s + t, when s has a terminator, starts with the same block. */
  lemma SplitFramesAppendUnfold(s: string, t: string, i: nat)
    requires FindTerminator(s) == Some(i)
    ensures i + 2 <= |s|
    ensures SplitFrames(s + t) == Framing([s[..i]] + SplitFrames(s[i + 2..] + t).blocks, SplitFrames(s[i + 2..] + t).rest)
  {
    var st := s + t;
    FirstTerminatorKept(s, t, i);
    SplitFramesUnfold(st, i);
    assert st[..i] == s[..i];
    assert st[i + 2..] == s[i + 2..] + t;
  }

  /** Appending more text never disturbs the blocks already complete: the
      framing of s + t is the framing of s, then the framing of its
      remainder extended by t. */
  lemma {:induction false} SplitFramesAppend(s: string, t: string)
    ensures SplitFrames(s + t)
            == Framing(SplitFrames(s).blocks + SplitFrames(SplitFrames(s).rest + t).blocks,
                       SplitFrames(SplitFrames(s).rest + t).rest)
    decreases |s|
  {
    if FindTerminator(s).None? {
      assert SplitFrames(s) == Framing([], s);
      assert [] + SplitFrames(s + t).blocks == SplitFrames(s + t).blocks;
    } else {
      var i := FindTerminator(s).value;
      SplitFramesUnfold(s, i);
      SplitFramesAppendUnfold(s, t, i);
      var b := s[..i];
      var r := s[i + 2..];
      SplitFramesAppend(r, t);
      AppendFramings(b, SplitFrames(s), SplitFrames(r), SplitFrames(SplitFrames(r).rest + t),
                     SplitFrames(r + t), SplitFrames(s + t));
    }
  }

  /** The list arithmetic behind `SplitFramesAppend`. */
  lemma AppendFramings(b: string, f: Framing, tail: Framing, g: Framing, u: Framing, whole: Framing)
    requires f == Framing([b] + tail.blocks, tail.rest)
    requires u == Framing(tail.blocks + g.blocks, g.rest)
    requires whole == Framing([b] + u.blocks, u.rest)
    ensures whole == Framing(f.blocks + g.blocks, g.rest)
  {
    assert ([b] + tail.blocks) + g.blocks == [b] + (tail.blocks + g.blocks);
  }

  /** All chunks received so far, joined. */
  function Concat(chunks: seq<string>): string
  {
    if chunks == [] then "" else chunks[0] + Concat(chunks[1..])
  }

  lemma {:induction false} ConcatSnoc(chunks: seq<string>, c: string)
    ensures Concat(chunks + [c]) == Concat(chunks) + c
  {
    if chunks == [] {
      assert [] + [c] == [c];
    } else {
      assert (chunks + [c])[1..] == chunks[1..] + [c];
      ConcatSnoc(chunks[1..], c);
    }
  }

  /** The chunk-by-chunk process: append one chunk, cut every complete
      block, carry the remainder over to the next chunk. */
  function FeedAll(buffer: string, chunks: seq<string>): Framing
    decreases |chunks|
  {
    if chunks == [] then Framing([], buffer)
    else
      var f := SplitFrames(buffer + chunks[0]);
      var g := FeedAll(f.rest, chunks[1..]);
      Framing(f.blocks + g.blocks, g.rest)
  }

  /** Chunking invariance: feeding chunks one at a time yields exactly the
      blocks (in order) and the remainder of framing their concatenation at
      once. */
  lemma {:induction false} ChunkingInvariance(buffer: string, chunks: seq<string>)
    requires !HasTerminator(buffer)
    ensures FeedAll(buffer, chunks) == SplitFrames(buffer + Concat(chunks))
    decreases |chunks|
  {
    if chunks == [] {
      NoTerminatorNoBlocks(buffer);
    } else {
      var front := buffer + chunks[0];
      var rest := Concat(chunks[1..]);
      var f := SplitFrames(front);
      ChunkingInvariance(f.rest, chunks[1..]);
      SplitFramesAppend(front, rest);
      AppendAssoc(buffer, chunks[0], rest);
    }
  }

  /** A text without a terminator is all remainder. */
  lemma NoTerminatorNoBlocks(s: string)
    requires !HasTerminator(s)
    ensures SplitFrames(s + Concat([])) == Framing([], s)
  {
    assert s + Concat([]) == s;
    assert FindTerminator(s).None?;
  }

  lemma AppendAssoc(a: string, b: string, c: string)
    ensures a + (b + c) == (a + b) + c
  {
  }

  /** Two ways of cutting the same text into chunks produce the same blocks
      and leave the same remainder. */
  lemma SameTextSameBlocks(c1: seq<string>, c2: seq<string>)
    requires Concat(c1) == Concat(c2)
    ensures FeedAll("", c1) == FeedAll("", c2)
  {
    ChunkingInvariance("", c1);
    ChunkingInvariance("", c2);
  }

  // ---------------------------------------------------------------------
  // Inside a block: lines and the first data line
  // ---------------------------------------------------------------------

  /** `s.split("\n")`. */
  function Lines(s: string): (r: seq<string>)
    ensures |r| >= 1
    ensures forall k :: 0 <= k < |r| ==> '\n' !in r[k]
  {
    if s == [] then [""]
    else
      var tail := Lines(s[1..]);
      if s[0] == '\n' then [""] + tail
      else [[s[0]] + tail[0]] + tail[1..]
  }

  /** `"\n".join(lines)`. */
  function JoinLines(lines: seq<string>): string
    requires |lines| >= 1
  {
    if |lines| == 1 then lines[0] else lines[0] + "\n" + JoinLines(lines[1..])
  }

  /** Splitting into lines loses nothing. */
  lemma {:induction false} LinesRoundTrip(s: string)
    ensures JoinLines(Lines(s)) == s
  {
    if s != [] {
      var tail := Lines(s[1..]);
      LinesRoundTrip(s[1..]);
      if s[0] == '\n' {
        assert ([""] + tail)[1..] == tail;
      } else {
        var r := Lines(s);
        assert r[1..] == tail[1..];
        if |tail| == 1 {
          assert r == [[s[0]] + tail[0]];
        } else {
          assert JoinLines(tail) == tail[0] + "\n" + JoinLines(tail[1..]);
        }
      }
      assert s == [s[0]] + s[1..];
    }
  }

  /** A text without newlines is one line. */
  lemma {:induction false} LinesSingle(s: string)
    requires '\n' !in s
    ensures Lines(s) == [s]
  {
    if s != [] {
      LinesSingle(s[1..]);
      assert s == [s[0]] + s[1..];
    }
  }

  predicate IsDataLine(line: string)
  {
    |line| >= |DataPrefix| && line[..|DataPrefix|] == DataPrefix
  }

  /** Position of the first line that starts with `data: `. */
  function FirstDataIndex(lines: seq<string>): (r: Option<nat>)
    ensures r.Some? ==> r.value < |lines| && IsDataLine(lines[r.value])
    ensures r.Some? ==> forall j :: 0 <= j < r.value ==> !IsDataLine(lines[j])
    ensures r.None? ==> forall j :: 0 <= j < |lines| ==> !IsDataLine(lines[j])
  {
    if lines == [] then None
    else if IsDataLine(lines[0]) then Some(0)
    else match FirstDataIndex(lines[1..])
      case None => None
      case Some(i) => Some(i + 1)
  }

  /** The payload of the first `data: ` line of a block, prefix stripped. */
  function DataPayload(block: string): (r: Option<string>)
    ensures r.Some? <==> exists k :: 0 <= k < |Lines(block)| && IsDataLine(Lines(block)[k])
    ensures r.Some? ==>
              exists k :: (&& 0 <= k < |Lines(block)| && IsDataLine(Lines(block)[k])
                           && (forall j :: 0 <= j < k ==> !IsDataLine(Lines(block)[j]))
                           && r.value == Lines(block)[k][|DataPrefix|..])
    ensures r.Some? ==> '\n' !in r.value
  {
    var lines := Lines(block);
    match FirstDataIndex(lines)
    case None => None
    case Some(k) =>
      assert 0 <= k < |lines| && IsDataLine(lines[k]);
      assert exists j :: 0 <= j < |Lines(block)| && IsDataLine(Lines(block)[j]);
      assert '\n' !in lines[k];
      Some(lines[k][|DataPrefix|..])
  }

  /** The loop over `event_str.split("\n")` that keeps the first data line. */
  method FindDataLine(lines: seq<string>) returns (dataLine: Option<string>)
    ensures dataLine.Some? <==> exists k :: 0 <= k < |lines| && IsDataLine(lines[k])
    ensures dataLine.Some? ==>
              exists k :: (&& 0 <= k < |lines| && IsDataLine(lines[k])
                           && (forall j :: 0 <= j < k ==> !IsDataLine(lines[j]))
                           && dataLine.value == lines[k][|DataPrefix|..])
    ensures dataLine == match FirstDataIndex(lines) case None => None case Some(k) => Some(lines[k][|DataPrefix|..])
  {
    var i := 0;
    while i < |lines|
      invariant 0 <= i <= |lines|
      invariant forall j :: 0 <= j < i ==> !IsDataLine(lines[j])
    {
      if IsDataLine(lines[i]) {
        var r := FirstDataIndex(lines);
        assert r == Some(i);
        return Some(lines[i][|DataPrefix|..]);
      }
      i := i + 1;
    }
    return None;
  }

  /** Python's `str.isspace` on one character: what `strip()` removes. */
  predicate IsSpace(c: char)
  {
    || c == ' '
    || '\t' <= c <= '\r'
    || '\U{1C}' <= c <= '\U{1F}'
    || c == '\U{85}' || c == '\U{A0}' || c == '\U{1680}'
    || '\U{2000}' <= c <= '\U{200A}'
    || c == '\U{2028}' || c == '\U{2029}' || c == '\U{202F}' || c == '\U{205F}' || c == '\U{3000}'
  }

  /** `not s.strip()`. */
  predicate IsBlank(s: string)
  {
    forall i :: 0 <= i < |s| ==> IsSpace(s[i])
  }

  /** Every line of a blank text is blank. */
  lemma {:induction false} LinesOfBlank(s: string)
    requires IsBlank(s)
    ensures forall k :: 0 <= k < |Lines(s)| ==> IsBlank(Lines(s)[k])
  {
    if s != [] {
      LinesOfBlank(s[1..]);
    }
  }

  /** `s.lstrip()`. */
  function StripLeft(s: string): string
  {
    if s != [] && IsSpace(s[0]) then StripLeft(s[1..]) else s
  }

  /** `s.rstrip()`. */
  function StripRight(s: string): string
  {
    if s != [] && IsSpace(s[|s| - 1]) then StripRight(s[..|s| - 1]) else s
  }

  /** `s.strip()`. */
  function Strip(s: string): string
  {
    StripRight(StripLeft(s))
  }

  lemma {:induction false} StripLeftEmpty(s: string)
    ensures StripLeft(s) == "" <==> IsBlank(s)
    ensures StripLeft(s) != "" ==> !IsSpace(StripLeft(s)[0])
  {
    if s != [] && IsSpace(s[0]) {
      StripLeftEmpty(s[1..]);
      if IsBlank(s[1..]) {
        forall i | 0 <= i < |s|
          ensures IsSpace(s[i])
        {
          if i > 0 {
            assert s[i] == s[1..][i - 1];
          }
        }
      }
    }
  }

  lemma {:induction false} StripRightKeepsFirst(s: string)
    requires s != [] && !IsSpace(s[0])
    ensures StripRight(s) != ""
    decreases |s|
  {
    if IsSpace(s[|s| - 1]) {
      StripRightKeepsFirst(s[..|s| - 1]);
    }
  }

  /** The blank test `not event_str.strip()` agrees with `IsBlank`. */
  lemma StripEmptyIffBlank(s: string)
    ensures Strip(s) == "" <==> IsBlank(s)
  {
    StripLeftEmpty(s);
    if StripLeft(s) != "" {
      StripRightKeepsFirst(StripLeft(s));
    }
  }

  /** The blank-block test is a shortcut: a blank block has no data line. */
  lemma BlankBlockHasNoData(block: string)
    requires IsBlank(block)
    ensures DataPayload(block).None?
  {
    var lines := Lines(block);
    LinesOfBlank(block);
    forall k | 0 <= k < |lines|
      ensures !IsDataLine(lines[k])
    {
      var line := lines[k];
      if |line| >= |DataPrefix| {
        assert IsSpace(line[0]);
        assert line[0] != DataPrefix[0];
        assert line[..|DataPrefix|][0] != DataPrefix[0];
      }
    }
  }

  /** The JSON document a block carries, if any: blank blocks, blocks whose
      first data line is missing or empty, and payloads that do not parse
      all give nothing. */
  function DecodeBlock(block: string, parse: string -> Option<Value>): (r: Option<Value>)
    ensures r.Some? ==> DataPayload(block).Some? && DataPayload(block).value != ""
    ensures DataPayload(block).Some? && DataPayload(block).value != "" ==> r == parse(DataPayload(block).value)
  {
    if IsBlank(block) then
      BlankBlockHasNoData(block);
      None
    else match DataPayload(block)
      case None => None
      case Some(p) => if p == "" then None else parse(p)
  }

  // ---------------------------------------------------------------------
  // Events
  // ---------------------------------------------------------------------

  datatype StreamEvent =
    | Start(interactionId: Value)
    | Text(content: Value)
    | Thought(content: Value)
    | Complete
    | Error(error: Value)

  const StartType := "interaction.start"
  const DeltaType := "content.delta"
  const CompleteType := "interaction.complete"
  const ErrorType := "error"

  function EventType(ev: Value): Value
  {
    Get(ev, "event_type", JStr(""))
  }

  function DeltaKind(ev: Value): Value
  {
    Get(Get(ev, "delta", EmptyObject), "type", JNull)
  }

  /** The `event_type` string each kind of stream event comes from. */
  function TypeName(e: StreamEvent): string
  {
    match e
    case Start(_) => StartType
    case Text(_) => DeltaType
    case Thought(_) => DeltaType
    case Complete => CompleteType
    case Error(_) => ErrorType
  }

  /** The mapping from a decoded event document to a stream event. Unknown
      event types and unknown delta types give nothing; whatever is emitted
      is of the kind the document's `event_type` names. */
  function Classify(ev: Value): (r: Option<StreamEvent>)
    ensures r.Some? ==> EventType(ev) == JStr(TypeName(r.value))
    ensures r.Some? <==>
              || EventType(ev) in {JStr(StartType), JStr(CompleteType), JStr(ErrorType)}
              || (EventType(ev) == JStr(DeltaType) && DeltaKind(ev) in {JStr("text"), JStr("thought_summary")})
    ensures r.Some? && r.value.Text? ==> DeltaKind(ev) == JStr("text")
    ensures r.Some? && r.value.Thought? ==> DeltaKind(ev) == JStr("thought_summary")
    ensures r.Some? && r.value.Start? ==> r.value.interactionId == Get(Get(ev, "interaction", EmptyObject), "id", JNull)
    ensures r.Some? && r.value.Text? ==> r.value.content == Get(Get(ev, "delta", EmptyObject), "text", JStr(""))
    ensures r.Some? && r.value.Thought? ==>
              r.value.content == Get(Get(Get(ev, "delta", EmptyObject), "content", EmptyObject), "text", JStr(""))
    ensures r.Some? && r.value.Error? ==> r.value.error == Get(ev, "error", JStr("Unknown error"))
  {
    var et := EventType(ev);
    if et == JStr(StartType) then
      Some(Start(Get(Get(ev, "interaction", EmptyObject), "id", JNull)))
    else if et == JStr(DeltaType) then
      var delta := Get(ev, "delta", EmptyObject);
      var kind := Get(delta, "type", JNull);
      if kind == JStr("text") then Some(Text(Get(delta, "text", JStr(""))))
      else if kind == JStr("thought_summary") then
        Some(Thought(Get(Get(delta, "content", EmptyObject), "text", JStr(""))))
      else None
    else if et == JStr(CompleteType) then Some(Complete)
    else if et == JStr(ErrorType) then Some(Error(Get(ev, "error", JStr("Unknown error"))))
    else None
  }

  /** How the server writes each event: the partner of `Classify`. */
  function EventDocument(e: StreamEvent): Value
  {
    match e
    case Start(id) =>
      JObj(map["event_type" := JStr(StartType), "interaction" := JObj(map["id" := id])])
    case Text(c) =>
      JObj(map["event_type" := JStr(DeltaType), "delta" := JObj(map["type" := JStr("text"), "text" := c])])
    case Thought(c) =>
      JObj(map["event_type" := JStr(DeltaType),
               "delta" := JObj(map["type" := JStr("thought_summary"), "content" := JObj(map["text" := c])])])
    case Complete =>
      JObj(map["event_type" := JStr(CompleteType)])
    case Error(msg) =>
      JObj(map["event_type" := JStr(ErrorType), "error" := msg])
  }

  /** Every stream event survives being written by the server and read back. */
  lemma ClassifyEventDocument(e: StreamEvent)
    ensures Classify(EventDocument(e)) == Some(e)
  {
    match e
    case Start(id) =>
    case Text(c) =>
    case Thought(c) =>
    case Complete =>
    case Error(msg) =>
  }

  /** The stream event a block yields, if any. */
  function BlockEvent(block: string, parse: string -> Option<Value>): (r: Option<StreamEvent>)
    ensures r.Some? ==> DataPayload(block).Some? && DataPayload(block).value != ""
    ensures IsBlank(block) ==> r.None?
    ensures DataPayload(block).Some? && DataPayload(block).value != "" && parse(DataPayload(block).value).None? ==> r.None?
    ensures DataPayload(block).Some? && DataPayload(block).value != "" && parse(DataPayload(block).value).Some? ==>
              r == Classify(parse(DataPayload(block).value).value)
  {
    match DecodeBlock(block, parse)
    case None => None
    case Some(ev) => Classify(ev)
  }

  function BlockEvents(block: string, parse: string -> Option<Value>): seq<StreamEvent>
  {
    match BlockEvent(block, parse)
    case None => []
    case Some(e) => [e]
  }

  /** The events a sequence of blocks yields, in arrival order. `complete`
      and `error` do not end the sequence. */
  function Events(blocks: seq<string>, parse: string -> Option<Value>): (r: seq<StreamEvent>)
    ensures |r| <= |blocks|
    decreases |blocks|
  {
    if blocks == [] then [] else BlockEvents(blocks[0], parse) + Events(blocks[1..], parse)
  }

  /** Events of consecutive stretches of blocks are emitted one after the
      other: nothing is reordered, dropped or held back. */
  lemma {:induction false} EventsAppend(a: seq<string>, b: seq<string>, parse: string -> Option<Value>)
    ensures Events(a + b, parse) == Events(a, parse) + Events(b, parse)
    decreases |a|
  {
    if a == [] {
      assert a + b == b;
    } else {
      var head := BlockEvents(a[0], parse);
      assert (a + b)[0] == a[0];
      assert (a + b)[1..] == a[1..] + b;
      assert Events(a + b, parse) == head + Events(a[1..] + b, parse);
      EventsAppend(a[1..], b, parse);
      assert head + (Events(a[1..], parse) + Events(b, parse)) == (head + Events(a[1..], parse)) + Events(b, parse);
    }
  }

  // ---------------------------------------------------------------------
  // The stream's side effects: current interaction id and history writes
  // ---------------------------------------------------------------------

  datatype SessionState = SessionState(interactionId: Value, records: seq<Record>)

  /** What one event does to the tracked interaction id and to the history:
      a start event replaces the id (even with an empty one) and records a
      non-empty id as streaming; complete and error mark the current id
      completed or failed when it is non-empty. */
  function Step(st: SessionState, e: StreamEvent, query: string, now: Timestamp): (r: SessionState)
    ensures r.interactionId == (if e.Start? then e.interactionId else st.interactionId)
    ensures e.Text? || e.Thought? ==> r == st
    ensures !e.Start? && !IsId(st.interactionId) ==> r == st
  {
    match e
    case Start(id) =>
      SessionState(id, if IsId(id) then Upsert(st.records, id.s, query, Streaming, now) else st.records)
    case Complete =>
      st.(records := if IsId(st.interactionId) then SetStatus(st.records, st.interactionId.s, Completed, now) else st.records)
    case Error(_) =>
      st.(records := if IsId(st.interactionId) then SetStatus(st.records, st.interactionId.s, Failed, now) else st.records)
    case Text(_) => st
    case Thought(_) => st
  }

  function Effects(st: SessionState, events: seq<StreamEvent>, query: string, now: Timestamp): (r: SessionState)
    ensures (forall k :: 0 <= k < |events| ==> events[k].Text? || events[k].Thought?) ==> r == st
    ensures (forall k :: 0 <= k < |events| ==> !events[k].Start?) && !IsId(st.interactionId) ==> r == st
    decreases |events|
  {
    if events == [] then st else Effects(Step(st, events[0], query, now), events[1..], query, now)
  }

  /** The history writes of one event. A start with a non-empty id makes
      that id read back as "streaming", and a start with any other id writes
      nothing. Complete and error mark the current id, when it is present,
      "completed" (with its completion time) or "failed". Records with
      other ids keep what they read back, except one a new record pushes
      out of a full list (`StepKeepsOthers`). */
  lemma StepWrites(st: SessionState, e: StreamEvent, query: string, now: Timestamp)
    ensures var r := Step(st, e, query, now);
      && (e.Start? && IsId(e.interactionId) ==>
            && Lookup(r.records, e.interactionId.s).Some?
            && Lookup(r.records, e.interactionId.s).value.status == Streaming)
      && (e.Start? && !IsId(e.interactionId) ==> r.records == st.records)
      && (e.Complete? && IsId(st.interactionId) && Lookup(st.records, st.interactionId.s).Some? ==>
            && Lookup(r.records, st.interactionId.s).Some?
            && Lookup(r.records, st.interactionId.s).value.status == Completed
            && Lookup(r.records, st.interactionId.s).value.completedAt == Some(now))
      && (e.Error? && IsId(st.interactionId) && Lookup(st.records, st.interactionId.s).Some? ==>
            && Lookup(r.records, st.interactionId.s).Some?
            && Lookup(r.records, st.interactionId.s).value.status == Failed)
  {
    match e
    case Start(id) =>
      if IsId(id) {
        LookupAfterUpsert(st.records, id.s, query, Streaming, now);
      }
    case Complete =>
      if IsId(st.interactionId) {
        SetStatusReadBack(st.records, st.interactionId.s, Completed, now);
      }
    case Error(_) =>
      if IsId(st.interactionId) {
        SetStatusReadBack(st.records, st.interactionId.s, Failed, now);
      }
    case Text(_) =>
    case Thought(_) =>
  }

  /** One event leaves what every other id reads back as it was, except a
      record a new record pushes out of a full list. */
  lemma StepKeepsOthers(st: SessionState, e: StreamEvent, query: string, now: Timestamp, other: string)
    requires (if e.Start? then e.interactionId else st.interactionId) != JStr(other)
    requires e.Start? && IsId(e.interactionId) ==>
               || Lookup(st.records, e.interactionId.s).Some?
               || IndexOf(st.records, other).None?
               || IndexOf(st.records, other).value < MaxRecords - 1
    ensures Lookup(Step(st, e, query, now).records, other) == Lookup(st.records, other)
  {
    match e
    case Start(id) =>
      if IsId(id) {
        UpsertKeepsOthers(st.records, id.s, other, query, Streaming, now);
      }
    case Complete =>
      if IsId(st.interactionId) {
        SetStatusKeepsOthers(st.records, st.interactionId.s, other, Completed, now);
      }
    case Error(_) =>
      if IsId(st.interactionId) {
        SetStatusKeepsOthers(st.records, st.interactionId.s, other, Failed, now);
      }
    case Text(_) =>
    case Thought(_) =>
  }

  lemma {:induction false} EffectsAppend(st: SessionState, a: seq<StreamEvent>, b: seq<StreamEvent>, query: string, now: Timestamp)
    ensures Effects(st, a + b, query, now) == Effects(Effects(st, a, query, now), b, query, now)
    decreases |a|
  {
    if a == [] {
      assert a + b == b;
    } else {
      assert (a + b)[0] == a[0];
      assert (a + b)[1..] == a[1..] + b;
      EffectsAppend(Step(st, a[0], query, now), a[1..], b, query, now);
    }
  }

  /** A stream that starts interaction s and then completes leaves s in the
      history as completed, with its completion time set. */
  lemma StartThenComplete(st: SessionState, s: string, query: string, now: Timestamp)
    requires s != ""
    ensures var after := Effects(st, [Start(JStr(s)), Complete], query, now);
      && after.interactionId == JStr(s)
      && Lookup(after.records, s).Some?
      && Lookup(after.records, s).value.status == Completed
      && Lookup(after.records, s).value.completedAt == Some(now)
  {
    var r1 := Upsert(st.records, s, query, Streaming, now);
    LookupAfterUpsert(st.records, s, query, Streaming, now);
    var i := IndexOf(r1, s).value;
    SetStatusPresent(r1, s, Completed, now, i);
    var r2 := SetStatus(r1, s, Completed, now);
    IndexOfUnique(r2, s, i);
    var s1 := Step(st, Start(JStr(s)), query, now);
    var s2 := Step(s1, Complete, query, now);
    assert s1 == SessionState(JStr(s), r1);
    assert s2 == SessionState(JStr(s), r2);
    assert [Start(JStr(s)), Complete][1..] == [Complete];
    assert Effects(st, [Start(JStr(s)), Complete], query, now) == Effects(s1, [Complete], query, now);
    assert Effects(s1, [Complete], query, now) == Effects(s2, [], query, now);
  }

  // ---------------------------------------------------------------------
  // End to end: the wire format the decoder reads
  // ---------------------------------------------------------------------

  /** The text of a stream carrying the given events, each as one
      `data: <json>` block, where `show` renders a JSON document. */
  function Wire(events: seq<StreamEvent>, show: Value -> string): string
  {
    if events == [] then ""
    else DataPrefix + show(EventDocument(events[0])) + "\n\n" + Wire(events[1..], show)
  }

  function WireBlocks(events: seq<StreamEvent>, show: Value -> string): (r: seq<string>)
    ensures |r| == |events|
    ensures forall k :: 0 <= k < |events| ==> r[k] == DataPrefix + show(EventDocument(events[k]))
  {
    if events == [] then [] else [DataPrefix + show(EventDocument(events[0]))] + WireBlocks(events[1..], show)
  }

  /** `show` renders the event's document as one non-empty line that `parse`
      reads back. */
  predicate RoundTrips(e: StreamEvent, show: Value -> string, parse: string -> Option<Value>)
  {
    var text := show(EventDocument(e));
    text != "" && '\n' !in text && parse(text) == Some(EventDocument(e))
  }

  /** A data block whose payload is one line has no newline at all. */
  lemma DataBlockIsOneLine(text: string)
    requires text != "" && '\n' !in text
    ensures var block := DataPrefix + text;
      && (forall i :: 0 <= i < |block| ==> block[i] != '\n')
      && Frameable(block)
  {
    var block := DataPrefix + text;
    forall i | 0 <= i < |block|
      ensures block[i] != '\n'
    {
      if i >= |DataPrefix| {
        assert block[i] == text[i - |DataPrefix|];
      }
    }
  }

  lemma {:induction false} WireIsUnsplit(events: seq<StreamEvent>, show: Value -> string)
    ensures Wire(events, show) == Unsplit(WireBlocks(events, show), "")
  {
    if events != [] {
      WireIsUnsplit(events[1..], show);
      assert WireBlocks(events, show)[1..] == WireBlocks(events[1..], show);
    }
  }

  /** Decoding round trip: when `parse` reads back what `show` writes and the
      rendering is one non-empty line, decoding the wire text returns exactly
      the events sent, in order, and leaves nothing in the buffer. */
  lemma {:induction false} DecodeWire(events: seq<StreamEvent>, show: Value -> string, parse: string -> Option<Value>)
    requires forall k :: 0 <= k < |events| ==> RoundTrips(events[k], show, parse)
    ensures var f := SplitFrames(Wire(events, show));
            f.rest == "" && Events(f.blocks, parse) == events
  {
    var blocks := WireBlocks(events, show);
    forall k | 0 <= k < |blocks|
      ensures Frameable(blocks[k])
    {
      DataBlockIsOneLine(show(EventDocument(events[k])));
    }
    WireIsUnsplit(events, show);
    UnsplitSplitFrames(blocks, "");
    EventsOfWire(events, show, parse);
  }

  /** The wire block of one event decodes to that event. */
  lemma EventOfWireBlock(e: StreamEvent, show: Value -> string, parse: string -> Option<Value>)
    requires RoundTrips(e, show, parse)
    ensures BlockEvents(DataPrefix + show(EventDocument(e)), parse) == [e]
  {
    var text := show(EventDocument(e));
    var block := DataPrefix + text;
    DataBlockIsOneLine(text);
    LinesSingle(block);
    assert IsDataLine(block);
    assert block[|DataPrefix|..] == text;
    assert DataPayload(block) == Some(text);
    ClassifyEventDocument(e);
    assert BlockEvent(block, parse) == Some(e);
  }

  lemma {:induction false} EventsOfWire(events: seq<StreamEvent>, show: Value -> string, parse: string -> Option<Value>)
    requires forall k :: 0 <= k < |events| ==> RoundTrips(events[k], show, parse)
    ensures Events(WireBlocks(events, show), parse) == events
  {
    if events != [] {
      var blocks := WireBlocks(events, show);
      WireBlockEvent(events, show, parse, 0);
      EventsOfWire(events[1..], show, parse);
      assert blocks[1..] == WireBlocks(events[1..], show);
      assert events == [events[0]] + events[1..];
    }
  }

  lemma WireBlockEvent(events: seq<StreamEvent>, show: Value -> string, parse: string -> Option<Value>, k: nat)
    requires k < |events| && RoundTrips(events[k], show, parse)
    ensures BlockEvents(WireBlocks(events, show)[k], parse) == [events[k]]
  {
    EventOfWireBlock(events[k], show, parse);
  }

  /** One turn of the framing loop: cutting the first block off the buffer
      moves it from the pending blocks to the finished ones. */
  lemma FramingStep(whole: Framing, done: seq<string>, buffer: string, i: nat)
    requires FindTerminator(buffer) == Some(i)
    requires whole == Framing(done + SplitFrames(buffer).blocks, SplitFrames(buffer).rest)
    ensures var tail := SplitFrames(buffer[i + 2..]);
            whole == Framing((done + [buffer[..i]]) + tail.blocks, tail.rest)
  {
    var tail := SplitFrames(buffer[i + 2..]);
    assert SplitFrames(buffer) == Framing([buffer[..i]] + tail.blocks, tail.rest);
    assert (done + [buffer[..i]]) + tail.blocks == done + ([buffer[..i]] + tail.blocks);
  }

  lemma EventsSnoc(done: seq<string>, block: string, parse: string -> Option<Value>)
    ensures Events(done + [block], parse) == Events(done, parse) + BlockEvents(block, parse)
  {
    EventsAppend(done, [block], parse);
    assert [block][1..] == [];
    assert Events([block], parse) == BlockEvents(block, parse) + Events([], parse);
    assert BlockEvents(block, parse) + [] == BlockEvents(block, parse);
  }

  lemma EffectsSnoc(st: SessionState, events: seq<StreamEvent>, e: StreamEvent, query: string, now: Timestamp)
    ensures Effects(st, events + [e], query, now) == Step(Effects(st, events, query, now), e, query, now)
  {
    EffectsAppend(st, events, [e], query, now);
    assert [e][1..] == [];
  }

  lemma ConcatPrefix(chunks: seq<string>, k: nat)
    requires k < |chunks|
    ensures Concat(chunks[..k + 1]) == Concat(chunks[..k]) + chunks[k]
  {
    assert chunks[..k + 1] == chunks[..k] + [chunks[k]];
    ConcatSnoc(chunks[..k], chunks[k]);
  }

  /** One more chunk received: the framing of everything so far extends
      the previous framing by the framing of the old remainder plus the chunk. */
  lemma ReceiveStep(start: string, chunks: seq<string>, k: nat, parse: string -> Option<Value>)
    requires k < |chunks|
    ensures var f := SplitFrames(start + Concat(chunks[..k]));
            var g := SplitFrames(f.rest + chunks[k]);
            && SplitFrames(start + Concat(chunks[..k + 1])) == Framing(f.blocks + g.blocks, g.rest)
            && Events(f.blocks + g.blocks, parse) == Events(f.blocks, parse) + Events(g.blocks, parse)
  {
    var sofar := start + Concat(chunks[..k]);
    var f := SplitFrames(sofar);
    var g := SplitFrames(f.rest + chunks[k]);
    ConcatPrefix(chunks, k);
    AppendAssoc(start, Concat(chunks[..k]), chunks[k]);
    SplitFramesAppend(sofar, chunks[k]);
    EventsAppend(f.blocks, g.blocks, parse);
  }

  // ---------------------------------------------------------------------
  // The decoder as the source runs it
  // ---------------------------------------------------------------------

  /** The state `stream_research` keeps while it reads one response: the
      text buffer, the current interaction id, and the shared history. */
  class StreamSession {
    const query: string
    const parse: string -> Option<Value>
    const history: HistoryStore
    var buffer: string
    var interactionId: Value

    ghost function State(): SessionState
      reads this, history
    {
      SessionState(interactionId, history.records)
    }

    constructor (query: string, parse: string -> Option<Value>, history: HistoryStore)
      ensures this.query == query && this.parse == parse && this.history == history
      ensures buffer == "" && interactionId == JNull
    {
      this.query := query;
      this.parse := parse;
      this.history := history;
      buffer := "";
      interactionId := JNull;
    }

    /** The history writes and id update for one emitted event. */
    method Apply(e: StreamEvent, now: Timestamp)
      modifies this, history
      ensures buffer == old(buffer)
      ensures State() == Step(old(State()), e, query, now)
    {
      match e
      case Start(id) =>
        interactionId := id;
        if IsId(id) {
          history.AddInteraction(id.s, query, Streaming, now);
        }
      case Complete =>
        if IsId(interactionId) {
          history.UpdateStatus(interactionId.s, Completed, now);
        }
      case Error(_) =>
        if IsId(interactionId) {
          history.UpdateStatus(interactionId.s, Failed, now);
        }
      case Text(_) =>
      case Thought(_) =>
    }

    /** One complete block: skip it or emit its event. */
    method HandleBlock(block: string, now: Timestamp) returns (e: Option<StreamEvent>)
      modifies this, history
      ensures buffer == old(buffer)
      ensures e == BlockEvent(block, parse)
      ensures State() == if e.Some? then Step(old(State()), e.value, query, now) else old(State())
    {
      if IsBlank(block) {
        BlankBlockHasNoData(block);
        return None;
      }
      var dataLine := FindDataLine(Lines(block));
      if dataLine.None? || dataLine.value == "" {
        return None;
      }
      var ev := parse(dataLine.value);
      if ev.None? {
        return None;
      }
      e := Classify(ev.value);
      if e.Some? {
        Apply(e.value, now);
      }
    }

    /** One received chunk: append it and handle every block it completes. */
    method Feed(chunk: string, now: Timestamp) returns (events: seq<StreamEvent>)
      modifies this, history
      ensures var f := SplitFrames(old(buffer) + chunk);
              buffer == f.rest && events == Events(f.blocks, parse)
      ensures !HasTerminator(buffer)
      ensures State() == Effects(old(State()), events, query, now)
    {
      buffer := buffer + chunk;
      events := [];
      ghost var whole := SplitFrames(buffer);
      ghost var done: seq<string> := [];
      ghost var before := State();
      var next := FindTerminator(buffer);
      while next.Some?
        invariant next == FindTerminator(buffer)
        invariant whole == Framing(done + SplitFrames(buffer).blocks, SplitFrames(buffer).rest)
        invariant events == Events(done, parse)
        invariant State() == Effects(before, events, query, now)
        decreases |buffer|
      {
        var i := next.value;
        var block := buffer[..i];
        FramingStep(whole, done, buffer, i);
        EventsSnoc(done, block, parse);
        buffer := buffer[i + 2..];
        done := done + [block];
        var e := HandleBlock(block, now);
        if e.Some? {
          EffectsSnoc(before, events, e.value, query, now);
          events := events + [e.value];
        } else {
          assert events + [] == events;
        }
        next := FindTerminator(buffer);
      }
      assert SplitFrames(buffer) == Framing([], buffer);
      assert done + [] == done;
    }

    /** `async for chunk in response.aiter_text()`: the whole response. What
        comes out depends only on the concatenated text, not on how it was
        cut into chunks. */
    method Run(chunks: seq<string>, now: Timestamp) returns (events: seq<StreamEvent>)
      requires !HasTerminator(buffer)
      modifies this, history
      ensures var f := SplitFrames(old(buffer) + Concat(chunks));
              buffer == f.rest && events == Events(f.blocks, parse)
      ensures State() == Effects(old(State()), events, query, now)
    {
      events := [];
      ghost var start := old(buffer);
      ghost var before := old(State());
      var k := 0;
      assert start + Concat(chunks[..0]) == start;
      assert FindTerminator(start).None?;
      while k < |chunks|
        invariant 0 <= k <= |chunks|
        invariant var f := SplitFrames(start + Concat(chunks[..k]));
                  buffer == f.rest && events == Events(f.blocks, parse)
        invariant State() == Effects(before, events, query, now)
      {
        ReceiveStep(start, chunks, k, parse);
        var more := Feed(chunks[k], now);
        EffectsAppend(before, events, more, query, now);
        events := events + more;
        k := k + 1;
      }
      assert chunks[..k] == chunks;
    }
  }
}
