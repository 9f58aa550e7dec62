/** The two server-sent-event decoders of the Copilot client.  A stream is
    the sequence of its lines, each already classified: JSON text is not
    modelled, only what a successfully parsed `data:` payload contains. */
module SseDecoders {
  import opened Wrappers
  import opened Strings

  /** One line of the stream. */
  datatype SseLine<P> =
    | Blank              // an empty line
    | NonData            // a line not starting with `data: ` (e.g. `event: ...`)
    | Done               // `data: [DONE]`
    | Malformed          // `data: ` followed by text that is not JSON
    | Json(payload: P)   // `data: ` followed by a JSON object

  /** True for the lines a decoder skips without effect. */
  predicate Noise<P>(l: SseLine<P>) {
    l.Blank? || l.NonData? || l.Malformed?
  }

  // ---------------------------------------------------------------------
  // `_parse_sse` (OpenAI / Gemini chunks)
  // ---------------------------------------------------------------------

  /** `choices[i].delta.content`; `None` when absent or JSON `null`. */
  datatype Choice = Choice(content: Option<string>)

  datatype Chunk = Chunk(choices: seq<Choice>)

  /** The text a chunk contributes: the first choice's non-empty content. */
  function ChunkText(c: Chunk): seq<string> {
    if |c.choices| > 0 && c.choices[0].content.Some? && c.choices[0].content.value != "" then
      [c.choices[0].content.value]
    else []
  }

  function DecodeChunks(lines: seq<SseLine<Chunk>>): seq<string> {
    if |lines| == 0 then []
    else match lines[0]
      case Done => []
      case Json(c) => ChunkText(c) + DecodeChunks(lines[1..])
      case _ => DecodeChunks(lines[1..])
  }

  /** Malformed lines before the end of the stream (`error_count`). */
  function ChunkErrors(lines: seq<SseLine<Chunk>>): nat {
    if |lines| == 0 || lines[0].Done? then 0
    else (if lines[0].Malformed? then 1 else 0) + ChunkErrors(lines[1..])
  }

  /** Moving one line's fragments from the undecoded rest to the output. */
  lemma Advance(output: seq<string>, piece: seq<string>, rest: seq<string>, total: seq<string>)
    requires output + (piece + rest) == total
    ensures output + piece + rest == total
  {
    assert output + piece + rest == output + (piece + rest);
  }

  /** One line before the end marker: its text, then the rest. */
  lemma ChunkStep(lines: seq<SseLine<Chunk>>, i: nat)
    requires i < |lines| && !lines[i].Done?
    ensures DecodeChunks(lines[i..]) == (if lines[i].Json? then ChunkText(lines[i].payload) else []) + DecodeChunks(lines[i + 1..])
    ensures ChunkErrors(lines[i..]) == (if lines[i].Malformed? then 1 else 0) + ChunkErrors(lines[i + 1..])
  {
    assert lines[i..][1..] == lines[i + 1..];
  }

  /** Nothing is decoded from the end of the stream or from `[DONE]` on. */
  lemma ChunkEnd(lines: seq<SseLine<Chunk>>, i: nat)
    requires i <= |lines| && (i == |lines| || lines[i].Done?)
    ensures DecodeChunks(lines[i..]) == [] && ChunkErrors(lines[i..]) == 0
  {
    if i == |lines| {
      assert lines[i..] == [];
    }
  }

  /** The decoder's output: its fragments, and whether it warns that the
      stream was empty. */
  method ParseSse(lines: seq<SseLine<Chunk>>) returns (fragments: seq<string>, warnEmpty: bool)
    ensures fragments == DecodeChunks(lines)
    ensures warnEmpty <==> |fragments| == 0 && ChunkErrors(lines) == 0
  {
    fragments := [];
    var chunkCount := 0;
    var errorCount := 0;
    var i := 0;
    while i < |lines|
      invariant 0 <= i <= |lines|
      invariant fragments + DecodeChunks(lines[i..]) == DecodeChunks(lines)
      invariant errorCount + ChunkErrors(lines[i..]) == ChunkErrors(lines)
      invariant chunkCount == |fragments|
    {
      if lines[i].Done? {
        break;
      }
      ChunkStep(lines, i);
      var piece: seq<string> := [];  // what this line yields
      match lines[i] {
        case Malformed =>
          errorCount := errorCount + 1;
        case Json(chunk) =>
          if |chunk.choices| > 0 {
            var delta := chunk.choices[0].content.GetOr("");
            if delta != "" {
              chunkCount := chunkCount + 1;
              piece := [delta];
            }
          }
        case _ =>
      }
      Advance(fragments, piece, DecodeChunks(lines[i + 1..]), DecodeChunks(lines));
      fragments := fragments + piece;
      i := i + 1;
    }
    ChunkEnd(lines, i);
    warnEmpty := chunkCount == 0 && errorCount == 0;
  }

  // ---------------------------------------------------------------------
  // `_parse_claude_sse` (Anthropic Messages events)
  // ---------------------------------------------------------------------

  /** A parsed Claude event, by its `type`. */
  datatype ClaudeEvent =
    | ContentBlockDelta(deltaType: Option<string>, text: Option<string>)
      // `{"type": "content_block_delta", "delta": {"type": ..., "text": ...}}`
    | ErrorEvent(errType: Option<string>, errMessage: Option<string>, errRepr: string)
      // `{"type": "error", "error": {...}}`; `errRepr` is `str(error)`
    | OtherEvent(kind: string)

  const ERROR_PREFIX: string := "\n\n\U{26A0}\U{FE0F} Claude stream error ["

  /** The visible warning an `error` event turns into. */
  function ErrorFragment(errType: Option<string>, errMessage: Option<string>, errRepr: string): string {
    ERROR_PREFIX + errType.GetOr("unknown_error") + "]: " + errMessage.GetOr(errRepr)
  }

  /** The only delta type that carries text. */
  const TEXT_DELTA: string := "text_delta"

  function EventText(e: ClaudeEvent): seq<string> {
    if e.ContentBlockDelta? && e.deltaType == Some(TEXT_DELTA) && e.text.Some? && e.text.value != "" then
      [e.text.value]
    else []
  }

  /** A line that ends the Claude stream. */
  predicate ClaudeStop(l: SseLine<ClaudeEvent>) {
    l.Done? || (l.Json? && l.payload.ErrorEvent?)
  }

  function DecodeClaude(lines: seq<SseLine<ClaudeEvent>>): seq<string> {
    if |lines| == 0 then []
    else match lines[0]
      case Done => []
      case Json(ErrorEvent(t, m, r)) => [ErrorFragment(t, m, r)]
      case Json(e) => EventText(e) + DecodeClaude(lines[1..])
      case _ => DecodeClaude(lines[1..])
  }

  /** Text deltas yielded before the stream ends (`chunk_count`). */
  function ClaudeTextCount(lines: seq<SseLine<ClaudeEvent>>): nat {
    if |lines| == 0 || ClaudeStop(lines[0]) then 0
    else (if lines[0].Json? then |EventText(lines[0].payload)| else 0) + ClaudeTextCount(lines[1..])
  }

  /** Malformed lines before the stream ends (`error_count`). */
  function ClaudeErrors(lines: seq<SseLine<ClaudeEvent>>): nat {
    if |lines| == 0 || ClaudeStop(lines[0]) then 0
    else (if lines[0].Malformed? then 1 else 0) + ClaudeErrors(lines[1..])
  }

  /** One line before the stream stops: its text, then the rest. */
  lemma ClaudeStep(lines: seq<SseLine<ClaudeEvent>>, i: nat)
    requires i < |lines| && !ClaudeStop(lines[i])
    ensures DecodeClaude(lines[i..]) == (if lines[i].Json? then EventText(lines[i].payload) else []) + DecodeClaude(lines[i + 1..])
    ensures ClaudeTextCount(lines[i..]) == (if lines[i].Json? then |EventText(lines[i].payload)| else 0) + ClaudeTextCount(lines[i + 1..])
    ensures ClaudeErrors(lines[i..]) == (if lines[i].Malformed? then 1 else 0) + ClaudeErrors(lines[i + 1..])
  {
    assert lines[i..][1..] == lines[i + 1..];
  }

  /** An `error` event decodes to its warning alone and ends the counts. */
  lemma ClaudeErrorAt(lines: seq<SseLine<ClaudeEvent>>, i: nat)
    requires i < |lines| && lines[i].Json? && lines[i].payload.ErrorEvent?
    ensures var e := lines[i].payload;
      DecodeClaude(lines[i..]) == [ErrorFragment(e.errType, e.errMessage, e.errRepr)]
    ensures ClaudeTextCount(lines[i..]) == 0 && ClaudeErrors(lines[i..]) == 0
  {
    assert lines[i..][0] == lines[i];
  }

  /** Nothing is decoded from the end of the stream or from `[DONE]` on. */
  lemma ClaudeEnd(lines: seq<SseLine<ClaudeEvent>>, i: nat)
    requires i <= |lines| && (i == |lines| || lines[i].Done?)
    ensures DecodeClaude(lines[i..]) == [] && ClaudeTextCount(lines[i..]) == 0 && ClaudeErrors(lines[i..]) == 0
  {
    if i == |lines| {
      assert lines[i..] == [];
    }
  }

  /** The fragments, and whether the decoder warns that no text arrived
      (an error event alone still draws the warning). */
  method ParseClaudeSse(lines: seq<SseLine<ClaudeEvent>>) returns (fragments: seq<string>, warnEmpty: bool)
    ensures fragments == DecodeClaude(lines)
    ensures warnEmpty <==> ClaudeTextCount(lines) == 0 && ClaudeErrors(lines) == 0
  {
    fragments := [];
    var chunkCount := 0;
    var errorCount := 0;
    var i := 0;
    while i < |lines|
      invariant 0 <= i <= |lines|
      invariant fragments + DecodeClaude(lines[i..]) == DecodeClaude(lines)
      invariant chunkCount + ClaudeTextCount(lines[i..]) == ClaudeTextCount(lines)
      invariant errorCount + ClaudeErrors(lines[i..]) == ClaudeErrors(lines)
    {
      if lines[i].Done? {
        break;
      }
      if lines[i].Json? && lines[i].payload.ErrorEvent? {
        var e := lines[i].payload;
        ClaudeErrorAt(lines, i);
        fragments := fragments + [ErrorFragment(e.errType, e.errMessage, e.errRepr)];
        break;
      }
      ClaudeStep(lines, i);
      var piece: seq<string> := [];  // what this line yields
      match lines[i] {
        case Malformed =>
          errorCount := errorCount + 1;
        case Json(event) =>
          if event.ContentBlockDelta? && event.deltaType == Some(TEXT_DELTA) {
            var t := event.text.GetOr("");
            if t != "" {
              chunkCount := chunkCount + 1;
              piece := [t];
            }
          }
        case _ =>
      }
      Advance(fragments, piece, DecodeClaude(lines[i + 1..]), DecodeClaude(lines));
      fragments := fragments + piece;
      i := i + 1;
    }
    if i == |lines| || lines[i].Done? {
      ClaudeEnd(lines, i);
    }
    warnEmpty := chunkCount == 0 && errorCount == 0;
  }

  // ---------------------------------------------------------------------
  // Properties
  // ---------------------------------------------------------------------

  /** Every fragment either decoder yields is non-empty text. */
  lemma {:induction false} ChunkFragmentsNonEmpty(lines: seq<SseLine<Chunk>>)
    ensures forall k :: 0 <= k < |DecodeChunks(lines)| ==> DecodeChunks(lines)[k] != ""
    decreases |lines|
  {
    if |lines| > 0 && !lines[0].Done? {
      ChunkFragmentsNonEmpty(lines[1..]);
    }
  }

  lemma {:induction false} ClaudeFragmentsNonEmpty(lines: seq<SseLine<ClaudeEvent>>)
    ensures forall k :: 0 <= k < |DecodeClaude(lines)| ==> DecodeClaude(lines)[k] != ""
    decreases |lines|
  {
    if |lines| > 0 && !ClaudeStop(lines[0]) {
      ClaudeFragmentsNonEmpty(lines[1..]);
    }
  }

  /** Decoding a stream split before its end is decoding both halves. */
  lemma {:induction false} ChunksAppend(a: seq<SseLine<Chunk>>, b: seq<SseLine<Chunk>>)
    requires forall k :: 0 <= k < |a| ==> !a[k].Done?
    ensures DecodeChunks(a + b) == DecodeChunks(a) + DecodeChunks(b)
    decreases |a|
  {
    if |a| > 0 {
      assert (a + b)[1..] == a[1..] + b;
      ChunksAppend(a[1..], b);
    } else {
      assert a + b == b;
    }
  }

  /** Nothing after the first `[DONE]` is read. */
  lemma ChunksStopAtDone(a: seq<SseLine<Chunk>>, b: seq<SseLine<Chunk>>)
    requires forall k :: 0 <= k < |a| ==> !a[k].Done?
    ensures DecodeChunks(a + [Done] + b) == DecodeChunks(a)
  {
    assert a + [Done] + b == a + ([Done] + b);
    ChunksAppend(a, [Done] + b);
  }

  /** Blank, non-data and malformed lines can be dropped anywhere. */
  lemma {:induction false} ChunkNoiseIgnored(a: seq<SseLine<Chunk>>, noise: SseLine<Chunk>, b: seq<SseLine<Chunk>>)
    requires Noise(noise)
    ensures DecodeChunks(a + [noise] + b) == DecodeChunks(a + b)
    decreases |a|
  {
    if |a| > 0 {
      assert (a + [noise] + b)[1..] == a[1..] + [noise] + b;
      assert (a + b)[1..] == a[1..] + b;
      ChunkNoiseIgnored(a[1..], noise, b);
    } else {
      assert a + [noise] + b == [noise] + b;
      assert ([noise] + b)[1..] == b;
      assert a + b == b;
    }
  }

  lemma {:induction false} ClaudeAppend(a: seq<SseLine<ClaudeEvent>>, b: seq<SseLine<ClaudeEvent>>)
    requires forall k :: 0 <= k < |a| ==> !ClaudeStop(a[k])
    ensures DecodeClaude(a + b) == DecodeClaude(a) + DecodeClaude(b)
    decreases |a|
  {
    if |a| > 0 {
      assert (a + b)[1..] == a[1..] + b;
      ClaudeAppend(a[1..], b);
    } else {
      assert a + b == b;
    }
  }

  /** An `error` event yields one warning fragment naming its type and
      message, and nothing after it is read. */
  lemma ClaudeErrorStops(a: seq<SseLine<ClaudeEvent>>, t: Option<string>, m: Option<string>, r: string,
                         b: seq<SseLine<ClaudeEvent>>)
    requires forall k :: 0 <= k < |a| ==> !ClaudeStop(a[k])
    ensures DecodeClaude(a + [Json(ErrorEvent(t, m, r))] + b) == DecodeClaude(a) + [ErrorFragment(t, m, r)]
    ensures StartsWith(ErrorFragment(t, m, r), ERROR_PREFIX)
  {
    assert a + [Json(ErrorEvent(t, m, r))] + b == a + ([Json(ErrorEvent(t, m, r))] + b);
    ClaudeAppend(a, [Json(ErrorEvent(t, m, r))] + b);
    assert ErrorFragment(t, m, r)[..|ERROR_PREFIX|] == ERROR_PREFIX;
  }

  /** Nothing after the first `[DONE]` is read. */
  lemma ClaudeStopsAtDone(a: seq<SseLine<ClaudeEvent>>, b: seq<SseLine<ClaudeEvent>>)
    requires forall k :: 0 <= k < |a| ==> !ClaudeStop(a[k])
    ensures DecodeClaude(a + [Done] + b) == DecodeClaude(a)
  {
    assert a + [Done] + b == a + ([Done] + b);
    ClaudeAppend(a, [Done] + b);
  }

  /** Only `text_delta` deltas carry text; other events are ignored. */
  lemma ClaudeOnlyTextDeltas(e: ClaudeEvent, rest: seq<SseLine<ClaudeEvent>>)
    requires !e.ErrorEvent?
    requires !(e.ContentBlockDelta? && e.deltaType == Some(TEXT_DELTA))
    ensures DecodeClaude([Json(e)] + rest) == DecodeClaude(rest)
  {
    assert ([Json(e)] + rest)[1..] == rest;
  }

  /** Two text chunks, the end marker, then a chunk that is never read. */
  lemma ChunksExample()
    ensures DecodeChunks([Json(Chunk([Choice(Some("Hel"))])), Blank, Json(Chunk([Choice(Some("lo"))])),
                          Done, Json(Chunk([Choice(Some("!"))]))]) == ["Hel", "lo"]
  {
    var tail: seq<SseLine<Chunk>> := [Json(Chunk([Choice(Some("!"))]))];
    var a: seq<SseLine<Chunk>> := [Json(Chunk([Choice(Some("Hel"))])), Blank, Json(Chunk([Choice(Some("lo"))]))];
    assert [Json(Chunk([Choice(Some("Hel"))])), Blank, Json(Chunk([Choice(Some("lo"))])), Done, Json(Chunk([Choice(Some("!"))]))]
        == a + [Done] + tail;
    ChunksStopAtDone(a, tail);
    assert a[1..] == [Blank, Json(Chunk([Choice(Some("lo"))]))];
    assert a[1..][1..] == [Json(Chunk([Choice(Some("lo"))]))];
  }
}
