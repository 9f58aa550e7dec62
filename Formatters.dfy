/** The per-family message rewriters applied just before a request is sent:
    the OpenAI identity, the Gemini image placeholder, and the Claude
    system-extraction / role-alternation pass with its content helpers. */
module Formatters {
  import opened Wrappers
  import opened Strings
  import opened Messages

  // ---------------------------------------------------------------------
  // `_flatten_content`
  // ---------------------------------------------------------------------

  /** The text a part contributes when content is flattened. */
  function Piece(p: Part): seq<string> {
    match p
    case TextPart(t) => [t]
    case ImageUrlPart(_) => ["[image]"]
    case _ => []
  }

  function Pieces(ps: seq<Part>): seq<string> {
    if |ps| == 0 then [] else Pieces(ps[..|ps| - 1]) + Piece(ps[|ps| - 1])
  }

  /** Plain text of a content value: a string as is, a part list as its
      text parts and `[image]` markers joined by newlines. */
  function Flatten(c: Content): string {
    match c
    case Text(s) => s
    case Parts(ps) => Join("\n", Pieces(ps))
  }

  lemma {:induction false} PiecesAppend(a: seq<Part>, b: seq<Part>)
    ensures Pieces(a + b) == Pieces(a) + Pieces(b)
    decreases |b|
  {
    if |b| > 0 {
      assert (a + b)[..|a + b| - 1] == a + b[..|b| - 1];
      PiecesAppend(a, b[..|b| - 1]);
    } else {
      assert a + b == a;
    }
  }

  /** Flattening distributes over concatenation of part lists that both
      contribute some text: the halves are separated by one newline. */
  lemma FlattenAppend(a: seq<Part>, b: seq<Part>)
    requires |Pieces(a)| > 0 && |Pieces(b)| > 0
    ensures Flatten(Parts(a + b)) == Flatten(Parts(a)) + "\n" + Flatten(Parts(b))
  {
    PiecesAppend(a, b);
    JoinAppend("\n", Pieces(a), Pieces(b));
  }

  // ---------------------------------------------------------------------
  // `_format_messages_openai`
  // ---------------------------------------------------------------------

  /** GPT models take the standard format unchanged. */
  function FormatOpenAI(ms: seq<Message>): seq<Message> {
    ms
  }

  // ---------------------------------------------------------------------
  // `_format_messages_gemini`
  // ---------------------------------------------------------------------

  const GEMINI_IMAGE_NOTE: string :=
    "[Image attached \U{2014} Gemini via Copilot proxy does not support inline images.]"

  /** Text parts stay, an image becomes the note, everything else is dropped. */
  function GeminiPart(p: Part): seq<Part> {
    match p
    case TextPart(_) => [p]
    case ImageUrlPart(_) => [TextPart(GEMINI_IMAGE_NOTE)]
    case _ => []
  }

  function GeminiParts(ps: seq<Part>): seq<Part> {
    if |ps| == 0 then [] else GeminiParts(ps[..|ps| - 1]) + GeminiPart(ps[|ps| - 1])
  }

  function GeminiMessage(m: Message): Message {
    match m.content
    case Text(_) => m
    case Parts(ps) => Message(m.role, Parts(GeminiParts(ps)))
  }

  function FormatGemini(ms: seq<Message>): seq<Message> {
    seq(|ms|, i requires 0 <= i < |ms| => GeminiMessage(ms[i]))
  }

  /** The parts the Gemini formatter keeps: text and image parts. */
  function Supported(ps: seq<Part>): seq<Part> {
    if |ps| == 0 then []
    else
      var p := ps[|ps| - 1];
      Supported(ps[..|ps| - 1]) + (if p.TextPart? || p.ImageUrlPart? then [p] else [])
  }

  function AsGeminiText(p: Part): Part {
    if p.ImageUrlPart? then TextPart(GEMINI_IMAGE_NOTE) else p
  }

  /** A multipart message keeps its text and image parts in order, each image
      replaced by the note; the result holds text parts only. */
  lemma {:induction false} GeminiPartsCharacterised(ps: seq<Part>)
    ensures |GeminiParts(ps)| == |Supported(ps)|
    ensures forall i :: 0 <= i < |Supported(ps)| ==> GeminiParts(ps)[i] == AsGeminiText(Supported(ps)[i])
    ensures forall i :: 0 <= i < |GeminiParts(ps)| ==> GeminiParts(ps)[i].TextPart?
    decreases |ps|
  {
    if |ps| > 0 {
      GeminiPartsCharacterised(ps[..|ps| - 1]);
    }
  }

  /** Message count, order and roles are kept; string content is untouched
      and multipart content stays multipart. */
  lemma GeminiKeepsMessages(ms: seq<Message>)
    ensures |FormatGemini(ms)| == |ms|
    ensures forall i :: 0 <= i < |ms| ==> FormatGemini(ms)[i].role == ms[i].role
    ensures forall i :: 0 <= i < |ms| && ms[i].content.Text? ==> FormatGemini(ms)[i] == ms[i]
    ensures forall i :: 0 <= i < |ms| && ms[i].content.Parts? ==>
      FormatGemini(ms)[i].content == Parts(GeminiParts(ms[i].content.parts))
  {
  }

  /** On conversations without multipart content the Gemini and OpenAI
      formatters agree. */
  lemma GeminiAgreesWithOpenAIOnText(ms: seq<Message>)
    requires forall i :: 0 <= i < |ms| ==> ms[i].content.Text?
    ensures FormatGemini(ms) == FormatOpenAI(ms)
  {
    assert forall i :: 0 <= i < |ms| ==> FormatGemini(ms)[i] == ms[i];
  }

  method FormatMessagesGemini(ms: seq<Message>) returns (out: seq<Message>)
    ensures out == FormatGemini(ms)
  {
    out := [];
    for i := 0 to |ms|
      invariant |out| == i
      invariant forall k :: 0 <= k < i ==> out[k] == GeminiMessage(ms[k])
    {
      var msg := ms[i];
      match msg.content {
        case Text(_) =>
          out := out + [msg];
        case Parts(ps) =>
          var parts: seq<Part> := [];
          for j := 0 to |ps|
            invariant parts == GeminiParts(ps[..j])
          {
            assert ps[..j + 1][..j] == ps[..j];
            var part := ps[j];
            if part.TextPart? {
              parts := parts + [part];
            } else if part.ImageUrlPart? {
              parts := parts + [TextPart(GEMINI_IMAGE_NOTE)];
            }
          }
          assert ps[..|ps|] == ps;
          out := out + [Message(msg.role, Parts(parts))];
      }
    }
  }

  // ---------------------------------------------------------------------
  // `_convert_image_parts_for_claude`
  // ---------------------------------------------------------------------

  const DEFAULT_MEDIA_TYPE: string := "image/png"

  /** `data:<media_type>;base64,<data>` becomes a base64 image block; any
      other URL becomes an `[image: url]` text placeholder. */
  function ConvertImageUrl(url: string): Part {
    if StartsWith(url, "data:") then
      var header := Before(url, ',');
      var mediaType := Before(AfterOrAll(header, ':'), ';');
      ImageBlock(if mediaType == "" then DEFAULT_MEDIA_TYPE else mediaType, After(url, ','))
    else
      TextPart("[image: " + url + "]")
  }

  function ConvertPart(p: Part): seq<Part> {
    match p
    case NonDictPart(_) => []
    case ImageUrlPart(url) => [ConvertImageUrl(url)]
    case _ => [p]
  }

  function ConvertParts(ps: seq<Part>): seq<Part> {
    if |ps| == 0 then [] else ConvertParts(ps[..|ps| - 1]) + ConvertPart(ps[|ps| - 1])
  }

  /** Parts the Claude endpoint accepts: no `image_url` and no non-dict entry. */
  predicate ClaudeReady(ps: seq<Part>) {
    forall i :: 0 <= i < |ps| ==> !ps[i].ImageUrlPart? && !ps[i].NonDictPart?
  }

  /** The conversion leaves only parts Claude accepts, and touches nothing
      that is already acceptable. */
  lemma {:induction false} ConvertPartsReady(ps: seq<Part>)
    ensures ClaudeReady(ConvertParts(ps))
    ensures ClaudeReady(ps) ==> ConvertParts(ps) == ps
    decreases |ps|
  {
    if |ps| > 0 {
      var init := ps[..|ps| - 1];
      var last := ps[|ps| - 1];
      ConvertPartsReady(init);
      ConvertPartReady(last);
      ReadyAppend(ConvertParts(init), ConvertPart(last));
      ReadyAppend(init, [last]);
      assert ps == init + [last];
    }
  }

  /** One part converts to parts Claude accepts, and an acceptable part is kept. */
  lemma ConvertPartReady(p: Part)
    ensures ClaudeReady(ConvertPart(p))
    ensures !p.ImageUrlPart? && !p.NonDictPart? ==> ConvertPart(p) == [p]
  {
    if p.ImageUrlPart? {
      var q := ConvertImageUrl(p.url);
      assert q.ImageBlock? || q.TextPart?;
    }
  }

  lemma ReadyAppend(a: seq<Part>, b: seq<Part>)
    ensures ClaudeReady(a + b) <==> ClaudeReady(a) && ClaudeReady(b)
  {
    if ClaudeReady(a + b) {
      forall i | 0 <= i < |b| ensures !b[i].ImageUrlPart? && !b[i].NonDictPart? {
        assert b[i] == (a + b)[|a| + i];
      }
      forall i | 0 <= i < |a| ensures !a[i].ImageUrlPart? && !a[i].NonDictPart? {
        assert a[i] == (a + b)[i];
      }
    }
  }

  /** Converting twice is converting once. */
  lemma ConvertPartsIdempotent(ps: seq<Part>)
    ensures ConvertParts(ConvertParts(ps)) == ConvertParts(ps)
  {
    ConvertPartsReady(ps);
    ConvertPartsReady(ConvertParts(ps));
  }

  /** A well-formed data URL round-trips: its media type and payload come
      back out of the image block. */
  lemma DataUrlRoundTrip(mediaType: string, data: string)
    requires mediaType != "" && ',' !in mediaType && ';' !in mediaType
    ensures ConvertPart(ImageUrlPart("data:" + mediaType + ";base64," + data))
         == [ImageBlock(mediaType, data)]
  {
    DataUrlConverts(mediaType, data);
  }

  /** A data URL without a media type falls back to `image/png`. */
  lemma DataUrlDefaultMediaType(data: string)
    ensures ConvertPart(ImageUrlPart("data:;base64," + data)) == [ImageBlock(DEFAULT_MEDIA_TYPE, data)]
  {
    DataUrlConverts("", data);
    EmptyMediaType(data);
  }

  lemma EmptyMediaType(data: string)
    ensures "data:;base64," + data == "data:" + "" + ";base64," + data
  {
    assert "data:" + "" == "data:";
    assert "data:" + ";base64," == "data:;base64,";
  }

  /** The conversion of `data:<mediaType>;base64,<data>`. */
  lemma DataUrlConverts(mediaType: string, data: string)
    requires ',' !in mediaType && ';' !in mediaType
    ensures ConvertImageUrl("data:" + mediaType + ";base64," + data)
         == ImageBlock(if mediaType == "" then DEFAULT_MEDIA_TYPE else mediaType, data)
  {
    UrlShape(mediaType, data);
    HeaderHasNoComma(mediaType);
    DataUrlSplit("data:" + mediaType + ";base64," + data, "data:" + mediaType + ";base64", data);
    HeaderMediaType(mediaType);
  }

  /** A `data:` URL is cut at its first comma into header and payload. */
  lemma DataUrlSplit(url: string, header: string, data: string)
    requires url == header + [','] + data && ',' !in header && StartsWith(url, "data:")
    ensures var m := Before(AfterOrAll(header, ':'), ';');
      ConvertImageUrl(url) == ImageBlock(if m == "" then DEFAULT_MEDIA_TYPE else m, data)
  {
    PartitionAround(header, data, ',');
  }

  lemma UrlShape(mediaType: string, data: string)
    ensures var url := "data:" + mediaType + ";base64," + data;
      url == ("data:" + mediaType + ";base64") + [','] + data && StartsWith(url, "data:")
  {
    assert ";base64," == ";base64" + [','];
    DataPrefix(mediaType + ";base64," + data);
    assert "data:" + mediaType + ";base64," + data == "data:" + (mediaType + ";base64," + data);
  }

  lemma HeaderHasNoComma(mediaType: string)
    requires ',' !in mediaType
    ensures ',' !in "data:" + mediaType + ";base64"
  {
    var header := "data:" + mediaType + ";base64";
    forall i | 0 <= i < |header| ensures header[i] != ',' {
      if 5 <= i < 5 + |mediaType| {
        assert header[i] == mediaType[i - 5];
      }
    }
  }

  /** The media type is what lies between the colon and the semicolon. */
  lemma HeaderMediaType(mediaType: string)
    requires ';' !in mediaType
    ensures Before(AfterOrAll("data:" + mediaType + ";base64", ':'), ';') == mediaType
  {
    var rest := mediaType + ";base64";
    assert "data:" + mediaType + ";base64" == "data" + [':'] + rest;
    PartitionAround("data", rest, ':');
    assert rest == mediaType + [';'] + "base64";
    PartitionAround(mediaType, "base64", ';');
  }

  lemma DataPrefix(rest: string)
    ensures StartsWith("data:" + rest, "data:")
  {
    assert ("data:" + rest)[..5] == "data:";
  }

  method ConvertImagePartsForClaude(ps: seq<Part>) returns (converted: seq<Part>)
    ensures converted == ConvertParts(ps)
    ensures ClaudeReady(converted)
  {
    converted := [];
    for i := 0 to |ps|
      invariant converted == ConvertParts(ps[..i])
    {
      assert ps[..i + 1][..i] == ps[..i];
      var part := ps[i];
      match part {
        case NonDictPart(_) =>
        case ImageUrlPart(url) =>
          converted := converted + [ConvertImageUrl(url)];
        case _ =>
          converted := converted + [part];
      }
    }
    assert ps[..|ps|] == ps;
    ConvertPartsReady(ps);
  }

  // ---------------------------------------------------------------------
  // `_merge_messages`
  // ---------------------------------------------------------------------

  /** A content value as a part list; the empty string contributes nothing. */
  function AsList(c: Content): seq<Part> {
    match c
    case Parts(ps) => ps
    case Text(s) => if s == "" then [] else [TextPart(s)]
  }

  /** `_merge_messages`: two string contents are joined into one string;
      otherwise the result is multipart, with the parts of `a` before those
      of `b` (a non-empty string standing as one text part, an empty one as
      none). */
  function MergeMessages(a: Message, b: Message): (m: Message)
    ensures m.role == a.role
    ensures m.content.Text? <==> a.content.Text? && b.content.Text?
    ensures m.content.Parts? ==>
      && |m.content.parts| == |AsList(a.content)| + |AsList(b.content)|
      && m.content.parts[..|AsList(a.content)|] == AsList(a.content)
      && m.content.parts[|AsList(a.content)|..] == AsList(b.content)
  {
    if a.content.Text? && b.content.Text? then
      Message(a.role, Text(a.content.s + "\n" + b.content.s))
    else
      Message(a.role, Parts(AsList(a.content) + AsList(b.content)))
  }

  /** Content that flattens to some text. */
  predicate HasText(c: Content) {
    match c
    case Text(s) => s != ""
    case Parts(ps) => |Pieces(ps)| > 0
  }

  /** Merging keeps both texts, in order, one newline apart: always for two
      strings, and for multipart content when neither side is blank. */
  lemma MergeKeepsText(a: Message, b: Message)
    requires (a.content.Text? && b.content.Text?) || (HasText(a.content) && HasText(b.content))
    ensures Flatten(MergeMessages(a, b).content) == Flatten(a.content) + "\n" + Flatten(b.content)
  {
    if !(a.content.Text? && b.content.Text?) {
      assert Flatten(Parts(AsList(a.content))) == Flatten(a.content) && |Pieces(AsList(a.content))| > 0 by {
        if a.content.Text? { assert Pieces([TextPart(a.content.s)]) == [a.content.s]; }
      }
      assert Flatten(Parts(AsList(b.content))) == Flatten(b.content) && |Pieces(AsList(b.content))| > 0 by {
        if b.content.Text? { assert Pieces([TextPart(b.content.s)]) == [b.content.s]; }
      }
      FlattenAppend(AsList(a.content), AsList(b.content));
    }
  }

  // ---------------------------------------------------------------------
  // `_format_messages_claude`
  // ---------------------------------------------------------------------

  /** `tool`, `function` and every other role become `assistant`. */
  function NormalizeRole(role: string): (r: string)
    ensures r == USER || r == ASSISTANT
    ensures r == role <==> role == USER || role == ASSISTANT
  {
    if role == USER || role == ASSISTANT then role else ASSISTANT
  }

  /** The formatter's running state: the collected system text and the body. */
  datatype ClaudeState = ClaudeState(system: Option<string>, body: seq<Message>)

  function ClaudeContent(c: Content): Content {
    match c
    case Parts(ps) => Parts(ConvertParts(ps))
    case Text(_) => c
  }

  function ClaudeStep(st: ClaudeState, m: Message): ClaudeState {
    if m.role == SYSTEM then
      var text := Flatten(m.content);
      ClaudeState(if st.system.None? then Some(text) else Some(st.system.value + "\n" + text), st.body)
    else
      var msg := Message(NormalizeRole(m.role), ClaudeContent(m.content));
      var n := |st.body|;
      if n > 0 && st.body[n - 1].role == msg.role then
        ClaudeState(st.system, st.body[..n - 1] + [MergeMessages(st.body[n - 1], msg)])
      else
        ClaudeState(st.system, st.body + [msg])
  }

  function ClaudeScan(ms: seq<Message>): ClaudeState {
    if |ms| == 0 then ClaudeState(None, []) else ClaudeStep(ClaudeScan(ms[..|ms| - 1]), ms[|ms| - 1])
  }

  const START_MESSAGE: Message := Message(USER, Text("(start)"))

  /** The body (starting with a user turn) and the extracted system text. */
  function FormatClaude(ms: seq<Message>): ClaudeState {
    var st := ClaudeScan(ms);
    if |st.body| > 0 && st.body[0].role != USER then ClaudeState(st.system, [START_MESSAGE] + st.body)
    else st
  }

  /** Only user and assistant turns, never two of the same role in a row. */
  predicate Alternating(body: seq<Message>) {
    && (forall i :: 0 <= i < |body| ==> body[i].role == USER || body[i].role == ASSISTANT)
    && (forall i :: 0 <= i < |body| - 1 ==> body[i].role != body[i + 1].role)
  }

  lemma {:induction false} ScanAlternates(ms: seq<Message>)
    ensures Alternating(ClaudeScan(ms).body)
    decreases |ms|
  {
    if |ms| > 0 {
      ScanAlternates(ms[..|ms| - 1]);
    }
  }

  /** The body Claude receives alternates strictly and opens with a user turn. */
  lemma ClaudeBodyWellFormed(ms: seq<Message>)
    ensures Alternating(FormatClaude(ms).body)
    ensures |FormatClaude(ms).body| > 0 ==> FormatClaude(ms).body[0].role == USER
  {
    ScanAlternates(ms);
  }

  /** The flattened texts of the system messages, in order. */
  function SystemTexts(ms: seq<Message>): seq<string> {
    if |ms| == 0 then []
    else
      var m := ms[|ms| - 1];
      SystemTexts(ms[..|ms| - 1]) + (if m.role == SYSTEM then [Flatten(m.content)] else [])
  }

  /** The system text is absent when there is no system message, and is
      otherwise every system message's text joined by newlines. */
  lemma {:induction false} ScanSystemText(ms: seq<Message>)
    ensures ClaudeScan(ms).system == if |SystemTexts(ms)| == 0 then None else Some(Join("\n", SystemTexts(ms)))
    decreases |ms|
  {
    if |ms| > 0 {
      var init := ms[..|ms| - 1];
      var m := ms[|ms| - 1];
      ScanSystemText(init);
      assert ClaudeScan(ms) == ClaudeStep(ClaudeScan(init), m);
      if m.role == SYSTEM {
        assert SystemTexts(ms) == SystemTexts(init) + [Flatten(m.content)];
        if |SystemTexts(init)| > 0 {
          JoinSnoc("\n", SystemTexts(init), Flatten(m.content));
        } else {
          assert SystemTexts(ms) == [Flatten(m.content)];
        }
      } else {
        assert SystemTexts(ms) == SystemTexts(init);
      }
    }
  }

  /** The system text is absent when there is no system message, and is
      otherwise every system message's text joined by newlines. */
  lemma ClaudeSystemText(ms: seq<Message>)
    ensures FormatClaude(ms).system == if |SystemTexts(ms)| == 0 then None else Some(Join("\n", SystemTexts(ms)))
  {
    ScanSystemText(ms);
  }

  /** The role sequence of a body. */
  function Roles(body: seq<Message>): seq<string> {
    seq(|body|, i requires 0 <= i < |body| => body[i].role)
  }

  /** Normalised roles of the non-system messages, in order. */
  function TurnRoles(ms: seq<Message>): seq<string> {
    if |ms| == 0 then []
    else
      var m := ms[|ms| - 1];
      TurnRoles(ms[..|ms| - 1]) + (if m.role == SYSTEM then [] else [NormalizeRole(m.role)])
  }

  /** Collapses each run of equal adjacent elements into one. */
  function Dedup(rs: seq<string>): (d: seq<string>)
    ensures |d| <= |rs|
    ensures |rs| > 0 ==> |d| > 0 && d[|d| - 1] == rs[|rs| - 1]
  {
    if |rs| == 0 then []
    else
      var d := Dedup(rs[..|rs| - 1]);
      if |d| > 0 && d[|d| - 1] == rs[|rs| - 1] then d else d + [rs[|rs| - 1]]
  }

  lemma DedupSnoc(rs: seq<string>, x: string)
    ensures Dedup(rs + [x]) == var d := Dedup(rs); if |d| > 0 && d[|d| - 1] == x then d else d + [x]
  {
    assert (rs + [x])[..|rs|] == rs;
  }

  /** One non-system message adds a turn only when its role differs from
      the last turn's. */
  lemma StepRoles(st: ClaudeState, m: Message)
    requires m.role != SYSTEM
    ensures var r := Roles(st.body); var role := NormalizeRole(m.role);
      Roles(ClaudeStep(st, m).body) == if |r| > 0 && r[|r| - 1] == role then r else r + [role]
  {
    var n := |st.body|;
    var msg := Message(NormalizeRole(m.role), ClaudeContent(m.content));
    if n > 0 && st.body[n - 1].role == msg.role {
      var nb := st.body[..n - 1] + [MergeMessages(st.body[n - 1], msg)];
      assert Roles(nb) == Roles(st.body);
    } else {
      assert Roles(st.body + [msg]) == Roles(st.body) + [msg.role];
    }
  }

  /** Before the `(start)` insertion the body has one message per run of
      equal (normalised) roles among the non-system messages. */
  lemma {:induction false} ScanRoles(ms: seq<Message>)
    ensures Roles(ClaudeScan(ms).body) == Dedup(TurnRoles(ms))
    decreases |ms|
  {
    if |ms| > 0 {
      var init := ms[..|ms| - 1];
      var m := ms[|ms| - 1];
      ScanRoles(init);
      assert ClaudeScan(ms) == ClaudeStep(ClaudeScan(init), m);
      if m.role == SYSTEM {
        assert TurnRoles(ms) == TurnRoles(init);
      } else {
        assert TurnRoles(ms) == TurnRoles(init) + [NormalizeRole(m.role)];
        DedupSnoc(TurnRoles(init), NormalizeRole(m.role));
        StepRoles(ClaudeScan(init), m);
      }
    }
  }

  /** The final body's roles: the runs of turn roles, behind a user
      `(start)` turn when the first run is an assistant one. */
  lemma ClaudeRoles(ms: seq<Message>)
    ensures var d := Dedup(TurnRoles(ms));
      Roles(FormatClaude(ms).body) == if |d| > 0 && d[0] != USER then [USER] + d else d
  {
    ScanRoles(ms);
    var st := ClaudeScan(ms);
    if |st.body| > 0 {
      assert Roles(st.body)[0] == st.body[0].role;
      if st.body[0].role != USER {
        RolesCons(START_MESSAGE, st.body);
      }
    }
  }

  lemma RolesCons(m: Message, body: seq<Message>)
    ensures Roles([m] + body) == [m.role] + Roles(body)
  {
    assert forall i :: 0 < i <= |body| ==> ([m] + body)[i] == body[i - 1];
  }

  /** A conversation that already alternates, opens with a user turn and
      holds only string content passes through unchanged, with no system text. */
  lemma {:induction false} ClaudeKeepsWellFormed(ms: seq<Message>)
    requires Alternating(ms)
    requires |ms| > 0 ==> ms[0].role == USER
    requires forall i :: 0 <= i < |ms| ==> ms[i].content.Text?
    ensures FormatClaude(ms) == ClaudeState(None, ms)
    decreases |ms|
  {
    if |ms| > 0 {
      ScanUnchanged(ms);
    }
  }

  lemma {:induction false} ScanUnchanged(ms: seq<Message>)
    requires Alternating(ms)
    requires forall i :: 0 <= i < |ms| ==> ms[i].content.Text?
    ensures ClaudeScan(ms) == ClaudeState(None, ms)
    decreases |ms|
  {
    if |ms| > 0 {
      var init := ms[..|ms| - 1];
      assert Alternating(init);
      ScanUnchanged(init);
      assert ms == init + [ms[|ms| - 1]];
    }
  }

  method FormatMessagesClaude(ms: seq<Message>) returns (body: seq<Message>, systemText: Option<string>)
    ensures ClaudeState(systemText, body) == FormatClaude(ms)
    ensures Alternating(body)
    ensures |body| > 0 ==> body[0].role == USER
  {
    systemText := None;
    body := [];
    for i := 0 to |ms|
      invariant ClaudeState(systemText, body) == ClaudeScan(ms[..i])
    {
      assert ms[..i + 1][..i] == ms[..i];
      var role := ms[i].role;
      var content := ms[i].content;
      if role == SYSTEM {
        var text := Flatten(content);
        if systemText.None? {
          systemText := Some(text);
        } else {
          systemText := Some(systemText.value + "\n" + text);
        }
      } else {
        if role != USER && role != ASSISTANT {
          role := ASSISTANT;
        }
        if content.Parts? {
          var converted := ConvertImagePartsForClaude(content.parts);
          content := Parts(converted);
        }
        if |body| > 0 && body[|body| - 1].role == role {
          body := body[..|body| - 1] + [MergeMessages(body[|body| - 1], Message(role, content))];
        } else {
          body := body + [Message(role, content)];
        }
      }
    }
    assert ms[..|ms|] == ms;
    if |body| > 0 && body[0].role != USER {
      body := [START_MESSAGE] + body;
    }
    ClaudeBodyWellFormed(ms);
  }
}
