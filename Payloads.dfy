/** Request bodies for the two Copilot endpoints and the compact summary
    attached to request errors.  A JSON object is an ordered list of
    (key, value) entries, as a Python dict iterates in insertion order. */
module Payloads {
  import opened Wrappers
  import opened Strings
  import opened Messages

  datatype Value =
    | VStr(s: string)
    | VInt(i: int)
    | VBool(b: bool)
    | VMessages(ms: seq<Message>)
    | VTemperature                 // the float 0.1, never inspected

  /** The JSON keys the builders use. */
  datatype Key = Model | MessagesKey | Stream | N | TopP | Temperature | MaxTokens | System

  function KeyName(k: Key): string {
    match k
    case Model => "model"
    case MessagesKey => "messages"
    case Stream => "stream"
    case N => "n"
    case TopP => "top_p"
    case Temperature => "temperature"
    case MaxTokens => "max_tokens"
    case System => "system"
  }

  type Payload = seq<(Key, Value)>

  const DEFAULT_CLAUDE_MAX_TOKENS: int := 16000
  const SUMMARY_SYSTEM_LIMIT: nat := 80

  function Keys(p: Payload): seq<Key> {
    seq(|p|, i requires 0 <= i < |p| => p[i].0)
  }

  predicate DistinctKeys(p: Payload) {
    forall i, j :: 0 <= i < j < |p| ==> p[i].0 != p[j].0
  }

  /** `payload.get(key)`: the value of the first entry under `key`. */
  function Lookup(p: Payload, key: Key): Option<Value> {
    if |p| == 0 then None
    else if p[0].0 == key then Some(p[0].1)
    else Lookup(p[1..], key)
  }

  /** `get` finds a key exactly when the object has it, and what it finds
      is stored under that key. */
  lemma {:induction false} LookupCorrect(p: Payload, key: Key)
    ensures Lookup(p, key).None? <==> key !in Keys(p)
    ensures Lookup(p, key).Some? ==> (key, Lookup(p, key).value) in p
    decreases |p|
  {
    if |p| > 0 {
      assert Keys(p) == [p[0].0] + Keys(p[1..]);
      if p[0].0 != key {
        LookupCorrect(p[1..], key);
      }
    }
  }

  /** A key no entry has is not found. */
  lemma {:induction false} LookupAbsent(p: Payload, key: Key)
    requires forall i :: 0 <= i < |p| ==> p[i].0 != key
    ensures Lookup(p, key) == None
    decreases |p|
  {
    if |p| > 0 {
      assert forall i :: 0 <= i < |p[1..]| ==> p[1..][i] == p[i + 1];
      LookupAbsent(p[1..], key);
    }
  }

  /** In an object with distinct keys, `get` returns the entry stored under the key. */
  lemma {:induction false} LookupDistinct(p: Payload, i: nat)
    requires DistinctKeys(p) && i < |p|
    ensures Lookup(p, p[i].0) == Some(p[i].1)
    decreases i
  {
    if i > 0 {
      assert DistinctKeys(p[1..]);
      assert p[1..][i - 1] == p[i];
      LookupDistinct(p[1..], i - 1);
    }
  }

  /** `_build_payload_openai` */
  function BuildPayloadOpenAI(messages: seq<Message>, model: string, stream: bool): Payload {
    [ (Model, VStr(model)),
      (MessagesKey, VMessages(messages)),
      (Stream, VBool(stream)),
      (N, VInt(1)),
      (TopP, VInt(1)),
      (Temperature, VTemperature) ]
  }

  /** `_build_payload_gemini` */
  function BuildPayloadGemini(messages: seq<Message>, model: string, stream: bool): Payload {
    [ (Model, VStr(model)),
      (MessagesKey, VMessages(messages)),
      (Stream, VBool(stream)),
      (N, VInt(1)),
      (TopP, VInt(1)),
      (Temperature, VTemperature) ]
  }

  /** `_build_payload_claude`; `system` is sent only when it is a non-empty string. */
  function BuildPayloadClaude(messages: seq<Message>, model: string, stream: bool,
                              systemText: Option<string>, maxOutputTokens: int): Payload
  {
    var base := [ (Model, VStr(model)),
                  (MessagesKey, VMessages(messages)),
                  (MaxTokens, VInt(maxOutputTokens)),
                  (Stream, VBool(stream)),
                  (Temperature, VTemperature) ];
    if systemText.Some? && systemText.value != "" then base + [(System, VStr(systemText.value))]
    else base
  }

  /** Gemini requests are byte-for-byte the OpenAI ones. */
  lemma GeminiPayloadIsOpenAI(messages: seq<Message>, model: string, stream: bool)
    ensures BuildPayloadGemini(messages, model, stream) == BuildPayloadOpenAI(messages, model, stream)
  {
  }

  /** The OpenAI-style payload is a proper JSON object carrying the messages,
      model and stream flag with `n = 1` and `top_p = 1`, and nothing Claude-only. */
  lemma OpenAIPayloadFields(messages: seq<Message>, model: string, stream: bool)
    ensures var p := BuildPayloadOpenAI(messages, model, stream);
      && DistinctKeys(p)
      && Lookup(p, Model) == Some(VStr(model))
      && Lookup(p, MessagesKey) == Some(VMessages(messages))
      && Lookup(p, Stream) == Some(VBool(stream))
      && Lookup(p, N) == Some(VInt(1))
      && Lookup(p, TopP) == Some(VInt(1))
      && Lookup(p, Temperature) == Some(VTemperature)
      && Lookup(p, MaxTokens) == None
      && Lookup(p, System) == None
  {
    var p := BuildPayloadOpenAI(messages, model, stream);
    LookupDistinct(p, 0);
    LookupDistinct(p, 1);
    LookupDistinct(p, 2);
    LookupDistinct(p, 3);
    LookupDistinct(p, 4);
    if |p| == 6 {
      LookupDistinct(p, 5);
    }
    LookupAbsent(p, MaxTokens);
    LookupAbsent(p, System);
  }

  /** The Claude payload is a proper JSON object; it carries `max_tokens`,
      never `n` or `top_p`, and `system` exactly when there is non-empty
      system text. */
  lemma ClaudePayloadFields(messages: seq<Message>, model: string, stream: bool,
                            systemText: Option<string>, maxOutputTokens: int)
    ensures var p := BuildPayloadClaude(messages, model, stream, systemText, maxOutputTokens);
      && DistinctKeys(p)
      && Lookup(p, Model) == Some(VStr(model))
      && Lookup(p, MessagesKey) == Some(VMessages(messages))
      && Lookup(p, Stream) == Some(VBool(stream))
      && Lookup(p, MaxTokens) == Some(VInt(maxOutputTokens))
      && Lookup(p, Temperature) == Some(VTemperature)
      && Lookup(p, N) == None
      && Lookup(p, TopP) == None
      && (Lookup(p, System).Some? <==> systemText.Some? && systemText.value != "")
      && (Lookup(p, System).Some? ==> Lookup(p, System) == Some(VStr(systemText.value)))
  {
    var base := BuildPayloadClaude(messages, model, stream, None, maxOutputTokens);
    ClaudeBaseFields(messages, model, stream, maxOutputTokens);
    if systemText.Some? && systemText.value != "" {
      var p := BuildPayloadClaude(messages, model, stream, systemText, maxOutputTokens);
      var tail := [(System, VStr(systemText.value))];
      assert p == base + tail;
      assert DistinctKeys(p) by {
        assert forall i :: 0 <= i < |base| ==> base[i].0 != System;
      }
      LookupAppend(base, tail, Model);
      LookupAppend(base, tail, MessagesKey);
      LookupAppend(base, tail, Stream);
      LookupAppend(base, tail, MaxTokens);
      LookupAppend(base, tail, Temperature);
      LookupAppend(base, tail, N);
      LookupAppend(base, tail, TopP);
      LookupAppend(base, tail, System);
    }
  }

  /** The Claude payload without a system entry. */
  lemma ClaudeBaseFields(messages: seq<Message>, model: string, stream: bool, maxOutputTokens: int)
    ensures var p := BuildPayloadClaude(messages, model, stream, None, maxOutputTokens);
      && DistinctKeys(p)
      && Lookup(p, Model) == Some(VStr(model))
      && Lookup(p, MessagesKey) == Some(VMessages(messages))
      && Lookup(p, MaxTokens) == Some(VInt(maxOutputTokens))
      && Lookup(p, Stream) == Some(VBool(stream))
      && Lookup(p, Temperature) == Some(VTemperature)
      && Lookup(p, N) == None && Lookup(p, TopP) == None && Lookup(p, System) == None
  {
    var p := BuildPayloadClaude(messages, model, stream, None, maxOutputTokens);
    LookupDistinct(p, 0);
    LookupDistinct(p, 1);
    LookupDistinct(p, 2);
    LookupDistinct(p, 3);
    LookupDistinct(p, 4);
    LookupAbsent(p, N);
    LookupAbsent(p, TopP);
    LookupAbsent(p, System);
  }

  /** `get` on two objects' entries in a row looks in the first one first. */
  lemma {:induction false} LookupAppend(p: Payload, q: Payload, key: Key)
    ensures Lookup(p + q, key) == if Lookup(p, key).Some? then Lookup(p, key) else Lookup(q, key)
    decreases |p|
  {
    if |p| == 0 {
      assert p + q == q;
    } else {
      assert (p + q)[1..] == p[1..] + q;
      LookupAppend(p[1..], q, key);
    }
  }

  // ---------------------------------------------------------------------
  // `_summarise_payload`
  // ---------------------------------------------------------------------

  /** `len(v)` of a value that has one. */
  predicate Sized(v: Value) {
    v.VMessages? || v.VStr?
  }

  function Len(v: Value): nat
    requires Sized(v)
  {
    if v.VMessages? then |v.ms| else |v.s|
  }

  /** Every `messages` entry has a length, as `len(v)` requires. */
  predicate Summarisable(p: Payload) {
    forall i :: 0 <= i < |p| && p[i].0 == MessagesKey ==> Sized(p[i].1)
  }

  function SummariseEntry(k: Key, v: Value): Value
    requires k == MessagesKey ==> Sized(v)
  {
    if k == MessagesKey then VStr("[" + NatToString(Len(v)) + " messages]")
    else if k == System && v.VStr? && |v.s| > SUMMARY_SYSTEM_LIMIT then
      VStr(v.s[..SUMMARY_SYSTEM_LIMIT] + "\U{2026}")
    else v
  }

  function SummarisePayload(p: Payload): (summary: Payload)
    requires Summarisable(p)
  {
    seq(|p|, i requires 0 <= i < |p| => (p[i].0, SummariseEntry(p[i].0, p[i].1)))
  }

  /** The summary keeps every key in place, replaces the message list by
      its count, cuts a long system prompt to 80 characters plus an
      ellipsis, and leaves every other entry as it was. */
  lemma SummaryShape(p: Payload)
    requires Summarisable(p)
    ensures Keys(SummarisePayload(p)) == Keys(p)
    ensures forall i :: 0 <= i < |p| && p[i].0 == MessagesKey ==>
      SummarisePayload(p)[i].1 == VStr("[" + NatToString(Len(p[i].1)) + " messages]")
    ensures forall i :: 0 <= i < |p| && p[i].0 == System && p[i].1.VStr? ==>
      var s := SummarisePayload(p)[i].1;
      && s.VStr?
      && |s.s| <= SUMMARY_SYSTEM_LIMIT + 1
      && (|p[i].1.s| <= SUMMARY_SYSTEM_LIMIT ==> s == p[i].1)
      && (|p[i].1.s| > SUMMARY_SYSTEM_LIMIT ==>
            && |s.s| == SUMMARY_SYSTEM_LIMIT + 1
            && s.s == p[i].1.s[..SUMMARY_SYSTEM_LIMIT] + "\U{2026}")
    ensures forall i :: 0 <= i < |p| && p[i].0 != MessagesKey && p[i].0 != System ==>
      SummarisePayload(p)[i] == p[i]
  {
  }

  /** A summary of a built payload reports the number of messages sent. */
  lemma SummaryCountsMessages(messages: seq<Message>, model: string, stream: bool)
    ensures var p := BuildPayloadOpenAI(messages, model, stream);
      Summarisable(p) && Lookup(SummarisePayload(p), MessagesKey) == Some(VStr("[" + NatToString(|messages|) + " messages]"))
  {
    var p := BuildPayloadOpenAI(messages, model, stream);
    OpenAISummarisable(messages, model, stream);
    OpenAIPayloadFields(messages, model, stream);
    SummaryLookup(p, MessagesKey);
  }

  /** `get` on the summary finds the summarised form of what it finds on the payload. */
  lemma {:induction false} SummaryLookup(p: Payload, key: Key)
    requires Summarisable(p)
    ensures key == MessagesKey && Lookup(p, key).Some? ==> Sized(Lookup(p, key).value)
    ensures Lookup(SummarisePayload(p), key)
         == if Lookup(p, key).Some? then Some(SummariseEntry(key, Lookup(p, key).value)) else None
    decreases |p|
  {
    if |p| > 0 {
      var s := SummarisePayload(p);
      assert s[0] == (p[0].0, SummariseEntry(p[0].0, p[0].1));
      if p[0].0 != key {
        assert Summarisable(p[1..]) by {
          assert forall i :: 0 <= i < |p[1..]| ==> p[1..][i] == p[i + 1];
        }
        assert s[1..] == SummarisePayload(p[1..]);
        SummaryLookup(p[1..], key);
      }
    }
  }

  /** Only the message list sits under `messages` in a built payload. */
  lemma OpenAISummarisable(messages: seq<Message>, model: string, stream: bool)
    ensures Summarisable(BuildPayloadOpenAI(messages, model, stream))
  {
    var p := BuildPayloadOpenAI(messages, model, stream);
    forall i | 0 <= i < |p| && p[i].0 == MessagesKey ensures Sized(p[i].1) {
      assert i == 1 by {
        assert p[0].0 == Model && p[2].0 == Stream && p[3].0 == N && p[4].0 == TopP && p[5].0 == Temperature;
      }
    }
  }
}
