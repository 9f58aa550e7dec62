/** The stateful part of the Copilot client: the bearer token and its
    refresh rule, the per-model limits cache filled from the models
    endpoint, and the pure request preparation of `chat` (trimming,
    formatting, payload and endpoint choice).  The clock, the token
    exchange and the HTTP responses are parameters. */
module CopilotClient {
  import opened Wrappers
  import opened Messages
  import opened ModelFamily
  import opened ModelAliases
  import opened ContextManager
  import opened Formatters
  import opened Payloads

  const TOKEN_URL: string := "https://api.github.com/copilot_internal/v2/token"
  const COPILOT_CHAT_URL: string := "https://api.githubcopilot.com/chat/completions"
  const COPILOT_CLAUDE_URL: string := "https://api.githubcopilot.com/v1/messages"

  /** Seconds before expiry at which the token is refreshed. */
  const REFRESH_MARGIN: int := 60

  const DEFAULT_CONTEXT_WINDOW_TOKENS: int := 8192
  const DEFAULT_PROMPT_TOKENS: int := 8192
  const DEFAULT_OUTPUT_TOKENS: int := 1024

  /** What the token exchange returns: the bearer token and its expiry time. */
  datatype TokenGrant = TokenGrant(token: string, expiresAt: int)

  /** Why the token exchange failed: an HTTP error (with the status and the
      extracted error detail when there was a response), or anything else. */
  datatype AuthFailure =
    | HttpFailure(status: Option<int>, detail: string)
    | OtherFailure(description: string)

  /** `CopilotAPIError`'s diagnostic fields (the message text is not modelled). */
  datatype ApiError = ApiError(statusCode: Option<int>, endpoint: string, responseBody: string)

  /** The error a failed refresh raises. */
  function RefreshError(f: AuthFailure): (e: ApiError)
    ensures f.HttpFailure? ==> e.endpoint == TOKEN_URL && e.statusCode == f.status
    ensures f.OtherFailure? ==> e.endpoint == "" && e.statusCode.None?
  {
    match f
    case HttpFailure(status, detail) => ApiError(status, TOKEN_URL, detail)
    case OtherFailure(_) => ApiError(None, "", "")
  }

  /** One model entry of the models endpoint: its id and `capabilities.limits`. */
  datatype LimitsEntry = LimitsEntry(id: string, limits: map<string, int>)

  /** The outcome of the models request. */
  datatype ModelsResponse =
    | RequestFailed                         // HTTP error, network error or unreadable body
    | DataObject(entries: seq<LimitsEntry>) // `{"data": [...]}`
    | BareList(entries: seq<LimitsEntry>)   // `[...]`
    | UnexpectedBody                        // any other JSON value

  function LimitOr(limits: map<string, int>, key: string, default: int): int {
    if key in limits then limits[key] else default
  }

  function LimitsFrom(limits: map<string, int>): ModelLimits {
    ModelLimits(LimitOr(limits, "max_context_window_tokens", DEFAULT_CONTEXT_WINDOW_TOKENS),
                LimitOr(limits, "max_prompt_tokens", DEFAULT_PROMPT_TOKENS),
                LimitOr(limits, "max_output_tokens", DEFAULT_OUTPUT_TOKENS))
  }

  /** An entry with limits is stored under its id and then its aliases;
      one without limits is skipped. */
  function ApplyEntry(c: Cache, e: LimitsEntry): Cache {
    if |e.limits| == 0 then c
    else
      var lim := LimitsFrom(e.limits);
      WithAliases(c[e.id := lim], e.id, lim)
  }

  function ApplyCatalog(c: Cache, es: seq<LimitsEntry>): Cache {
    if |es| == 0 then c else ApplyEntry(ApplyCatalog(c, es[..|es| - 1]), es[|es| - 1])
  }

  /** The loop of `fetch_model_limits` over the listed models. */
  method StoreCatalog(cache: Cache, entries: seq<LimitsEntry>) returns (result: Cache)
    ensures result == ApplyCatalog(cache, entries)
  {
    result := cache;
    for i := 0 to |entries|
      invariant result == ApplyCatalog(cache, entries[..i])
    {
      assert entries[..i + 1][..i] == entries[..i];
      var entry := entries[i];
      if |entry.limits| == 0 {
        continue;
      }
      var lim := LimitsFrom(entry.limits);
      result := result[entry.id := lim];
      result := StoreModelAliases(result, entry.id, lim);
    }
    assert entries[..|entries|] == entries;
  }

  /** The cache after a fetch whose token refresh succeeded. */
  function AfterFetch(c: Cache, response: ModelsResponse): Cache {
    match response
    case DataObject(es) => ApplyCatalog(c, es)
    case BareList(es) => ApplyCatalog(c, es)
    case _ => c
  }

  /** An entry with limits binds its own id to them. */
  lemma EntryStored(c: Cache, e: LimitsEntry)
    requires |e.limits| > 0
    ensures e.id in ApplyEntry(c, e) && ApplyEntry(c, e)[e.id] == LimitsFrom(e.limits)
  {
    var lim := LimitsFrom(e.limits);
    AliasesEffect(c[e.id := lim], e.id, lim);
  }

  /** One entry keeps every key, and every value it binds is either the old
      one or the entry's limits. */
  lemma EntryEffect(c: Cache, e: LimitsEntry)
    ensures forall k :: k in c ==> k in ApplyEntry(c, e)
    ensures forall k :: k in ApplyEntry(c, e) ==>
      (k in c && ApplyEntry(c, e)[k] == c[k]) || ApplyEntry(c, e)[k] == LimitsFrom(e.limits)
  {
    if |e.limits| > 0 {
      var lim := LimitsFrom(e.limits);
      AliasesEffect(c[e.id := lim], e.id, lim);
    }
  }

  /** A fetch never forgets a cached model: every key stays, and every
      value is either the one cached before or the limits of some entry. */
  lemma {:induction false} CatalogEffect(c: Cache, es: seq<LimitsEntry>)
    ensures forall k :: k in c ==> k in ApplyCatalog(c, es)
    ensures forall k :: k in ApplyCatalog(c, es) ==>
      (k in c && ApplyCatalog(c, es)[k] == c[k]) || exists e :: e in es && ApplyCatalog(c, es)[k] == LimitsFrom(e.limits)
    decreases |es|
  {
    if |es| > 0 {
      var init := es[..|es| - 1];
      var last := es[|es| - 1];
      CatalogEffect(c, init);
      EntryEffect(ApplyCatalog(c, init), last);
      var r := ApplyCatalog(c, es);
      forall k | k in r
        ensures (k in c && r[k] == c[k]) || exists e :: e in es && r[k] == LimitsFrom(e.limits)
      {
        if r[k] != LimitsFrom(last.limits) {
          var prev := ApplyCatalog(c, init);
          assert k in prev && r[k] == prev[k];
          if !(k in c && prev[k] == c[k]) {
            var e :| e in init && prev[k] == LimitsFrom(e.limits);
            assert e in es;
          }
        } else {
          assert last in es;
        }
      }
    }
  }

  /** The last entry that carries limits decides its own id's limits. */
  lemma LastEntryWins(c: Cache, es: seq<LimitsEntry>)
    requires |es| > 0 && |es[|es| - 1].limits| > 0
    ensures es[|es| - 1].id in ApplyCatalog(c, es)
    ensures ApplyCatalog(c, es)[es[|es| - 1].id] == LimitsFrom(es[|es| - 1].limits)
  {
    EntryStored(ApplyCatalog(c, es[..|es| - 1]), es[|es| - 1]);
  }

  /** A failed or unrecognised models response leaves the cache as it was. */
  lemma FetchFailureKeepsCache(c: Cache, response: ModelsResponse)
    requires response.RequestFailed? || response.UnexpectedBody?
    ensures AfterFetch(c, response) == c
  {
  }

  // ---------------------------------------------------------------------
  // The client object
  // ---------------------------------------------------------------------

  class Client {
    const githubToken: string
    var copilotToken: string
    var tokenExpiresAt: int
    var modelLimits: Cache

    constructor (githubToken: string)
      ensures this.githubToken == githubToken
      ensures copilotToken == "" && tokenExpiresAt == 0 && modelLimits == map[]
    {
      this.githubToken := githubToken;
      copilotToken := "";
      tokenExpiresAt := 0;
      modelLimits := map[];
    }

    /** The token is refreshed from 60 seconds before its expiry on.  The
        clock reads whole seconds: with an integral expiry, a fractional
        `now` compares as its floor does. */
    predicate NeedsRefresh(now: int)
      reads this
    {
      now >= tokenExpiresAt - REFRESH_MARGIN
    }

    /** `_ensure_token`: `exchange` is what the token exchange would return
        if it were called; it is called only when the token needs a refresh. */
    method EnsureToken(now: int, exchange: Result<TokenGrant, AuthFailure>) returns (outcome: Outcome<ApiError>)
      modifies this
      ensures modelLimits == old(modelLimits)
      ensures !old(NeedsRefresh(now)) ==>
        outcome.Pass? && copilotToken == old(copilotToken) && tokenExpiresAt == old(tokenExpiresAt)
      ensures old(NeedsRefresh(now)) && exchange.Ok? ==>
        outcome.Pass? && copilotToken == exchange.value.token && tokenExpiresAt == exchange.value.expiresAt
      ensures old(NeedsRefresh(now)) && exchange.Err? ==>
        outcome == Fail(RefreshError(exchange.error))
        && copilotToken == old(copilotToken) && tokenExpiresAt == old(tokenExpiresAt)
    {
      outcome := Pass;
      if now >= tokenExpiresAt - REFRESH_MARGIN {
        match exchange {
          case Ok(grant) =>
            copilotToken, tokenExpiresAt := grant.token, grant.expiresAt;
          case Err(failure) =>
            outcome := Fail(RefreshError(failure));
        }
      }
    }

    /** `fetch_model_limits`: a failed token refresh propagates; a failed or
        unrecognised models response returns the cache untouched; otherwise
        each entry with limits is stored with its aliases. */
    method FetchModelLimits(now: int, exchange: Result<TokenGrant, AuthFailure>, response: ModelsResponse)
      returns (result: Result<Cache, ApiError>)
      modifies this
      ensures old(NeedsRefresh(now)) && exchange.Err? ==>
        result == Err(RefreshError(exchange.error)) && modelLimits == old(modelLimits)
      ensures !(old(NeedsRefresh(now)) && exchange.Err?) ==>
        modelLimits == AfterFetch(old(modelLimits), response) && result == Ok(modelLimits)
      ensures copilotToken == (if old(NeedsRefresh(now)) && exchange.Ok? then exchange.value.token else old(copilotToken))
      ensures tokenExpiresAt == (if old(NeedsRefresh(now)) && exchange.Ok? then exchange.value.expiresAt else old(tokenExpiresAt))
    {
      var refreshed := EnsureToken(now, exchange);
      if refreshed.Fail? {
        return Err(refreshed.error);
      }
      var entries: seq<LimitsEntry>;
      match response {
        case DataObject(es) => entries := es;
        case BareList(es) => entries := es;
        case _ => return Ok(modelLimits);
      }
      modelLimits := StoreCatalog(modelLimits, entries);
      result := Ok(modelLimits);
    }

    /** `get_model_limits`: the cached limits, if any. */
    function GetModelLimits(modelId: string): (r: Option<ModelLimits>)
      reads this
      ensures r.Some? <==> modelId in modelLimits
      ensures r.Some? ==> r.value == modelLimits[modelId]
    {
      if modelId in modelLimits then Some(modelLimits[modelId]) else None
    }
  }

  // ---------------------------------------------------------------------
  // Request preparation in `chat`
  // ---------------------------------------------------------------------

  /** The budget `chat` trims to: the model's prompt limit with no reply
      buffer when limits are cached, else the module defaults. */
  function ChatBudget(limits: Option<ModelLimits>): (int, int) {
    match limits
    case Some(l) => (l.maxPromptTokens, 0)
    case None => (MAX_CONTEXT_TOKENS, REPLY_BUFFER_TOKENS)
  }

  function ClaudeMaxOutput(limits: Option<ModelLimits>): int {
    match limits
    case Some(l) => l.maxOutputTokens
    case None => DEFAULT_CLAUDE_MAX_TOKENS
  }

  datatype Request = Request(endpoint: string, payload: Payload)

  /** What `chat` sends for `messages`, before any network traffic: trim
      (unless pre-assembled), format for the model's family, build the
      payload and pick the endpoint.  Trimming can fail. */
  function PrepareChat(messages: seq<Message>, model: string, stream: bool, preAssembled: bool,
                       limits: Option<ModelLimits>): Result<Request, BudgetExceeded>
  {
    var (maxTokens, replyBuffer) := ChatBudget(limits);
    var trimmed := if preAssembled then Ok(messages) else ContextWindow(messages, maxTokens, replyBuffer);
    if trimmed.Err? then Err(trimmed.error)
    else
      match GetModelFamily(model)
      case Claude =>
        var st := FormatClaude(trimmed.value);
        Ok(Request(COPILOT_CLAUDE_URL,
                   BuildPayloadClaude(st.body, model, stream, st.system, ClaudeMaxOutput(limits))))
      case Gemini =>
        Ok(Request(COPILOT_CHAT_URL, BuildPayloadGemini(FormatGemini(trimmed.value), model, stream)))
      case OpenAI =>
        Ok(Request(COPILOT_CHAT_URL, BuildPayloadOpenAI(FormatOpenAI(trimmed.value), model, stream)))
  }

  /** Preparation fails exactly when trimming is requested and the
      mandatory messages alone exceed the budget. */
  lemma PrepareFailsOnlyOverBudget(messages: seq<Message>, model: string, stream: bool, preAssembled: bool,
                                   limits: Option<ModelLimits>)
    ensures PrepareChat(messages, model, stream, preAssembled, limits).Err? <==>
      !preAssembled && messages != [] &&
      ListCost(Mandatory(messages)) > ChatBudget(limits).0 - ChatBudget(limits).1
  {
  }

  /** Claude requests go to the Messages endpoint with the model's output
      limit (16000 without cached limits) and a strictly alternating body;
      every other family goes to the chat endpoint with `n = 1`. */
  lemma PreparedRequestShape(messages: seq<Message>, model: string, stream: bool, preAssembled: bool,
                             limits: Option<ModelLimits>)
    requires PrepareChat(messages, model, stream, preAssembled, limits).Ok?
    ensures var req := PrepareChat(messages, model, stream, preAssembled, limits).value;
      && (req.endpoint == COPILOT_CLAUDE_URL <==> GetModelFamily(model) == Claude)
      && (GetModelFamily(model) == Claude ==>
            && Lookup(req.payload, MaxTokens) == Some(VInt(ClaudeMaxOutput(limits)))
            && Lookup(req.payload, N) == None
            && Lookup(req.payload, MessagesKey).Some?
            && Lookup(req.payload, MessagesKey).value.VMessages?
            && Alternating(Lookup(req.payload, MessagesKey).value.ms))
      && (GetModelFamily(model) != Claude ==>
            Lookup(req.payload, N) == Some(VInt(1)) && Lookup(req.payload, MaxTokens) == None)
  {
    var (maxTokens, replyBuffer) := ChatBudget(limits);
    var trimmed := if preAssembled then messages else ContextWindow(messages, maxTokens, replyBuffer).value;
    match GetModelFamily(model)
    case Claude =>
      var st := FormatClaude(trimmed);
      ClaudePayloadFields(st.body, model, stream, st.system, ClaudeMaxOutput(limits));
      ClaudeBodyWellFormed(trimmed);
    case Gemini =>
      OpenAIPayloadFields(FormatGemini(trimmed), model, stream);
    case OpenAI =>
      OpenAIPayloadFields(trimmed, model, stream);
  }

  /** For OpenAI-family models with cached limits, the messages sent fit the
      model's prompt limit. */
  lemma OpenAIRequestFitsPromptLimit(messages: seq<Message>, model: string, stream: bool, limits: ModelLimits)
    requires messages != [] && GetModelFamily(model) == OpenAI
    requires PrepareChat(messages, model, stream, false, Some(limits)).Ok?
    ensures var p := PrepareChat(messages, model, stream, false, Some(limits)).value.payload;
      Lookup(p, MessagesKey).Some? && Lookup(p, MessagesKey).value.VMessages? &&
      ListCost(Lookup(p, MessagesKey).value.ms) <= limits.maxPromptTokens
  {
    WindowWithinBudget(messages, limits.maxPromptTokens, 0);
    OpenAIPayloadFields(ContextWindow(messages, limits.maxPromptTokens, 0).value, model, stream);
  }
}
