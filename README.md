# Copilot chat client core, modelled in Dafny

This project models the non-GUI core of a desktop chat client that talks to
several large-language-model backends through the GitHub Copilot gateway:

- **Token budgeting** (`ContextManager.dfy`). The character-approximation
  token counter, and `build_context_window`, which trims a conversation to a
  prompt budget. It keeps every system message and the current turn, and
  fills the rest with the newest contiguous run of history.
- **Provider adapter** (`ModelFamily.dfy`, `Formatters.dfy`, `Payloads.dfy`,
  `ModelAliases.dfy`, `SseDecoders.dfy`, `CopilotClient.dfy`):
  - the model-family dispatch;
  - the OpenAI, Gemini and Claude message rewriters and their content helpers;
  - the three request-body builders and the diagnostic payload summary;
  - the alias generator of the model-limits cache;
  - the two server-sent-event decoders;
  - the client object: its bearer-token refresh rule, its limits cache, and
    the request preparation of `chat`.
- **Conversation store** (`ChatStore.dfy`). The SQLite tables become
  in-memory maps inside a `Store` class. It models per-conversation sequence
  numbers, page arithmetic, the system-prompt slot, titles, and the rule that
  at least one conversation always exists and the active id names one of them.
- **Prompt registry** (`PromptManager.dfy`). A `PromptManager` class holds the
  prompts (an insertion-ordered dict), the active set and the display order.

Shared vocabulary is in `Wrappers.dfy` (Option, Result, Outcome),
`Strings.dfy` (the few `str` operations the code uses) and `Messages.dfy`
(the OpenAI-style message with string or multipart content).

The loops of the source that build results step by step are `method`s
proved equal to a specification function on their inputs:
- `BuildContextWindow`, `CountMessageTokens`;
- `FormatMessagesGemini`, `FormatMessagesClaude`, `ConvertImagePartsForClaude`;
- `StoreModelAliases`, `ParseSse`, `ParseClaudeSse`;
- `ReconcileOrder`, and others.

Two loops are modelled as functions instead:
- the gathering loop of `_flatten_content` is the function `Formatters.Flatten`;
- the loop of `_summarise_payload` is the comprehension `Payloads.SummarisePayload`.

The properties the code promises are lemmas about the specification
functions. The stateful objects (`Client`, `Store`, `PromptManager`) are classes whose
methods state their whole new state and keep each class's invariant.

Where the code and its docstrings differ, the model follows the code:

- The module docstring of `src/context_manager.py` says only a system message
  at index 0 is kept. The code keeps every system message before the last
  message and moves them to the front in their original order.
- The docstring of `_format_messages_claude` says later system messages are
  prepended to the next user message. The code appends every system message's
  flattened text to the one system string, and removes those messages from
  the body.

Consequences of the code as written that the model keeps:

- Because system messages move to the front, `build_context_window` returns a
  list that fits unchanged only when no system message follows a non-system
  one. `WindowIdentity` states that precondition.
- The code has no locking around the token refresh.
- A failing model-catalog request logs a warning and returns the cache
  unchanged (`FetchFailureKeepsCache`); it raises nothing.

## Model

| member | source | states |
|---|---|---|
| ContextManager.StrTokens | src/context_manager.py:66-72 | the approximate cost is at least 1 and is one token per started group of three characters: a non-empty string of cost n has between 3(n-1)+1 and 3n characters |
| ContextManager.MessageCost | src/context_manager.py:74-94 | a message costs at least the framing constant 4; string content adds at least 1; empty text costs exactly 5 and an empty part list exactly 4 |
| ContextManager.CountMessageTokens | src/context_manager.py:74-94 | the running-total loop over the parts computes the message's cost |
| ContextManager.MultipartCost | src/context_manager.py:83-93 | multipart content costs 4 plus its text parts' string costs plus 256 per image part; other parts and non-dict entries cost nothing |
| ContextManager.ListCostAppend | src/context_manager.py:97-102 | a list's cost is the sum of its messages' costs plus the 3-token priming, and splits over concatenation |
| ContextManager.SplitSystemMessages | src/context_manager.py:151-159 | the first loop separates the system messages and the rest, each in original order |
| ContextManager.PartitionPermutes | src/context_manager.py:155-159 | the two parts together hold every message exactly once (multiset equality) |
| ContextManager.PartitionCost | src/context_manager.py:155-163 | the two parts together cost what the list costs and have its length |
| ContextManager.SystemsAreSystem | src/context_manager.py:155-159 | every message of the first part has role system and none of the second does |
| ContextManager.SelectNewest | src/context_manager.py:177-191 | the newest-to-oldest walk keeps exactly the newest messages up to the first that does not fit |
| ContextManager.KeptFits | src/context_manager.py:183-191 | the kept history never costs more than the budget left for it |
| ContextManager.KeptStopsAtFirstMisfit | src/context_manager.py:183-191 | when something is dropped, the newest dropped message costs more than the budget still unused, so the walk never skips a message |
| ContextManager.KeepAllWhenFits | src/context_manager.py:183-191 | when the whole history fits nothing is dropped |
| ContextManager.BuildContextWindow | src/context_manager.py:109-211 | empty input gives empty output; it fails exactly when the system messages plus the last message exceed max_tokens - reply_buffer, and then reports that cost and the budget; otherwise the result fits the budget, ends with the input's last message, and is the system messages, a contiguous suffix of the history and the last message |
| ContextManager.WindowWithinBudget | src/context_manager.py:177-202 | a successful result (priming included) costs at most max_tokens - reply_buffer |
| ContextManager.WindowIdentity | src/context_manager.py:145-211 | a list that fits and has no system message after a non-system one is returned unchanged |
| ContextManager.WindowShortens | src/context_manager.py:177-202 | a list that does not fit as a whole comes back strictly shorter |
| ModelFamily.GetModelFamily | src/copilot_api.py:154-161 | an id is Claude exactly when its lower-cased form contains "claude"; Gemini exactly when it contains "gemini" but not "claude"; OpenAI exactly when it contains neither |
| ModelFamily.FamilyIgnoresCase | src/copilot_api.py:154-161 | ids that agree after lower-casing belong to the same family |
| ModelFamily.FamilyOfLowered | src/copilot_api.py:154-161 | lower-casing an id does not change its family |
| ModelFamily.ClaudeExample | src/copilot_api.py:154-161 | `Claude-Opus-4.5` is a Claude model (case-insensitive match) |
| ModelFamily.GeminiExample | src/copilot_api.py:154-161 | `gemini-2.5-pro` is a Gemini model |
| ModelFamily.OpenAIExample | src/copilot_api.py:154-161 | `gpt-4.1` falls to the OpenAI family |
| Formatters.FlattenAppend | src/copilot_api.py:257-270 | flattening two part lists that both contribute text is flattening each, joined by one newline |
| Formatters.GeminiPartsCharacterised | src/copilot_api.py:183-197 | multipart content keeps its text and image parts in order, each image replaced by the unsupported-image note, other parts dropped; only text parts remain |
| Formatters.GeminiKeepsMessages | src/copilot_api.py:173-200 | message count, order and roles are kept, string content is untouched, multipart content stays multipart |
| Formatters.GeminiAgreesWithOpenAIOnText | src/copilot_api.py:168-200 | on conversations without multipart content the Gemini and OpenAI formatters agree |
| Formatters.FormatMessagesGemini | src/copilot_api.py:173-200 | the nested loops compute the Gemini rewrite |
| Formatters.ConvertPartsReady | src/copilot_api.py:273-308 | the converted list has no `image_url` part and no non-dict entry, and a list without them is left as it is |
| Formatters.ConvertPartsIdempotent | src/copilot_api.py:273-308 | converting twice is converting once |
| Formatters.DataUrlConverts | src/copilot_api.py:289-302 | `data:<type>;base64,<data>` becomes a base64 image block with that media type (`image/png` when empty) and that payload |
| Formatters.DataUrlRoundTrip | src/copilot_api.py:289-302 | a data URL built from a media type and a payload gives both back |
| Formatters.DataUrlDefaultMediaType | src/copilot_api.py:294-299 | a data URL without a media type gets `image/png` |
| Formatters.ConvertImagePartsForClaude | src/copilot_api.py:273-308 | the loop computes the conversion, and its result is acceptable to Claude |
| Formatters.MergeMessages | src/copilot_api.py:311-322 | the merged message has the first message's role; it is a string exactly when both contents are strings; otherwise its parts are the first's followed by the second's, a non-empty string counting as one text part and an empty one as none |
| Formatters.MergeKeepsText | src/copilot_api.py:311-322 | merging keeps both texts in order one newline apart: for two string contents, and for any contents that both contribute text |
| Formatters.NormalizeRole | src/copilot_api.py:232-234 | the role becomes user or assistant, and is unchanged exactly when it already was one of them |
| Formatters.ClaudeBodyWellFormed | src/copilot_api.py:216-250 | the Claude body holds only user and assistant turns, never two of the same role in a row, and opens with a user turn |
| Formatters.ClaudeSystemText | src/copilot_api.py:219-230 | the system text is absent without system messages, and otherwise is every system message's flattened text newline-joined in encounter order |
| Formatters.ClaudeRoles | src/copilot_api.py:219-248 | the body has one turn per run of equal (normalised) roles among the non-system messages, behind a `(start)` user turn when the first run is an assistant one |
| Formatters.ClaudeKeepsWellFormed | src/copilot_api.py:203-250 | an already alternating string-only conversation that opens with a user turn passes through unchanged, with no system text |
| Formatters.FormatMessagesClaude | src/copilot_api.py:203-250 | the loop computes the Claude rewrite; its body alternates and opens with a user turn |
| Payloads.OpenAIPayloadFields | src/copilot_api.py:329-340 | the OpenAI body has distinct keys carrying model, messages and stream, with n = 1 and top_p = 1, and no max_tokens or system |
| Payloads.GeminiPayloadIsOpenAI | src/copilot_api.py:343-354 | the Gemini body is the OpenAI body |
| Payloads.ClaudePayloadFields | src/copilot_api.py:357-381 | the Claude body has distinct keys carrying model, messages, stream and max_tokens, never n or top_p, and system exactly when the system text is non-empty |
| Payloads.SummaryShape | src/copilot_api.py:98-111 | the summary keeps every key in place, replaces the message list by its count, keeps a system prompt of at most 80 characters, turns a longer one into its first 80 characters followed by an ellipsis (81 characters), and keeps everything else |
| Payloads.SummaryLookup | src/copilot_api.py:98-111 | a key's summarised value is the summary of its value in the payload |
| Payloads.SummaryCountsMessages | src/copilot_api.py:98-111 | the summary of a built body reports the number of messages sent |
| ModelAliases.StoreModelAliases | src/copilot_api.py:860-886 | the alias loop computes the cache after alias generation |
| ModelAliases.AliasesEffect | src/copilot_api.py:860-886 | the id's own entry is never touched; the dot and hyphen spellings are bound to the limits (overwriting); every digit-led version variant becomes a key; no key is lost; every other old key keeps its value; no key other than the two spellings and the variants is added |
| ModelAliases.VariantsOnlyAdd | src/copilot_api.py:880-886 | the version-variant pass only adds keys, never the id, all bound to the limits, each the variant of a digit-led boundary |
| ModelAliases.VariantsPresent | src/copilot_api.py:880-886 | every digit-led boundary's variant other than the id is a key afterwards |
| ModelAliases.DottedIdGainsHyphenAlias | src/copilot_api.py:866-871 | an id with a dotted version also answers to the hyphenated spelling, with the same limits |
| ModelAliases.HyphenatedIdGainsDotAlias | src/copilot_api.py:878-886 | an id ending in a hyphen-separated numeric segment also answers to the dotted spelling |
| ModelAliases.ClaudeOpusDottedListing | src/copilot_api.py:860-886 | `claude-opus-4.5` makes `claude-opus-4-5` resolve to the same limits |
| ModelAliases.ClaudeOpusHyphenatedListing | src/copilot_api.py:860-886 | `claude-opus-4-5` makes `claude-opus-4.5` resolvable |
| SseDecoders.ParseSse | src/copilot_api.py:425-471 | the decoder yields exactly the decoded fragments, and warns exactly when it yielded none and met no malformed line |
| SseDecoders.ChunkFragmentsNonEmpty | src/copilot_api.py:448-454 | every fragment yielded is non-empty |
| SseDecoders.ChunksAppend | src/copilot_api.py:435-466 | decoding a stream split before its end is decoding both halves |
| SseDecoders.ChunksStopAtDone | src/copilot_api.py:444-445 | nothing after the first `[DONE]` is read |
| SseDecoders.ChunkNoiseIgnored | src/copilot_api.py:435-466 | blank, non-data and malformed lines can be dropped anywhere without changing the output |
| SseDecoders.ChunksExample | src/copilot_api.py:435-454 | chunks "Hel", a blank line, "lo", `[DONE]`, "!" decode to exactly "Hel", "lo" |
| SseDecoders.ParseClaudeSse | src/copilot_api.py:473-537 | the decoder yields exactly the decoded fragments, and warns exactly when no text delta and no malformed line came before the stream stopped |
| SseDecoders.ClaudeFragmentsNonEmpty | src/copilot_api.py:500-518 | every fragment yielded is non-empty |
| SseDecoders.ClaudeAppend | src/copilot_api.py:486-531 | decoding a stream split before any stop is decoding both halves |
| SseDecoders.ClaudeErrorStops | src/copilot_api.py:507-518 | an error event yields one warning fragment naming its type and message, and nothing after it is read |
| SseDecoders.ClaudeStopsAtDone | src/copilot_api.py:495-496 | nothing after the first `[DONE]` is read |
| SseDecoders.ClaudeOnlyTextDeltas | src/copilot_api.py:499-506 | events other than text deltas and errors yield nothing |
| CopilotClient.RefreshError | src/copilot_api.py:404-422 | an HTTP failure of the token exchange reports the token endpoint and the status; any other failure reports neither |
| CopilotClient.Client.constructor | src/copilot_api.py:387-391 | a new client has no bearer token, expiry 0 and an empty limits cache |
| CopilotClient.Client.EnsureToken | src/copilot_api.py:397-423 | the token is refreshed exactly when now >= expiry - 60; a successful refresh installs the new token and expiry; a failed one raises and leaves both as they were; the cache is untouched |
| CopilotClient.StoreCatalog | src/copilot_api.py:602-632 | the loop over the listed models computes the catalog update |
| CopilotClient.EntryStored | src/copilot_api.py:615-628 | an entry with limits binds its own id to them, missing limits falling to 8192/8192/1024 |
| CopilotClient.EntryEffect | src/copilot_api.py:615-628 | one entry keeps every key, and every value it binds is either the old value or the entry's limits |
| CopilotClient.CatalogEffect | src/copilot_api.py:602-640 | a fetch never forgets a cached model: every key stays, and every value is the old one or some entry's limits |
| CopilotClient.LastEntryWins | src/copilot_api.py:602-628 | the last listed entry with limits decides its own id's limits |
| CopilotClient.FetchFailureKeepsCache | src/copilot_api.py:554-597 | a failed request or an unrecognised response leaves the cache as it was |
| CopilotClient.Client.FetchModelLimits | src/copilot_api.py:543-640 | a failed token refresh propagates and changes no limits; otherwise the cache becomes the catalog update (unchanged on failure) and is returned; the token and its expiry change exactly as in `EnsureToken` |
| CopilotClient.Client.GetModelLimits | src/copilot_api.py:642-644 | the cached limits of exactly the cached ids |
| CopilotClient.PrepareFailsOnlyOverBudget | src/copilot_api.py:727-752 | preparing a chat fails exactly when trimming is requested and the system messages plus the last message exceed the budget (the model's prompt limit, or 8192 - 1024 without cached limits) |
| CopilotClient.PreparedRequestShape | src/copilot_api.py:760-788 | Claude models go to the Messages endpoint with the model's output limit (16000 uncached), no n, and an alternating body; the others go to the chat endpoint with n = 1 and no max_tokens |
| CopilotClient.OpenAIRequestFitsPromptLimit | src/copilot_api.py:733-745 | with cached limits, the messages sent to an OpenAI-family model fit its prompt limit |
| ChatStore.MaxSeq | src/chat_store.py:226-231 | the highest sequence number bounds every row, and is -1 for a conversation without messages |
| ChatStore.SortedMaxIsLast | src/chat_store.py:226-231 | in sequence order the highest number is the last row's |
| ChatStore.AppendKeepsSorted | src/chat_store.py:226-240 | the new message's number is non-negative and above every other, so rows stay strictly ordered |
| ChatStore.LimitOffset | src/chat_store.py:276-281 | the SQL `LIMIT ... OFFSET ...` never returns more rows than the limit |
| ChatStore.PageWindow | src/chat_store.py:267-286 | a page is exactly the slice of at most `limit` rows ending `offset` rows before the newest, and is empty once the offset reaches the total |
| ChatStore.PagesTile | src/chat_store.py:267-286 | the next older page followed by a page is one page of twice the size |
| ChatStore.FullPage | src/chat_store.py:267-286 | with no offset and a limit covering everything, a page is every message |
| ChatStore.SystemPromptSorted | src/chat_store.py:349-385 | setting or clearing the system prompt keeps the rows strictly ordered |
| ChatStore.SystemPromptSet | src/chat_store.py:359-376 | a non-empty prompt becomes the seq-0 system message and is what the prompt lookup returns; the other rows stay in order, renumbered by one when the prompt was inserted |
| ChatStore.SystemPromptCleared | src/chat_store.py:377-382 | an empty prompt removes a seq-0 system message and nothing else |
| ChatStore.SystemPromptIdempotent | src/chat_store.py:349-385 | setting the same prompt twice is setting it once |
| ChatStore.UpdateRowsEffect | src/chat_store.py:325-335 | only the matching row's content changes; numbers and roles stay, so rows stay ordered |
| ChatStore.TitleShape | src/chat_store.py:412-419 | no title for blank text; otherwise at most 41 characters, equal to the stripped text when that is 40 or shorter, else its first 40 characters and an ellipsis |
| ChatStore.MostRecentExists | src/chat_store.py:167-176 | a non-empty set of conversations has a most recently updated one |
| ChatStore.TablesAfterDelete | src/chat_store.py:191-199 | deleting a conversation and its messages keeps the tables consistent once an active id naming it is unset |
| ChatStore.TablesAfterAppend | src/chat_store.py:217-247 | appending a message and stamping its conversation keeps the tables consistent and makes that conversation the most recently updated |
| ChatStore.Store.constructor | src/chat_store.py:48-64 | over existing tables the saved active id is kept only if it names a conversation; an empty store gets one new active, empty conversation titled "New Chat" |
| ChatStore.Store.NewConversation | src/chat_store.py:178-189 | a fresh id, an empty conversation with that title, made active |
| ChatStore.Store.SetActive | src/chat_store.py:135-142 | only an existing conversation becomes active; otherwise nothing changes |
| ChatStore.Store.DeleteConversation | src/chat_store.py:191-204 | the conversation and its messages go; the last one is replaced by a fresh "New Chat"; another active id is kept, and a vacated one falls to the most recently updated conversation |
| ChatStore.Store.RenameConversation | src/chat_store.py:206-211 | only that conversation's title changes; an unknown id changes nothing |
| ChatStore.Store.AddMessage | src/chat_store.py:217-247 | the message is appended with the next sequence number (highest + 1, 0 when empty), which is returned; its conversation becomes the most recently updated; an unknown conversation is refused and nothing changes |
| ChatStore.Store.GetMessages | src/chat_store.py:249-286 | for a non-negative limit and offset, the page is the slice of at most `limit` rows that ends `offset` rows before the newest, oldest first; it is empty once the offset reaches the total |
| ChatStore.Store.GetAllMessages | src/chat_store.py:288-298 | every message of the conversation, in sequence order, as role and content |
| ChatStore.Store.ClearMessages | src/chat_store.py:307-312 | that conversation's messages go, nothing else changes |
| ChatStore.Store.UpdateMessage | src/chat_store.py:325-335 | only the content of the matching row of that conversation changes |
| ChatStore.Store.GetSystemPrompt | src/chat_store.py:337-347 | the content of the lowest-numbered system message of the conversation, and empty text when it has none |
| ChatStore.Store.SetSystemPrompt | src/chat_store.py:349-385 | the rows of that conversation become the set-or-clear result; inserting into an unknown conversation is refused |
| ChatStore.Store.AutoTitle | src/chat_store.py:391-420 | a conversation still titled "New Chat" is renamed after its first user message when that yields non-blank text; nothing else changes |
| Prompts.UpdateValid | src/prompt_manager.py:183-186 | `dict.update`: keys stay distinct, new keys are appended, incoming values win, others are kept |
| Prompts.MergeOrder | src/prompt_manager.py:182-185 | the merge loop appends the incoming names not stored before, in their order |
| Prompts.MergeCovers | src/prompt_manager.py:182-186 | after a merge the order still lists every stored prompt |
| Prompts.RemoveValid | src/prompt_manager.py:96-104 | `del`: the name is gone, the other prompts keep their contents and order |
| Prompts.RemoveFirstCounts | src/prompt_manager.py:100-101 | `list.remove` takes out exactly one occurrence and keeps every other name |
| Prompts.ReconcileCovers | src/prompt_manager.py:58-66 | the reconciled order names every stored prompt and nothing else, and begins with the saved order's known names |
| Prompts.ReconcileKeepsConsistentOrder | src/prompt_manager.py:147-152 | an order that already lists each stored prompt once is kept as is |
| Prompts.ReconcileIdempotent | src/prompt_manager.py:147-152 | reconciling twice is reconciling once |
| Prompts.ReconcileOrder | src/prompt_manager.py:147-152 | the two loops compute the reconciled order |
| Prompts.RepeatOutlivesDelete | src/prompt_manager.py:96-153 | a reorder naming a prompt twice keeps both entries, so deleting that prompt leaves a name in the order that is no longer stored |
| Prompts.ActiveContentsShape | src/prompt_manager.py:130-140 | the names returned are the order filtered to active, stored prompts, each with its stored content |
| Prompts.PromptManager.constructor | src/prompt_manager.py:35-72 | the current file format reconciles the saved order and keeps only known active names; the legacy list keeps only known active names; anything else leaves nothing active and the stored order |
| Prompts.PromptManager.Add | src/prompt_manager.py:87-94 | a new name is stored and appended to the order once; an existing one only gets its new content |
| Prompts.PromptManager.Delete | src/prompt_manager.py:96-104 | an existing name leaves the prompts, the active set and (first entry) the order; an unknown name changes nothing; its lookup gives "" afterwards |
| Prompts.PromptManager.Get | src/prompt_manager.py:106-108 | the stored content of a known name and "" for an unknown one; `Delete` promises "" afterwards |
| Prompts.PromptManager.GetActiveContents | src/prompt_manager.py:130-140 | the names are the display order filtered to names both active and stored, each paired with its stored content |
| Prompts.PromptManager.SetActive | src/prompt_manager.py:122-128 | only that name enters or leaves the active set |
| Prompts.PromptManager.Reorder | src/prompt_manager.py:142-153 | the order becomes the reconciled request: every stored prompt and no unknown name |
| Prompts.PromptManager.ImportFrom | src/prompt_manager.py:164-190 | replacing takes the incoming prompts and their key order; merging appends only unknown names and lets incoming contents win; the count is the incoming size |

## Left out

- The exact tokenizer (`tiktoken`) is a foreign library; only the character approximation is modelled.
- JSON is not modelled. SSE lines arrive already classified (blank, non-data, `[DONE]`, malformed, parsed payload), and a parsed payload that is not an object is not modelled. Stored message content is a `Content` value: `_parse_content` turning stored text that starts with `[` into a list is not modelled.
- HTTP is not modelled: requests, headers, timeouts, the response-status check of `chat`, and the non-streaming response parsing in `chat`. Nor are `_extract_error_detail` and the texts of error messages.
- `build_preview_payload` (src/copilot_api.py:646-682) is not modelled: it is the same preparation as `chat` for display.
- Generators are modelled as sequences of fragments. Logging is left out. The empty-stream warning is a returned flag.
- The float temperature 0.1 is an opaque payload value.
- Concurrency is not modelled: the code has no locking around the token or the cache.
- `uuid` conversation ids and `datetime.now` timestamps are replaced by counters.
- File I/O is not modelled. Prompt-file and active-file reads are given as values (the `ActiveFile` datatype, the incoming `Dict`). Writes (`_save`, `_save_active`, `export`) are not modelled, since they leave the in-memory state as it is.
- A message without a `role` or `content` key, and content that is neither a string nor a list, are not modelled.
- Not modelled: `list_conversations` ordering beyond the most-recent pick, `get`, `active`, `touch`, `get_message_by_seq`, `save`, `close`, `list_names`, `is_active`.
- `Strings.Lower`: `str.lower` and `str.isdigit` are modelled for ASCII letters and digits only.
- `ModelAliases.StoreModelAliases`: the in-place update of the caller's dict is modelled as a returned map that the caller stores back.
- `CopilotClient.Client.FetchModelLimits`: the loop over the listed models is the value-level method `StoreCatalog`. Its effect on the cache field is the same.
- `CopilotClient.Client.EnsureToken`: the clock is a whole number of seconds. Against an integral expiry a fractional `time.time()` compares as its floor does. The exchange is a parameter, used only when a refresh is due.
- `CopilotClient.PrepareChat` covers the pure part of `chat`: trimming, formatting, the payload and the endpoint. The token refresh before it is `EnsureToken`.
- `ChatStore.Store.DeleteConversation`: the replacement active id is a most recently updated conversation. The model does not fix which one SQLite returns when several share the newest timestamp.
- `ChatStore.Store.constructor`: as in the code, the active id stays unset when the saved id is invalid but conversations exist.
- `Prompts.PromptManager.Reorder`: a request naming a prompt twice keeps both entries, as the code does, and `delete` removes only the first. `RepeatOutlivesDelete` shows the stale name that results. The class invariant therefore only requires every stored prompt to be in the order.
- `Formatters.FormatOpenAI` is the identity, as in the code.
