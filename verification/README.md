# MultiRouter gateway — a Dafny model

MultiRouter is an OpenAI-compatible chat gateway. It reads a list of
provider *instances* from `providers.yaml`, each with a vendor type, an API
key, an optional base URL and the models it serves. It keeps them in a
registry, and answers `POST /v1/chat/completions` in one of two ways:

- **multirouter-auto**: the virtual model picks the next active instance
  round-robin and makes a single attempt.
- **any other model**: the *exhaust* strategy tries every active instance
  that serves the model, in configuration order. On a transient error (429,
  402, 503) it marks the instance as rate-limited and fails over to the next
  one. Any other error is reported to the client, and so is success.

Rate-limited instances come back after `retry_after_seconds`. Answers are
either one `chat.completion` object or a stream of server-sent events: a
role chunk, one chunk per text fragment, a stop chunk, then `[DONE]`.

This project models that core as pure functions over immutable data:

- `Registry`: the instance registry. It covers construction, recovery,
  exhaust and round-robin selection, `markFailed`, the model listing and
  `hasModel`.
- `ChatCompletions`: the `/v1/chat/completions` handler. It covers
  validation, the option mapping, the round-robin branch, the exhaust loop
  with failover, and the error responses.
- `Sse`: completion ids, chunk construction, the SSE writer and the
  non-streaming collector.
- `ProviderError`: status extraction, friendly messages and the retryable
  set.
- `LoadProviders`: `${VAR}` interpolation, per-entry validation, routing
  defaults and loading the whole file.
- `Gemini`: the Gemini adapter's request shaping and its answer filter.
- `LegacyProviders`: the legacy fixed provider list and its rotating
  selector.
- `Wrappers`, `Seqs`, `Text`, `JsonValue` and `Types` are shared
  definitions.

The model takes as parameters everything the program gets from outside:

- the clock (`now`);
- the random UUID;
- each backend call's outcome (`backend(instanceId, model)`: a rejection, or
  text fragments followed by normal completion or a thrown error);
- the number of content frames after which the response reads as ended (`res.writableEnded`), having been ended from outside the SSE writer (`endAt`);
- the environment;
- the parsed YAML value.

A request's result (`RouteResult`) records four things: the response, the
registry afterwards, the backend calls made in order, and the instances
marked as failed.

## Model

| member | source | states |
|---|---|---|
| Types.ParseProviderType | src/config/load-providers.ts:12-19 | Exactly the six vendor names are accepted; each accepted name is the name of the type it parses to. |
| Types.ProviderTypeRoundTrip | src/types.ts:12-20 | Parsing a provider type's name gives back that type. |
| Types.ParseRoutingStrategy | src/config/load-providers.ts:21 | Only "exhaust" and "round-robin" are strategy names, and each parses to the strategy of that name. |
| ProviderError.FriendlyMessage | src/utils/provider-error.ts:6-15 | A code in the table gets its table message. Any other code gets "Provider error (code)". |
| ProviderError.ExtractProviderError | src/utils/provider-error.ts:27-41 | A thrown non-Error keeps its text with status 502. An Error without a numeric status is treated as 502. The message always belongs to the resulting status. |
| ProviderError.RetryableCodes | src/utils/provider-error.ts:18-57 | An error is retryable iff it is an Error whose status is 429, 402 or 503. 400, 401, 403, 404 and 500 are never retryable. |
| ProviderError.StatuslessErrorIsTerminalBadGateway | src/utils/provider-error.ts:32-56 | An Error with no status is reported as "Provider error (502)" with status 502, exactly like an explicit 502, and neither is retried. |
| ProviderError.DetailsDependOnStatusOnly | src/utils/provider-error.ts:32-40 | Two Errors with the same effective status get the same details. |
| ProviderError.RetryableReportedWithTableMessage | src/utils/provider-error.ts:6-18 | Every retryable error is reported with a retryable status that has a table message. |
| ProviderError.GenericMessageInjective | src/utils/provider-error.ts:38 | Different status codes never share the fallback message. |
| Sse.GenerateCompletionId | src/utils/sse.ts:6-8 | The id is "chatcmpl-" followed by the first 24 characters of the UUID with every hyphen removed, and it contains no hyphen after the prefix. |
| Sse.CanonicalUuidId | src/utils/sse.ts:6-8 | For a canonical 36-character UUID, the id has 33 characters: the prefix and the UUID's first 24 hex digits. |
| Sse.StripHyphensAppend | src/utils/sse.ts:7 | Removing hyphens distributes over concatenation. |
| Sse.StreamToSse | src/utils/sse.ts:47-75 | The writer loop produces the role frame, one content frame per fragment until the connection ends, then the stop frame and `[DONE]` unless the connection ended. An error thrown by the source is passed on. |
| Sse.StreamFramesUninterrupted | src/utils/sse.ts:55-74 | With nothing ending the connection and no error: role frame, the fragments in order, stop frame, `[DONE]`, and the response is ended. |
| Sse.FramesShareIdAndModel | src/utils/sse.ts:56-70 | Every data frame of a stream carries the completion id and model it was started with. |
| Sse.EarlyExitWritesNothingMore | src/utils/sse.ts:60-67 | When the connection ends after k fragments, exactly k+1 frames are written, with no stop frame and no `[DONE]`. |
| Sse.FrameDeltas | src/utils/sse.ts:10-33 | The role chunk's delta has only the role. A content chunk's delta has only the content. The stop chunk's delta is empty and it carries finish reason "stop". |
| Sse.StreamedContentFrames | src/utils/sse.ts:60-65 | The text carried by the content frames is the concatenation of the fragments. |
| Sse.CollectToCompletion | src/utils/sse.ts:81-112 | The result is a failure iff the source throws, and then it is that error. Otherwise it is one assistant message whose content is all fragments joined, finish reason "stop" and zero usage. |
| Sse.StreamingAgreesWithBuffered | src/utils/sse.ts:47-112 | The streamed text of an uninterrupted stream equals the buffered completion's content. |
| Registry.CreateChatFunction | src/providers/registry.ts:28-45 | Succeeds iff the type is one of the six vendor names. Otherwise fails with "Unknown provider type: …". |
| Registry.IndexOfId | src/providers/registry.ts:146 | Finds the first instance with the id, and finds none iff no instance has it. |
| Registry.SetInstance | src/providers/registry.ts:61-67 | Map.set keeps ids unique. A new id is appended at the end. An existing id keeps its position. |
| Registry.NewRegistry | src/providers/registry.ts:54-84 | Every registered instance is fresh (active, no errors), comes from the configuration and has a known type. Every config with a known type has its id registered. Ids are unique and the cursor starts at 0. |
| Registry.RegisterAllDistinct | src/providers/registry.ts:57-83 | With distinct ids, the registry is exactly the configs with a known type, in order, as fresh instances. Unknown types are skipped. |
| Registry.RegisterFreshId | src/providers/registry.ts:57-67 | Registering one more config with a new id and a known type appends one fresh instance. |
| Registry.RegisterStep | src/providers/registry.ts:57-67 | Each config with a known type is one more `Map.set` of a fresh instance, applied after the earlier configs. |
| Registry.RecoverExpired | src/providers/registry.ts:89-105 | An instance that is not active and whose retry window has elapsed is made active with its error state cleared. Every other instance is unchanged, and so are the routing and the cursor. |
| Registry.RecoverKeepsConfigs | src/providers/registry.ts:93-104 | Recovery never changes an instance's configuration or the order of ids. |
| Registry.RecoverIdempotent | src/providers/registry.ts:89-105 | Recovering twice at the same time is the same as recovering once. |
| Registry.RecoverMonotone | src/providers/registry.ts:94-98 | Recovery never deactivates an instance. An instance active after recovery at `now` is also active after recovery at any later time. |
| Registry.GetActiveForModel | src/providers/registry.ts:114-119 | After recovery, the result is exactly the active instances that list the model, in registry order. |
| Registry.GetNextRoundRobin | src/providers/registry.ts:125-140 | With no active instance: nothing is returned and the cursor is kept. Otherwise the instance at cursor mod n is picked and the cursor becomes (cursor+1) mod n. Nothing is returned iff the picked instance has no usable first model. A returned selection is an active instance with its first model. |
| Registry.RoundRobinRunPicks | src/providers/registry.ts:132-133 | When every active instance has a model, the i-th of k consecutive calls picks the active instance i steps after the cursor. |
| Registry.RoundRobinVisitsEachOnce | src/providers/registry.ts:125-140 | With n active instances, n consecutive calls pick each of them exactly once, in order, starting at the cursor. |
| Registry.MarkFailed | src/providers/registry.ts:145-157 | An unknown id changes nothing. A known id's instance becomes rate-limited, stamped with the time, with its error count plus one. Nothing else changes. |
| Registry.MarkedInstanceExcludedDuringWindow | src/providers/registry.ts:89-157 | Within the retry window, a marked instance is not served by exhaust selection or by round-robin selection. |
| Registry.MarkedInstanceRecoversAfterWindow | src/providers/registry.ts:89-157 | Once the retry window has elapsed, a marked instance is active again with a cleared error state. |
| Registry.ActiveForModelImpliesHasModel | src/providers/registry.ts:114-199 | If an active instance serves the model, the registry has the model. |
| Registry.HasModelIgnoresHealth | src/providers/registry.ts:193-199 | Whether a model exists is unaffected by recovery, by marking an instance failed, and by round-robin selection. |
| Registry.FirstSeenFacts | src/providers/registry.ts:166-174 | De-duplication keeps the first declaration of each model id. It covers the same ids, the ids are distinct, and it is a subsequence of the declarations. |
| Registry.GetAllModels | src/providers/registry.ts:165-191 | The listing starts with multirouter-auto owned by "multirouter", followed by each model's first declaration, owned by the declaring instance's type, in order. |
| Registry.AddInstanceModels | src/providers/registry.ts:169-173 | The inner loop adds each of an instance's models that has not been seen, keeping the seen-set in step. |
| Registry.DeclarationsCoverModels | src/providers/registry.ts:168-174 | A model id is declared iff some instance lists it. |
| Registry.ListingMatchesHasModel | src/providers/registry.ts:165-199 | A model appears in the listing after the virtual entry iff `hasModel` holds for it. |
| JsonValue.Strings | src/config/load-providers.ts:61-63 | The kept models are the string items of the list, in their order: wrapped back as JSON strings they are the list filtered to strings. |
| JsonValue.StringsInOrder | src/config/load-providers.ts:61-63 | The kept strings appear in the list in the same relative order. |
| LoadProviders.InterpolateLiteral | src/config/load-providers.ts:23-39 | A string in which the `${name}` pattern matches nowhere is returned unchanged. This includes an unclosed `${` and an empty `${}`. |
| LoadProviders.InterpolateDollarFreePrefix | src/config/load-providers.ts:27-38 | Text before the first `$` passes through untouched. |
| LoadProviders.InterpolateReference | src/config/load-providers.ts:27-38 | `${name}` is replaced by the value of the trimmed name, or by "" when it is unset. Interpolation then continues after the `}`. |
| LoadProviders.InterpolateAtReference | src/config/load-providers.ts:28-37 | A reference at the start of the string is replaced by its value. |
| LoadProviders.ValidateProviderEntry | src/config/load-providers.ts:41-96 | A non-object entry is skipped. An object entry is kept iff the configuration it describes is valid: a known type, a non-empty key after interpolation, at least one string model, and a non-empty base URL when openai-compatible. A kept entry's id is the given one or "provider-index". Its key is the interpolated `api_key`, and its base URL is the interpolated `base_url`, present iff that is a string. Its models are the string items of `models`. |
| LoadProviders.EntryRoundTrip | src/config/load-providers.ts:41-96 | Validating the YAML encoding of a config gives the config back iff it is valid, and rejects it otherwise, when no `${name}` pattern matches in its key or base URL. |
| LoadProviders.ValidateWellTypedEntry | src/config/load-providers.ts:50-95 | For an object with string `type` and `api_key` and an array `models`, the result is the config with the given or default id, the interpolated key and base URL and the string models, kept iff it is valid. |
| LoadProviders.ReferencedKeyResolves | src/config/load-providers.ts:55-74 | An `api_key: ${NAME}` entry gets the variable's value as its key, and is dropped when the variable is unset or empty. |
| LoadProviders.DefaultIdFromIndex | src/config/load-providers.ts:52-53 | An entry without an id is named "provider-index". Different indices never produce the same default id. |
| LoadProviders.ValidEntriesFacts | src/config/load-providers.ts:134-142 | The loaded providers are exactly the valid entries of the list, each valid. |
| LoadProviders.CollectProviders | src/config/load-providers.ts:134-142 | The loop keeps the accepted entries, in file order. |
| LoadProviders.ParseRouting | src/config/load-providers.ts:116-131 | The strategy is round-robin iff the file says "round-robin", and exhaust otherwise. The retry time is the given number, or 300 when it is missing or not a number. |
| LoadProviders.LoadProvidersConfig | src/config/load-providers.ts:98-153 | A missing file gives the defaults and no providers. A file that parses to null fails. Otherwise the providers are exactly the entries that validate, all valid, in file order and with one copy per validating entry, and the routing is the parsed routing section. |
| LoadProviders.RoutingDefaults | src/config/load-providers.ts:117-131 | A file without a routing section gets exhaust routing with a 300-second retry window. |
| LoadProviders.LoadedProvidersRegister | src/config/load-providers.ts:98-153 | Every loaded provider has a known type and is registered under its id. |
| Gemini.FirstSystem | src/providers/gemini-adapter.ts:24 | Finds the first system message, and finds none iff there is none. |
| Gemini.MapRole | src/providers/gemini-adapter.ts:47-48 | Only "assistant" maps to the model role; every other role maps to user. |
| Gemini.RoleRoundTrip | src/providers/gemini-adapter.ts:47-48 | The user and assistant roles survive the mapping. |
| Gemini.ToHistory | src/providers/gemini-adapter.ts:46-50 | The history is every chat message but the last, with roles mapped and contents kept. |
| Gemini.ToGenerationConfig | src/providers/gemini-adapter.ts:30-43 | Temperature, token limit and top-p are passed on. Stop sequences are present iff `stop` is. |
| Gemini.StopSequencesShape | src/providers/gemini-adapter.ts:38-42 | An array of stops is used as is. A single stop becomes a one-element list. |
| Gemini.PrepareChat | src/providers/gemini-adapter.ts:19-58 | Fails with "At least one user message is required" iff every message is a system message. Otherwise it sets a system instruction iff a system message exists. |
| Gemini.ConversationPreserved | src/providers/gemini-adapter.ts:25-58 | The history and the last message are the non-system messages in order, with contents unchanged. |
| Gemini.SystemInstructionIsFirst | src/providers/gemini-adapter.ts:24-29 | The system instruction is the first system message. No history entry comes from a system message. |
| Gemini.YieldText | src/providers/gemini-adapter.ts:60-67 | The non-empty pieces are yielded, each once, in arrival order, and only they: the result is a subsequence of the pieces, its elements are the non-empty pieces, and its length is the number of non-empty pieces. |
| Gemini.NonEmptyCount | src/providers/gemini-adapter.ts:64-66 | Filtering drops exactly the empty pieces, counted with repetition. |
| Gemini.YieldPreservesText | src/providers/gemini-adapter.ts:60-67 | Dropping empty pieces leaves the concatenated answer text unchanged. |
| LegacyProviders.AvailableProviders | src/providers/index.ts:10-30 | A vendor is listed iff its key is set, in the fixed vendor order. |
| LegacyProviders.FilterKeepsOrder | src/providers/index.ts:12-30 | Skipping vendors without a key keeps the rest in vendor order. |
| LegacyProviders.SelectNextProvider | src/providers/index.ts:40-48 | An empty list gives undefined. Otherwise the provider at the index is returned and the index advances, wrapping. |
| LegacyProviders.GetAvailableProviders | src/providers/index.ts:50-52 | Returns a copy of the list. |
| LegacyProviders.PicksFollowCursor | src/providers/index.ts:45-46 | The i-th of k consecutive calls returns the provider i places after the index. |
| LegacyProviders.RotationVisitsEachOnce | src/providers/index.ts:38-48 | With n providers, n calls return each provider exactly once. |
| LegacyProviders.FirstRoundInVendorOrder | src/providers/index.ts:10-48 | From start-up, the first round returns the configured vendors in the fixed order. |
| ChatCompletions.RespondWithProviderError | src/routes/v1/chat-completions.ts:240-258 | When nothing has been sent yet: a JSON error with the extracted status and message, of type server_error iff the status is 500 or above. When something has been sent, nothing more is written. |
| ChatCompletions.RetryableFailureResponses | src/routes/v1/chat-completions.ts:240-258 | A retryable error that reaches the client carries its own status and table message, and is a server_error only for 503. |
| ChatCompletions.RequestMessages | src/routes/v1/chat-completions.ts:33-47 | Messages are accepted iff they form a non-empty array. |
| ChatCompletions.RequestedModel | src/routes/v1/chat-completions.ts:49-59 | A model is accepted iff it is a non-empty string. |
| ChatCompletions.BuildChatOptions | src/routes/v1/chat-completions.ts:66-85 | Each option is copied when given. `max_tokens` is used only when `max_completion_tokens` is absent. |
| ChatCompletions.TokenLimitPrecedence | src/routes/v1/chat-completions.ts:70-76 | There is a token limit iff either field is given. `max_completion_tokens` wins when both are. |
| ChatCompletions.Attempt | src/routes/v1/chat-completions.ts:113-128 | A rejected call writes nothing. A buffered call fails iff its stream throws, and otherwise delivers the collected completion. A failed streaming call has already written an event stream. |
| ChatCompletions.StreamingCommits | src/routes/v1/chat-completions.ts:186-206 | A streaming attempt whose call resolved never fails over, because the headers have been sent. |
| ChatCompletions.Exhaust | src/routes/v1/chat-completions.ts:173-226 | Instances are called in list order, at most once each, and the loop stops at the first one that does not fail over. Only called instances are marked, and all but the last call were marked. |
| ChatCompletions.ExhaustOutcome | src/routes/v1/chat-completions.ts:173-237 | Every instance the loop moved past failed over. When all did, the answer is the "all failed" 429. Otherwise the answer is the outcome of the first instance that did not fail over: its response, or its error as `respondWithProviderError` reports it. |
| ChatCompletions.ExhaustMarks | src/routes/v1/chat-completions.ts:205-216 | The registry after the loop is the input with exactly the marked instances passed to `markFailed`, in order. |
| ChatCompletions.AllFailingOverGives429 | src/routes/v1/chat-completions.ts:205-237 | When every instance fails over, each is called and marked once, and the answer is the "all failed" 429. |
| ChatCompletions.StopsAtFirstDecisive | src/routes/v1/chat-completions.ts:173-226 | When the first k instances fail over and instance k does not, exactly k+1 calls are made and only the first k are marked. |
| ChatCompletions.ChatCompletionsRoute | src/routes/v1/chat-completions.ts:25-237 | Missing messages give 400 before the model is checked. A missing model gives 400. Neither 400 touches the registry. There are no more calls than registered instances. multirouter-auto makes at most one call and marks nothing. |
| ChatCompletions.RoundRobinRoute | src/routes/v1/chat-completions.ts:89-146 | No selection gives 503 "No providers available" with no call. Otherwise one call to the selected instance and model, whose outcome is the response. Nothing is marked. |
| ChatCompletions.ExhaustRoute | src/routes/v1/chat-completions.ts:148-171 | With no active instance: 429 if some instance (even a rate-limited one) has the model, 404 otherwise, with no call. Otherwise the exhaust loop runs over the active instances. |
| ChatCompletions.RouteCallsDistinct | src/routes/v1/chat-completions.ts:90-184 | With the registry's ids unique, as its id-keyed map makes them, no instance is called twice in one request. |
| Registry.ActiveForModelUniqueIds | src/providers/registry.ts:114-119 | The exhaust priority list names each instance at most once. |
| ChatCompletions.OnlyRegisteredInstancesCalled | src/routes/v1/chat-completions.ts:90-184 | Whatever the request, only registered instances are called. |

## Left out

- The clock, the random UUID, the backends and the point at which the response reads as ended are parameters, as described above.
- A client disconnect is not what `endAt` models. `res.writableEnded` turns true only after `res.end()` has been called, and a dropped connection does not call it. The model does not describe what the program does when the client goes away mid-stream.
- A `retry_after_seconds` of `.inf` or `.nan` is not modelled: the value is a `real`. YAML accepts both and they pass the number check, so with either one a failed instance would never recover.
- Registry.RecoverExpired: the retry window is compared in exact real arithmetic, `elapsed >= seconds * 1000`, not with the IEEE double product `retryAfterSeconds * 1000` that registry.ts computes. A `JNum` carries the decimal as written in the YAML file, not the double it parses to. The two agree for whole seconds, including the default 300, because those multiply exactly in doubles. For fractional seconds they can disagree at the one-millisecond boundary: for example, 4.03 becomes 4030.0000000000005 ms in doubles, so the program still holds the instance at 4030 ms elapsed, while the model releases it. The same holds for the `Registry.MarkedInstance*` lemmas, which state the window through the same exact product.
- One `now` is used for a whole request. In the program, `markFailed` reads the clock again, a little later than `recoverExpired` did.
- The `created` timestamps of chunks, completions and model entries are not modelled. They are clock reads.
- JSON serialisation of frames, Express `res.status/json/write/end`, and SSE headers (`setupSSEHeaders`) are not modelled. Responses are values.
- A non-integer, NaN or out-of-range status is not modelled: statuses are integers. Express throws on an invalid HTTP status, which is also outside the model.
- Concurrency between requests sharing the registry is not modelled. Requests are sequential state transitions.
- The vendor SDK adapters are not modelled: groq, cerebras, openai and openrouter. They are foreign calls. For Gemini only the request shaping and the answer filter are modelled.
- The legacy `*.provider.ts` files are not part of this model: each calls one vendor SDK. The same holds for `chat.route.ts`, `health.route.ts`, `models.ts`, `env.ts`, `logger.ts` and `main.ts`, which are wiring and I/O.
- Reading and parsing `providers.yaml` is not modelled; the file is taken as an already-parsed JSON-like value or as absent.
- Logging is not modelled anywhere.
- `getAllInstances`, `getDefaultStrategy`, `size`, `initializeRegistry` and `getRegistry` are plain accessors or singleton wiring and are not modelled.
- `VALID_STRATEGIES` check: a configured default strategy is read and stored but the handler never consults it (the model name decides). Only its parsing is modelled.
- Messages are passed to the backend without checking their shape (the source casts them), so the model does not inspect them, and the options reach the backend only through the opaque `backend` parameter.
- The final `!res.headersSent` guard after the exhaust loop is always true in the model. The loop only continues when nothing has been written.
- ChatCompletions.ExhaustOutcome: the "all failed" 429 is stated only in the direction "every instance failed over implies 429". A decisive attempt can itself answer with a 429 JSON error, so the converse does not hold of the response alone.
- Registry.GetNextRoundRobin: a first model that is the empty string counts as missing, exactly as `!model` does in the source.
- LoadProviders: duplicate ids in the file are not rejected. When registered, a later duplicate replaces the earlier instance in its original position, as `Map.set` does.
