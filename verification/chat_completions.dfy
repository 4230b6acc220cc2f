/** `POST /v1/chat/completions`: request validation, option mapping and
    the two routing strategies. The response object is reduced to what the
    client receives; every backend call is an input (`backend`) that says
    how the call went; the clock and the UUID source are arguments. */
module ChatCompletions {
  import opened Wrappers
  import opened Seqs
  import opened JsonValue
  import opened Types
  import opened ProviderError
  import opened Sse
  import opened Registry

  // ── Responses ────────────────────────────────────

  /** The `error` object of an error response. `param` is `None` when the
      key is absent; `code` is `None` when it is `null`. */
  datatype ErrorBody = ErrorBody(message: string, errorType: string, param: Option<string>, code: Option<string>)

  /** What the client ends up with: a JSON error with a status, a JSON
      completion (status 200), or an event stream with the frames written
      and whether the gateway itself closed it. */
  datatype Response =
    | JsonError(status: int, error: ErrorBody)
    | JsonCompletion(completion: Completion)
    | EventStream(frames: seq<Frame>, finished: bool)

  const InvalidRequest := "invalid_request_error"
  const ServerError := "server_error"
  const RateLimitError := "rate_limit_error"
  const RateLimitExceeded := "rate_limit_exceeded"

  const MessagesRequired := JsonError(400, ErrorBody("messages is required and must be a non-empty array",
                                                     InvalidRequest, Some("messages"), None))
  const ModelRequired := JsonError(400, ErrorBody("model is required", InvalidRequest, Some("model"), None))
  const NoProviders := JsonError(503, ErrorBody("No providers available", ServerError, None, None))

  function AllRateLimited(model: string): Response
  {
    JsonError(429, ErrorBody("All providers for model \"" + model + "\" are currently rate-limited. Try again later.",
                             RateLimitError, None, Some(RateLimitExceeded)))
  }

  function ModelNotFound(model: string): Response
  {
    JsonError(404, ErrorBody("Model \"" + model + "\" not found. Use GET /v1/models to see available models.",
                             InvalidRequest, Some("model"), Some("model_not_found")))
  }

  function AllFailed(model: string): Response
  {
    JsonError(429, ErrorBody("All providers for model \"" + model + "\" failed. Try again later.",
                             RateLimitError, None, Some(RateLimitExceeded)))
  }

  /** `respondWithProviderError`: the classified status and message, typed
      by status class; nothing more is written once headers have gone out
      (`written` holds what the client already has). */
  function RespondWithProviderError(err: Thrown, written: Option<Response>): (r: Response)
    ensures written.Some? ==> r == written.value
    ensures written.None? ==>
      && r.JsonError?
      && r.status == ExtractProviderError(err).status
      && r.error.message == ExtractProviderError(err).message
      && (r.error.errorType == ServerError <==> r.status >= 500)
      && (r.error.errorType != ServerError ==> r.error.errorType == InvalidRequest)
      && r.error.param.None? && r.error.code.None?
  {
    if written.Some? then written.value
    else
      var d := ExtractProviderError(err);
      JsonError(d.status, ErrorBody(d.message, if d.status >= 500 then ServerError else InvalidRequest, None, None))
  }

  /** Retryable backend failures are reported as themselves: 429 and 503
      as server-side or client-side by class, 402 as a client error. */
  lemma {:induction false} RetryableFailureResponses(err: Thrown)
    requires IsRetryableError(err)
    ensures var r := RespondWithProviderError(err, None);
      r.status == err.status.value && r.error.message == StatusMessage(r.status).value &&
      (r.error.errorType == ServerError <==> r.status == 503)
  {
    RetryableCodes(err);
  }

  // ── Request validation and options ───────────────

  /** `messages` must be an array with at least one element. */
  function RequestMessages(body: Json): (r: Option<seq<Json>>)
    ensures r.Some? <==> Get(body, "messages").Some? && Get(body, "messages").value.JArr? &&
                         |Get(body, "messages").value.items| > 0
    ensures r.Some? ==> r.value == Get(body, "messages").value.items
  {
    match Get(body, "messages")
    case Some(JArr(items)) => if |items| > 0 then Some(items) else None
    case _ => None
  }

  /** `model` must be a non-empty string. */
  function RequestedModel(body: Json): (r: Option<string>)
    ensures r.Some? <==> exists s :: s != "" && Get(body, "model") == Some(JStr(s))
    ensures r.Some? ==> Get(body, "model") == Some(JStr(r.value))
  {
    match Get(body, "model")
    case Some(JStr(s)) => if s != "" then Some(s) else None
    case _ => None
  }

  predicate IsStreaming(body: Json)
  {
    Get(body, "stream") == Some(JBool(true))
  }

  /** The `ChatOptions` object: each option present iff its request field
      is, `max_completion_tokens` taking precedence over `max_tokens`. */
  function BuildChatOptions(body: Json): (o: ChatOptions)
    ensures o.temperature == Get(body, "temperature")
    ensures o.topP == Get(body, "top_p")
    ensures o.stop == Get(body, "stop")
    ensures o.frequencyPenalty == Get(body, "frequency_penalty")
    ensures o.presencePenalty == Get(body, "presence_penalty")
    ensures Get(body, "max_completion_tokens").Some? ==> o.maxCompletionTokens == Get(body, "max_completion_tokens")
    ensures Get(body, "max_completion_tokens").None? ==> o.maxCompletionTokens == Get(body, "max_tokens")
  {
    ChatOptions(
      Get(body, "temperature"),
      if Get(body, "max_completion_tokens").Some? then Get(body, "max_completion_tokens")
      else Get(body, "max_tokens"),
      Get(body, "top_p"),
      Get(body, "stop"),
      Get(body, "frequency_penalty"),
      Get(body, "presence_penalty"))
  }

  /** The token limit is absent only when neither field was sent, and
      `max_tokens` is ignored whenever `max_completion_tokens` is there. */
  lemma {:induction false} TokenLimitPrecedence(body: Json)
    ensures BuildChatOptions(body).maxCompletionTokens.None? <==>
      Get(body, "max_completion_tokens").None? && Get(body, "max_tokens").None?
    ensures forall v, w :: Get(body, "max_completion_tokens") == Some(v) && Get(body, "max_tokens") == Some(w) ==>
      BuildChatOptions(body).maxCompletionTokens == Some(v)
  {
  }

  // ── One backend call ─────────────────────────────

  /** How one backend call goes: the promise rejects, or it resolves to a
      text stream that yields `fragments` and then ends as `end` says. */
  datatype CallOutcome = Rejected(error: Thrown) | Resolved(fragments: seq<string>, end: StreamEnd)

  /** A call as the backend sees it. The messages and options are the same
      for every call of one request. */
  datatype Call = Call(instanceId: string, model: string)

  /** One call's effect on the response: delivered, or failed with what the
      client already received (`None` while headers are unsent). */
  datatype AttemptResult = Delivered(response: Response) | Failed(error: Thrown, written: Option<Response>)

  /** The body of the `try` block for one instance: the call, then either
      `streamToSSE` or `collectToCompletion` and `res.json`. */
  function Attempt(outcome: CallOutcome, streaming: bool, model: string, id: string, endAt: Option<nat>): (a: AttemptResult)
    ensures a.Failed? && a.written.Some? ==> streaming && outcome.Resolved?
    ensures outcome.Rejected? ==> a == Failed(outcome.error, None)
    ensures !streaming && outcome.Resolved? ==>
      (a.Failed? <==> outcome.end.Broke?) &&
      (a.Delivered? ==> a.response == JsonCompletion(CollectToCompletionSpec(outcome.fragments, outcome.end, model, id).value))
    ensures streaming && outcome.Resolved? ==> (a.Failed? ==> a.written.Some? && a.written.value.EventStream?)
  {
    match outcome
    case Rejected(e) => Failed(e, None)
    case Resolved(fragments, end) =>
      if streaming then
        var run := StreamToSseSpec(fragments, end, model, id, endAt);
        var stream := EventStream(run.frames, run.finished);
        if run.thrown.Some? then Failed(run.thrown.value, Some(stream)) else Delivered(stream)
      else
        match CollectToCompletionSpec(fragments, end, model, id)
        case Success(c) => Delivered(JsonCompletion(c))
        case Failure(e) => Failed(e, None)
  }

  /** A call the exhaust loop moves past: a retryable failure before any
      header was sent. */
  predicate FailsOver(a: AttemptResult)
  {
    a.Failed? && IsRetryableError(a.error) && a.written.None?
  }

  /** In streaming mode a resolved call always commits the response: once
      the role frame is out, no later instance is tried. */
  lemma {:induction false} StreamingCommits(fragments: seq<string>, end: StreamEnd, model: string, id: string, endAt: Option<nat>)
    ensures !FailsOver(Attempt(Resolved(fragments, end), true, model, id, endAt))
  {
  }

  // ── Exhaust strategy ─────────────────────────────

  /** How trying each instance goes within one request. */
  function Attempts(backend: (string, string) -> CallOutcome, streaming: bool, model: string, id: string,
                    endAt: Option<nat>): string -> AttemptResult
  {
    instanceId => Attempt(backend(instanceId, model), streaming, model, id, endAt)
  }

  /** `markFailed` applied to each id in turn. */
  function MarkAll(reg: ProviderRegistry, ids: seq<string>, now: int): ProviderRegistry
    decreases |ids|
  {
    if ids == [] then reg else MarkAll(MarkFailed(reg, ids[0], now), ids[1..], now)
  }

  /** The result of a routing decision: the response, the registry state it
      leaves, the backend calls made in order, and the ids passed to
      `markFailed` in order. */
  datatype RouteResult = RouteResult(response: Response, registry: ProviderRegistry, calls: seq<Call>,
                                     marked: seq<string>)

  /** The `for … of instances` loop over the remaining instances;
      `attempts(id)` is how trying instance `id` goes. Instances are called
      in list order, and every marked one was called. */
  function Exhaust(list: seq<Instance>, reg: ProviderRegistry, model: string, now: int,
                   attempts: string -> AttemptResult): (r: RouteResult)
    ensures |r.marked| <= |r.calls| <= |list|
    ensures list != [] ==> |r.calls| >= 1
    ensures |r.calls| - 1 <= |r.marked|
    ensures forall i :: 0 <= i < |r.calls| ==> r.calls[i] == Call(list[i].config.id, model)
    ensures forall i :: 0 <= i < |r.marked| ==> r.marked[i] == list[i].config.id
    decreases |list|
  {
    if list == [] then RouteResult(AllFailed(model), reg, [], [])
    else
      var x := list[0];
      var a := attempts(x.config.id);
      var call := Call(x.config.id, model);
      if a.Delivered? then RouteResult(a.response, reg, [call], [])
      else if IsRetryableError(a.error) && a.written.None? then
        var rest := Exhaust(list[1..], MarkFailed(reg, x.config.id, now), model, now, attempts);
        RouteResult(rest.response, rest.registry, [call] + rest.calls, [x.config.id] + rest.marked)
      else RouteResult(RespondWithProviderError(a.error, a.written), reg, [call], [])
  }

  /** The loop's answer: every instance it moved past failed over; when all
      of them did, the answer is the "all failed" 429, otherwise it is the
      outcome of the first instance that did not fail over. */
  lemma {:induction false} ExhaustOutcome(list: seq<Instance>, reg: ProviderRegistry, model: string, now: int,
                                          attempts: string -> AttemptResult)
    ensures var r := Exhaust(list, reg, model, now, attempts);
      && (forall i :: 0 <= i < |r.marked| ==> FailsOver(attempts(list[i].config.id)))
      && (|r.marked| == |list| ==> r.response == AllFailed(model) && |r.calls| == |list|)
      && (|r.marked| < |list| ==>
            |r.calls| == |r.marked| + 1 &&
            var a := attempts(list[|r.marked|].config.id);
            && !FailsOver(a)
            && r.response == (if a.Delivered? then a.response else RespondWithProviderError(a.error, a.written)))
    decreases |list|
  {
    if list != [] {
      var x := list[0];
      var a := attempts(x.config.id);
      if !a.Delivered? && IsRetryableError(a.error) && a.written.None? {
        var tail := list[1..];
        ExhaustOutcome(tail, MarkFailed(reg, x.config.id, now), model, now, attempts);
        var rest := Exhaust(tail, MarkFailed(reg, x.config.id, now), model, now, attempts);
        var r := Exhaust(list, reg, model, now, attempts);
        assert r.marked == [x.config.id] + rest.marked;
        forall i | 0 <= i < |r.marked|
          ensures FailsOver(attempts(list[i].config.id))
        {
          if i > 0 {
            assert list[i] == tail[i - 1];
          }
        }
        if |r.marked| < |list| {
          assert list[|r.marked|] == tail[|rest.marked|];
        }
      }
    }
  }

  /** The registry the loop leaves is the input with exactly the marked
      instances passed to `markFailed`, in order. */
  lemma {:induction false} ExhaustMarks(list: seq<Instance>, reg: ProviderRegistry, model: string, now: int,
                                        attempts: string -> AttemptResult)
    ensures var r := Exhaust(list, reg, model, now, attempts);
      r.registry == MarkAll(reg, r.marked, now)
    decreases |list|
  {
    if list != [] {
      var x := list[0];
      var a := attempts(x.config.id);
      if !a.Delivered? && IsRetryableError(a.error) && a.written.None? {
        ExhaustMarks(list[1..], MarkFailed(reg, x.config.id, now), model, now, attempts);
        var rest := Exhaust(list[1..], MarkFailed(reg, x.config.id, now), model, now, attempts);
        var marked := [x.config.id] + rest.marked;
        assert marked[0] == x.config.id && marked[1..] == rest.marked;
      }
    }
  }

  /** When every listed instance fails over, each is called once, each is
      marked, and the answer is 429. */
  lemma {:induction false} AllFailingOverGives429(list: seq<Instance>, reg: ProviderRegistry, model: string,
                               now: int, attempts: string -> AttemptResult)
    requires forall i :: 0 <= i < |list| ==> FailsOver(attempts(list[i].config.id))
    ensures var r := Exhaust(list, reg, model, now, attempts);
      && r.response == AllFailed(model) && r.marked == Ids(list) && |r.calls| == |list|
      && r.registry == MarkAll(reg, Ids(list), now)
  {
    AllMarked(list, reg, model, now, attempts);
    ExhaustOutcome(list, reg, model, now, attempts);
    ExhaustMarks(list, reg, model, now, attempts);
  }

  lemma {:induction false} AllMarked(list: seq<Instance>, reg: ProviderRegistry, model: string,
                                     now: int, attempts: string -> AttemptResult)
    requires forall i :: 0 <= i < |list| ==> FailsOver(attempts(list[i].config.id))
    ensures Exhaust(list, reg, model, now, attempts).marked == Ids(list)
    decreases |list|
  {
    if list != [] {
      var id0 := list[0].config.id;
      var tail := list[1..];
      assert Exhaust(tail, MarkFailed(reg, id0, now), model, now, attempts).marked == Ids(tail) by {
        forall i | 0 <= i < |tail|
          ensures FailsOver(attempts(tail[i].config.id))
        {
          assert tail[i] == list[i + 1];
        }
        AllMarked(tail, MarkFailed(reg, id0, now), model, now, attempts);
      }
      ExhaustFailsOver(list, reg, model, now, attempts);
      IdsOfPrefix(list, |list|);
      assert list[..|list|] == list && tail[..|list| - 1] == tail;
    }
  }

  /** The loop stops at the first instance that does not fail over: the
      ones before it are called and marked, it is called, and no later one
      is. */
  lemma {:induction false} StopsAtFirstDecisive(list: seq<Instance>, reg: ProviderRegistry, model: string, now: int,
                             attempts: string -> AttemptResult, k: nat)
    requires k < |list|
    requires forall i :: 0 <= i < k ==> FailsOver(attempts(list[i].config.id))
    requires !FailsOver(attempts(list[k].config.id))
    ensures var r := Exhaust(list, reg, model, now, attempts);
      && |r.calls| == k + 1
      && r.marked == Ids(list[..k])
      && r.registry == MarkAll(reg, Ids(list[..k]), now)
  {
    StopsAfter(list, reg, model, now, attempts, k);
    ExhaustMarks(list, reg, model, now, attempts);
  }

  lemma {:induction false} StopsAfter(list: seq<Instance>, reg: ProviderRegistry, model: string, now: int,
                                      attempts: string -> AttemptResult, k: nat)
    requires k < |list|
    requires forall i :: 0 <= i < k ==> FailsOver(attempts(list[i].config.id))
    requires !FailsOver(attempts(list[k].config.id))
    ensures var r := Exhaust(list, reg, model, now, attempts);
      |r.calls| == k + 1 && r.marked == Ids(list[..k])
    decreases k
  {
    if k == 0 {
      ExhaustDecides(list, reg, model, now, attempts);
      assert list[..0] == [];
    } else {
      var id0 := list[0].config.id;
      var tail := list[1..];
      var rest := Exhaust(tail, MarkFailed(reg, id0, now), model, now, attempts);
      assert |rest.calls| == k && rest.marked == Ids(tail[..k - 1]) by {
        forall i | 0 <= i < k - 1
          ensures FailsOver(attempts(tail[i].config.id))
        {
          assert tail[i] == list[i + 1];
        }
        assert tail[k - 1] == list[k];
        StopsAfter(tail, MarkFailed(reg, id0, now), model, now, attempts, k - 1);
      }
      ExhaustFailsOver(list, reg, model, now, attempts);
      IdsOfPrefix(list, k);
    }
  }

  lemma {:induction false} IdsOfPrefix(list: seq<Instance>, k: nat)
    requires 0 < k <= |list|
    ensures Ids(list[..k]) == [list[0].config.id] + Ids(list[1..][..k - 1])
  {
    assert list[..k] == [list[0]] + list[1..][..k - 1];
  }

  /** A first instance that fails over is marked and the loop goes on with
      the rest. */
  lemma {:induction false} ExhaustFailsOver(list: seq<Instance>, reg: ProviderRegistry, model: string, now: int,
                         attempts: string -> AttemptResult)
    requires list != [] && FailsOver(attempts(list[0].config.id))
    ensures var id0 := list[0].config.id;
      var rest := Exhaust(list[1..], MarkFailed(reg, id0, now), model, now, attempts);
      Exhaust(list, reg, model, now, attempts) ==
        RouteResult(rest.response, rest.registry, [Call(id0, model)] + rest.calls, [id0] + rest.marked)
  {
  }

  /** A first instance that does not fail over is the only one called. */
  lemma {:induction false} ExhaustDecides(list: seq<Instance>, reg: ProviderRegistry, model: string, now: int,
                       attempts: string -> AttemptResult)
    requires list != [] && !FailsOver(attempts(list[0].config.id))
    ensures var r := Exhaust(list, reg, model, now, attempts);
      r.calls == [Call(list[0].config.id, model)] && r.marked == []
  {
  }

  // ── The route ────────────────────────────────────

  /** `chatCompletionsRoute` against registry `reg`, at time `now`, with
      `uuid` as the random UUID, `backend(id, model)` as the outcome of
      calling instance `id` with `model`, and `endAt` as the number of
      content frames after which the response reads as ended
      (`res.writableEnded`), having been ended from outside the SSE
      writer, if it ever is. */
  function ChatCompletionsRoute(reg: ProviderRegistry, body: Json, uuid: string, now: int,
                                backend: (string, string) -> CallOutcome, endAt: Option<nat>): (r: RouteResult)
    ensures RequestMessages(body).None? ==> r == RouteResult(MessagesRequired, reg, [], [])
    ensures RequestMessages(body).Some? && RequestedModel(body).None? ==> r == RouteResult(ModelRequired, reg, [], [])
    ensures |r.calls| <= |reg.instances|
    ensures RequestMessages(body).Some? && RequestedModel(body) == Some(VirtualModel) ==>
      r.marked == [] && |r.calls| <= 1 && r.registry.instances == RecoverExpired(reg, now).instances
  {
    match RequestMessages(body)
    case None => RouteResult(MessagesRequired, reg, [], [])
    case Some(messages) =>
      match RequestedModel(body)
      case None => RouteResult(ModelRequired, reg, [], [])
      case Some(model) =>
        var streaming := IsStreaming(body);
        var completionId := GenerateCompletionId(uuid);
        if model == VirtualModel then RoundRobinRoute(reg, streaming, completionId, now, endAt, backend)
        else ExhaustRoute(reg, model, streaming, completionId, now, endAt, backend)
  }

  /** The `multirouter-auto` branch: one selection, at most one call, no
      failover and no marking. */
  function RoundRobinRoute(reg: ProviderRegistry, streaming: bool, id: string, now: int, endAt: Option<nat>,
                           backend: (string, string) -> CallOutcome): (r: RouteResult)
    ensures var q := GetNextRoundRobin(reg, now);
      && r.registry == q.registry && r.marked == []
      && (q.value.None? ==> r.response == NoProviders && r.calls == [])
      && (q.value.Some? ==>
            var sel := q.value.value;
            var a := Attempt(backend(sel.instance.config.id, sel.model), streaming, sel.model, id, endAt);
            && r.calls == [Call(sel.instance.config.id, sel.model)]
            && r.response == (if a.Delivered? then a.response else RespondWithProviderError(a.error, a.written)))
  {
    var q := GetNextRoundRobin(reg, now);
    match q.value
    case None => RouteResult(NoProviders, q.registry, [], [])
    case Some(sel) =>
      var a := Attempt(backend(sel.instance.config.id, sel.model), streaming, sel.model, id, endAt);
      var response := if a.Delivered? then a.response else RespondWithProviderError(a.error, a.written);
      RouteResult(response, q.registry, [Call(sel.instance.config.id, sel.model)], [])
  }

  lemma {:induction false} RecoverKeepsIds(reg: ProviderRegistry, now: int)
    ensures Ids(RecoverExpired(reg, now).instances) == Ids(reg.instances)
  {
    RecoverKeepsConfigs(reg, now);
  }

  /** A real model name: the instances serving it, or 429/404 when none is
      active, then the exhaust loop. */
  function ExhaustRoute(reg: ProviderRegistry, model: string, streaming: bool, id: string, now: int,
                        endAt: Option<nat>, backend: (string, string) -> CallOutcome): (r: RouteResult)
    ensures var q := GetActiveForModel(reg, model, now);
      && (q.value == [] ==> r.calls == [] && r.marked == [] && r.registry == q.registry &&
                            r.response == (if HasModel(reg, model) then AllRateLimited(model) else ModelNotFound(model)))
      && (q.value != [] ==> r == Exhaust(q.value, q.registry, model, now, Attempts(backend, streaming, model, id, endAt)))
  {
    var q := GetActiveForModel(reg, model, now);
    HasModelIgnoresHealth(reg, model, "", now);
    if q.value == [] then
      RouteResult(if HasModel(q.registry, model) then AllRateLimited(model) else ModelNotFound(model),
                  q.registry, [], [])
    else
      Exhaust(q.value, q.registry, model, now, Attempts(backend, streaming, model, id, endAt))
  }

  /** No instance is called twice in one request: the registry is keyed by
      id, so its ids are unique, and the route calls each listed instance
      at most once. */
  lemma {:induction false} RouteCallsDistinct(reg: ProviderRegistry, body: Json, uuid: string, now: int,
                                              backend: (string, string) -> CallOutcome, endAt: Option<nat>)
    requires UniqueIds(reg.instances)
    ensures var r := ChatCompletionsRoute(reg, body, uuid, now, backend, endAt);
      forall i, j :: 0 <= i < j < |r.calls| ==> r.calls[i].instanceId != r.calls[j].instanceId
  {
    if RequestMessages(body).Some? && RequestedModel(body).Some? && RequestedModel(body).value != VirtualModel {
      ActiveForModelUniqueIds(reg, RequestedModel(body).value, now);
    }
  }

  /** Only configured instances are ever called, whatever the request. */
  lemma {:induction false} OnlyRegisteredInstancesCalled(reg: ProviderRegistry, body: Json, uuid: string, now: int,
                                      backend: (string, string) -> CallOutcome, endAt: Option<nat>)
    ensures forall c :: c in ChatCompletionsRoute(reg, body, uuid, now, backend, endAt).calls ==>
      c.instanceId in Ids(reg.instances)
  {
    var r := ChatCompletionsRoute(reg, body, uuid, now, backend, endAt);
    if RequestMessages(body).Some? && RequestedModel(body).Some? {
      var model := RequestedModel(body).value;
      var id := GenerateCompletionId(uuid);
      var streaming := IsStreaming(body);
      RecoverKeepsIds(reg, now);
      if model == VirtualModel {
        var q := GetNextRoundRobin(reg, now);
        if q.value.Some? {
          var x := q.value.value.instance;
          assert x.config.id in Ids(q.registry.instances) by {
            var j :| 0 <= j < |q.registry.instances| && q.registry.instances[j] == x;
          }
        }
      } else {
        var q := GetActiveForModel(reg, model, now);
        forall c | c in r.calls
          ensures c.instanceId in Ids(reg.instances)
        {
          var i :| 0 <= i < |r.calls| && r.calls[i] == c;
          var x := q.value[i];
          assert x in q.registry.instances;
          var j :| 0 <= j < |q.registry.instances| && q.registry.instances[j] == x;
          assert Ids(q.registry.instances)[j] == c.instanceId;
        }
      }
    }
  }
}
