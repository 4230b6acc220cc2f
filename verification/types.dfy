/** The gateway's shared records: backend kinds, routing strategies,
    instance health, chat messages and options, and provider configuration. */
module Types {
  import opened Wrappers
  import opened JsonValue

  /** The six backend kinds the gateway knows how to talk to. */
  datatype ProviderType = OpenAI | Groq | Cerebras | OpenRouter | Gemini | OpenAICompatible

  function ProviderTypeName(t: ProviderType): string
  {
    match t
    case OpenAI => "openai"
    case Groq => "groq"
    case Cerebras => "cerebras"
    case OpenRouter => "openrouter"
    case Gemini => "gemini"
    case OpenAICompatible => "openai-compatible"
  }

  /** Recognises a backend kind by its configuration name; `None` for any
      other string. This one table serves both the configuration validator
      and the registry's adapter dispatch. */
  function ParseProviderType(s: string): (r: Option<ProviderType>)
    ensures r.Some? ==> ProviderTypeName(r.value) == s
    ensures r.None? ==> forall t :: ProviderTypeName(t) != s
  {
    if s == "openai" then Some(OpenAI)
    else if s == "groq" then Some(Groq)
    else if s == "cerebras" then Some(Cerebras)
    else if s == "openrouter" then Some(OpenRouter)
    else if s == "gemini" then Some(Gemini)
    else if s == "openai-compatible" then Some(OpenAICompatible)
    else None
  }

  lemma {:induction false} ProviderTypeRoundTrip(t: ProviderType)
    ensures ParseProviderType(ProviderTypeName(t)) == Some(t)
  {
  }

  datatype RoutingStrategy = Exhaust | RoundRobin

  function RoutingStrategyName(s: RoutingStrategy): string
  {
    match s
    case Exhaust => "exhaust"
    case RoundRobin => "round-robin"
  }

  function ParseRoutingStrategy(s: string): (r: Option<RoutingStrategy>)
    ensures r.Some? ==> RoutingStrategyName(r.value) == s
    ensures r.None? ==> forall t :: RoutingStrategyName(t) != s
  {
    if s == "exhaust" then Some(Exhaust)
    else if s == "round-robin" then Some(RoundRobin)
    else None
  }

  /** Health of an instance. The gateway only ever assigns `Active` and
      `RateLimited`; the other two values are declared but unused. */
  datatype InstanceStatus = Active | RateLimited | Exhausted | Error

  /** A chat message. Roles are kept as the strings the client sent: the
      request body is not validated beyond being a non-empty array. */
  datatype ChatMessage = ChatMessage(role: string, content: string)

  /** Generation options. Each field is present iff the client sent the
      corresponding request field; values are passed on unchecked. */
  datatype ChatOptions = ChatOptions(
    temperature: Option<Json>,
    maxCompletionTokens: Option<Json>,
    topP: Option<Json>,
    stop: Option<Json>,
    frequencyPenalty: Option<Json>,
    presencePenalty: Option<Json>)

  const NoOptions := ChatOptions(None, None, None, None, None, None)

  /** One configured backend connection. `providerType` is the name as
      configured; a registry built from unvalidated input may see names
      outside the six kinds. */
  datatype ProviderInstanceConfig = ProviderInstanceConfig(
    id: string,
    providerType: string,
    apiKey: string,
    baseUrl: Option<string>,
    models: seq<string>)

  /** `retryAfterSeconds` is any finite number the configuration gave;
      the non-finite YAML numbers `.inf` and `.nan` are outside the model. */
  datatype RoutingConfig = RoutingConfig(defaultStrategy: RoutingStrategy, retryAfterSeconds: real)

  datatype ProvidersConfig = ProvidersConfig(routing: RoutingConfig, providers: seq<ProviderInstanceConfig>)
}
