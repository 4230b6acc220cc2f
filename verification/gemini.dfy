/** The Gemini adapter's request shaping: the OpenAI-style message list is
    split into a system instruction, a chat history with Gemini roles and a
    last message to send; generation options are renamed; empty text pieces
    of the answer stream are dropped. The SDK calls themselves are not part
    of this model. */
module Gemini {
  import opened Wrappers
  import opened Seqs
  import opened JsonValue
  import opened Types

  const SystemRole := "system"
  const AssistantRole := "assistant"
  const UserRole := "user"
  const NoUserMessageError := "At least one user message is required"

  datatype GeminiRole = UserTurn | ModelTurn

  /** One history entry: a role and a single text part. */
  datatype GeminiContent = GeminiContent(role: GeminiRole, text: string)

  /** `generationConfig`: each field present iff the option was defined. */
  datatype GenerationConfig = GenerationConfig(
    temperature: Option<Json>,
    maxOutputTokens: Option<Json>,
    topP: Option<Json>,
    stopSequences: Option<seq<Json>>)

  /** Everything the adapter hands the SDK for one chat call. */
  datatype GeminiRequest = GeminiRequest(
    model: string,
    systemInstruction: Option<string>,
    generationConfig: GenerationConfig,
    history: seq<GeminiContent>,
    lastMessage: string)

  predicate IsSystem(m: ChatMessage)
  {
    m.role == SystemRole
  }

  predicate IsChat(m: ChatMessage)
  {
    m.role != SystemRole
  }

  /** Position of the first system message, as `messages.find` visits
      them. */
  function FirstSystem(messages: seq<ChatMessage>): (r: Option<nat>)
    ensures r.None? <==> forall i :: 0 <= i < |messages| ==> !IsSystem(messages[i])
    ensures r.Some? ==> r.value < |messages| && IsSystem(messages[r.value])
    ensures r.Some? ==> forall i :: 0 <= i < r.value ==> !IsSystem(messages[i])
    decreases |messages|
  {
    if messages == [] then None
    else if IsSystem(messages[0]) then Some(0)
    else match FirstSystem(messages[1..])
      case None => None
      case Some(k) => Some(k + 1)
  }

  /** `assistant` becomes `model`; every other role becomes `user`. */
  function MapRole(role: string): (r: GeminiRole)
    ensures r == ModelTurn <==> role == AssistantRole
  {
    if role == AssistantRole then ModelTurn else UserTurn
  }

  function RoleName(r: GeminiRole): string
  {
    match r
    case ModelTurn => AssistantRole
    case UserTurn => UserRole
  }

  /** The two roles a client normally sends survive the mapping. */
  lemma {:induction false} RoleRoundTrip(role: string)
    requires role == UserRole || role == AssistantRole
    ensures RoleName(MapRole(role)) == role
  {
  }

  /** The history: every chat message but the last, content kept. */
  function ToHistory(chat: seq<ChatMessage>): (h: seq<GeminiContent>)
    requires |chat| > 0
    ensures |h| == |chat| - 1
    ensures forall i :: 0 <= i < |h| ==> h[i] == GeminiContent(MapRole(chat[i].role), chat[i].content)
  {
    seq(|chat| - 1, i requires 0 <= i < |chat| - 1 => GeminiContent(MapRole(chat[i].role), chat[i].content))
  }

  /** The option renaming; a `stop` that is not an array is wrapped in a
      one-element list. */
  function ToGenerationConfig(options: ChatOptions): (g: GenerationConfig)
    ensures g.temperature == options.temperature
    ensures g.maxOutputTokens == options.maxCompletionTokens
    ensures g.topP == options.topP
    ensures g.stopSequences.Some? <==> options.stop.Some?
  {
    GenerationConfig(
      options.temperature,
      options.maxCompletionTokens,
      options.topP,
      match options.stop
      case Some(JArr(items)) => Some(items)
      case Some(v) => Some([v])
      case None => None)
  }

  /** A list of stop strings is passed on as is; a single stop string is
      the only stop sequence. */
  lemma {:induction false} StopSequencesShape(options: ChatOptions)
    ensures forall xs :: options.stop == Some(JArr(xs)) ==> ToGenerationConfig(options).stopSequences == Some(xs)
    ensures forall s :: options.stop == Some(JStr(s)) ==> ToGenerationConfig(options).stopSequences == Some([JStr(s)])
  {
  }

  /** The adapter's `chat` up to the SDK call: fails iff there is no
      non-system message. */
  function PrepareChat(messages: seq<ChatMessage>, model: string, options: ChatOptions): (r: Result<GeminiRequest, string>)
    ensures r.Failure? <==> forall i :: 0 <= i < |messages| ==> IsSystem(messages[i])
    ensures r.Failure? ==> r.error == NoUserMessageError
    ensures r.Success? ==>
      && r.value.model == model
      && r.value.generationConfig == ToGenerationConfig(options)
      && (r.value.systemInstruction.Some? <==> exists i :: 0 <= i < |messages| && IsSystem(messages[i]))
  {
    var system := FirstSystem(messages);
    var chat := Filter(messages, IsChat);
    FilterMembershipAll(messages, IsChat);
    if |chat| == 0 then
      assert forall i :: 0 <= i < |messages| ==> messages[i] !in chat;
      Failure(NoUserMessageError)
    else
      assert chat[0] in chat;
      Success(GeminiRequest(
        model,
        match system case Some(k) => Some(messages[k].content) case None => None,
        ToGenerationConfig(options),
        ToHistory(chat),
        chat[|chat| - 1].content))
  }

  /** The conversation Gemini sees, history then last message, is the
      client's non-system messages in order, with roles mapped and contents
      unchanged. */
  lemma {:induction false} ConversationPreserved(messages: seq<ChatMessage>, model: string, options: ChatOptions)
    requires PrepareChat(messages, model, options).Success?
    ensures var req := PrepareChat(messages, model, options).value;
      var chat := Filter(messages, IsChat);
      && |req.history| + 1 == |chat|
      && (forall i :: 0 <= i < |req.history| ==>
            req.history[i].text == chat[i].content && req.history[i].role == MapRole(chat[i].role))
      && req.lastMessage == chat[|chat| - 1].content
      && IsSubsequence(chat, messages)
  {
    FilterIsSubsequence(messages, IsChat);
  }

  /** The system instruction is the content of the first system message;
      later system messages are dropped. */
  lemma {:induction false} SystemInstructionIsFirst(messages: seq<ChatMessage>, model: string, options: ChatOptions, k: nat)
    requires PrepareChat(messages, model, options).Success?
    requires k < |messages| && IsSystem(messages[k])
    requires forall i :: 0 <= i < k ==> !IsSystem(messages[i])
    ensures PrepareChat(messages, model, options).value.systemInstruction == Some(messages[k].content)
    ensures forall x :: x in PrepareChat(messages, model, options).value.history ==>
      exists i :: 0 <= i < |messages| && !IsSystem(messages[i]) && messages[i].content == x.text
  {
    assert FirstSystem(messages) == Some(k);
    var chat := Filter(messages, IsChat);
    FilterMembershipAll(messages, IsChat);
    var h := PrepareChat(messages, model, options).value.history;
    forall x | x in h
      ensures exists i :: 0 <= i < |messages| && !IsSystem(messages[i]) && messages[i].content == x.text
    {
      var t :| 0 <= t < |h| && h[t] == x;
      assert chat[t] in chat;
      var i :| 0 <= i < |messages| && messages[i] == chat[t];
    }
  }

  // ── Answer stream ────────────────────────────────

  /** The adapter's generator: non-empty pieces, in arrival order. */
  function YieldText(pieces: seq<string>): (r: seq<string>)
    ensures forall s :: s in r <==> s in pieces && s != ""
    ensures IsSubsequence(r, pieces)
    ensures |r| == |pieces| - multiset(pieces)[""]
  {
    FilterMembershipAll(pieces, NonEmpty);
    FilterIsSubsequence(pieces, NonEmpty);
    NonEmptyCount(pieces);
    Filter(pieces, NonEmpty)
  }

  predicate NonEmpty(s: string)
  {
    s != ""
  }

  /** Exactly the empty pieces are dropped, counted with repetition. */
  lemma {:induction false} NonEmptyCount(xs: seq<string>)
    ensures |Filter(xs, NonEmpty)| == |xs| - multiset(xs)[""]
    decreases |xs|
  {
    if xs != [] {
      NonEmptyCount(xs[1..]);
      assert xs == [xs[0]] + xs[1..];
      assert multiset(xs) == multiset([xs[0]]) + multiset(xs[1..]);
    }
  }

  /** Dropping empty pieces changes nothing about the text the client
      reads. */
  lemma {:induction false} YieldPreservesText(pieces: seq<string>)
    ensures Concat(YieldText(pieces)) == Concat(pieces)
    decreases |pieces|
  {
    if pieces != [] {
      YieldPreservesText(pieces[1..]);
      if pieces[0] == "" {
        assert Concat(pieces) == Concat(pieces[1..]);
      } else {
        assert Filter(pieces, NonEmpty) == [pieces[0]] + Filter(pieces[1..], NonEmpty);
        assert Concat([pieces[0]] + Filter(pieces[1..], NonEmpty)) ==
          pieces[0] + Concat(Filter(pieces[1..], NonEmpty));
      }
    }
  }
}
