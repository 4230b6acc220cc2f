/** The streaming protocol translator: renders a backend's fragment sequence
    either as server-sent-event frames (the `data:` framing of section 9.2,
    "Server-sent events", of the HTML Living Standard, ending with the
    `data: [DONE]` sentinel) or as one buffered completion object. Frames are
    kept as records; their JSON text is not modelled. */
module Sse {
  import opened Wrappers
  import opened Seqs
  import opened ProviderError

  const CompletionIdPrefix: string := "chatcmpl-"
  const CompletionIdHexLength: nat := 24
  const AssistantRole: string := "assistant"
  const StopReason: string := "stop"

  // ── Completion ids ───────────────────────────────

  /** `s.replace(/-/g, "")`. */
  function StripHyphens(s: string): (r: string)
    ensures '-' !in r
    ensures |r| <= |s|
    ensures '-' !in s ==> r == s
  {
    if s == [] then []
    else if s[0] == '-' then StripHyphens(s[1..])
    else [s[0]] + StripHyphens(s[1..])
  }

  lemma {:induction false} StripHyphensAppend(a: string, b: string)
    ensures StripHyphens(a + b) == StripHyphens(a) + StripHyphens(b)
    decreases |a|
  {
    if a != [] {
      assert (a + b)[1..] == a[1..] + b;
      StripHyphensAppend(a[1..], b);
    } else {
      assert a + b == b;
    }
  }

  /** `chatcmpl-` followed by at most the first 24 characters of the
      hyphen-stripped UUID; the UUID comes from the caller because the
      random source is not modelled. */
  function GenerateCompletionId(uuid: string): (id: string)
    ensures |id| >= |CompletionIdPrefix| && id[..|CompletionIdPrefix|] == CompletionIdPrefix
    ensures var hex := StripHyphens(uuid);
      |id| == |CompletionIdPrefix| + (if |hex| < CompletionIdHexLength then |hex| else CompletionIdHexLength)
      && id[|CompletionIdPrefix|..] == hex[..|id| - |CompletionIdPrefix|]
    ensures '-' !in id[|CompletionIdPrefix|..]
  {
    var hex := StripHyphens(uuid);
    var cut := if |hex| < CompletionIdHexLength then |hex| else CompletionIdHexLength;
    var id := CompletionIdPrefix + hex[..cut];
    assert id[|CompletionIdPrefix|..] == hex[..cut];
    assert forall c :: c in hex[..cut] ==> c in hex;
    id
  }

  predicate IsHexDigit(c: char)
  {
    ('0' <= c <= '9') || ('a' <= c <= 'f') || ('A' <= c <= 'F')
  }

  /** Positions of the four hyphens in the textual form of a UUID. */
  predicate IsUuidSeparatorPos(i: int)
  {
    i == 8 || i == 13 || i == 18 || i == 23
  }

  /** The textual form of a random UUID: five hex groups of 8, 4, 4, 4
      and 12 digits separated by hyphens. */
  predicate IsCanonicalUuid(u: string)
  {
    && |u| == 36
    && (forall i :: 0 <= i < 36 && IsUuidSeparatorPos(i) ==> u[i] == '-')
    && (forall i :: 0 <= i < 36 && !IsUuidSeparatorPos(i) ==> IsHexDigit(u[i]))
  }

  /** For a canonical UUID the id is always 33 characters long: the prefix
      and the first 24 hex digits, i.e. the first four groups and the first
      four digits of the last one. */
  lemma {:induction false} CanonicalUuidId(u: string)
    requires IsCanonicalUuid(u)
    ensures |GenerateCompletionId(u)| == 33
    ensures GenerateCompletionId(u) == CompletionIdPrefix + u[..8] + u[9..13] + u[14..18] + u[19..23] + u[24..28]
  {
    var hex := StripHyphens(u);
    StripCanonical(u);
    assert |hex| == 32;
    assert hex[..24] == u[..8] + u[9..13] + u[14..18] + u[19..23] + u[24..28];
  }

  lemma {:induction false} StripCanonical(u: string)
    requires IsCanonicalUuid(u)
    ensures StripHyphens(u) == u[..8] + u[9..13] + u[14..18] + u[19..23] + u[24..]
  {
    calc {
      StripHyphens(u);
      { assert u[0..] == u; }
      StripHyphens(u[0..]);
      { StripAtHyphen(u, 0, 8); }
      u[0..8] + StripHyphens(u[9..]);
      { StripAtHyphen(u, 9, 13); }
      u[0..8] + (u[9..13] + StripHyphens(u[14..]));
      { StripAtHyphen(u, 14, 18); }
      u[0..8] + (u[9..13] + (u[14..18] + StripHyphens(u[19..])));
      { StripAtHyphen(u, 19, 23); }
      u[0..8] + (u[9..13] + (u[14..18] + (u[19..23] + StripHyphens(u[24..]))));
      { HexRunHasNoHyphen(u, 24, 36); assert u[24..36] == u[24..]; }
      u[0..8] + (u[9..13] + (u[14..18] + (u[19..23] + u[24..])));
      u[..8] + u[9..13] + u[14..18] + u[19..23] + u[24..];
    }
  }

  /** Stripping a suffix of a canonical UUID that starts with a hex group
      ending in a hyphen at `k`: the group is kept, the hyphen dropped. */
  lemma {:induction false} StripAtHyphen(u: string, a: nat, k: nat)
    requires IsCanonicalUuid(u)
    requires a < k < 36 && IsUuidSeparatorPos(k)
    requires forall i :: a <= i < k ==> !IsUuidSeparatorPos(i)
    ensures StripHyphens(u[a..]) == u[a..k] + StripHyphens(u[k + 1..])
  {
    HexRunHasNoHyphen(u, a, k);
    assert u[a..] == u[a..k] + ("-" + u[k + 1..]);
    StripHyphensAppend(u[a..k], "-" + u[k + 1..]);
    assert ("-" + u[k + 1..])[1..] == u[k + 1..];
  }

  lemma {:induction false} HexRunHasNoHyphen(u: string, a: nat, b: nat)
    requires IsCanonicalUuid(u)
    requires a <= b <= 36
    requires forall i :: a <= i < b ==> !IsUuidSeparatorPos(i)
    ensures '-' !in u[a..b]
  {
    forall i | a <= i < b
      ensures u[i] != '-'
    {
      assert IsHexDigit(u[i]);
    }
  }

  // ── Frames ───────────────────────────────────────

  /** The `delta` of a chunk: `role` and `content` are each present only
      when given. */
  datatype Delta = Delta(role: Option<string>, content: Option<string>)

  /** One `chat.completion.chunk` with its single choice (index 0). The
      per-chunk `created` timestamp is not modelled. */
  datatype Chunk = Chunk(id: string, model: string, delta: Delta, finishReason: Option<string>)

  /** One `data:` event: a chunk, or the `[DONE]` sentinel. */
  datatype Frame = DataFrame(chunk: Chunk) | DoneFrame

  /** `createChunk`: an absent finish reason is sent as `null` (`None`). */
  function CreateChunk(id: string, model: string, content: Option<string>, role: Option<string>,
                       finishReason: Option<string>): Chunk
  {
    Chunk(id, model, Delta(role, content), finishReason)
  }

  function RoleFrame(id: string, model: string): Frame
  {
    DataFrame(CreateChunk(id, model, None, Some(AssistantRole), None))
  }

  function ContentFrame(id: string, model: string, text: string): Frame
  {
    DataFrame(CreateChunk(id, model, Some(text), None, None))
  }

  function StopFrame(id: string, model: string): Frame
  {
    DataFrame(CreateChunk(id, model, None, None, Some(StopReason)))
  }

  function ContentFrames(id: string, model: string, fragments: seq<string>): (r: seq<Frame>)
    ensures |r| == |fragments|
  {
    seq(|fragments|, i requires 0 <= i < |fragments| => ContentFrame(id, model, fragments[i]))
  }

  /** How the fragment sequence ends once its fragments are drained: it
      completes, or the next pull throws. */
  datatype StreamEnd = Completed | Broke(error: Thrown)

  /** The outcome of `streamToSSE`: the frames written, the exception it
      let escape (if any) and whether it wrote the sentinel and closed the
      response itself. */
  datatype SseRun = SseRun(frames: seq<Frame>, thrown: Option<Thrown>, finished: bool)

  /** Whether the response reads as ended once `written` content frames
      have gone out. The writer is ended from outside the translator; the
      point at which that happens, if ever, is an input (`endAt`). */
  predicate WriterEnded(endAt: Option<nat>, written: int)
  {
    endAt.Some? && endAt.value <= written
  }

  function Min(a: nat, b: nat): nat
  {
    if a < b then a else b
  }

  /** What `streamToSSE` writes, stated declaratively: the role frame, one
      content frame per fragment consumed before the writer ended, and, if
      the stream neither threw nor was cut off, the stop frame and `[DONE]`. */
  function StreamToSseSpec(fragments: seq<string>, end: StreamEnd, model: string, id: string,
                           endAt: Option<nat>): SseRun
  {
    var w := if endAt.Some? then Min(endAt.value, |fragments|) else |fragments|;
    var thrown := if w == |fragments| && end.Broke? then Some(end.error) else None;
    var finished := thrown.None? && !WriterEnded(endAt, w);
    SseRun([RoleFrame(id, model)] + ContentFrames(id, model, fragments[..w])
             + (if finished then [StopFrame(id, model), DoneFrame] else []),
           thrown, finished)
  }

  /** `streamToSSE`, following its loop: the writer is checked after each
      fragment is pulled and before it is written. */
  method StreamToSse(fragments: seq<string>, end: StreamEnd, model: string, id: string,
                     endAt: Option<nat>) returns (run: SseRun)
    ensures run == StreamToSseSpec(fragments, end, model, id, endAt)
  {
    var frames := [RoleFrame(id, model)];
    var i := 0;
    var cut := false;
    while i < |fragments|
      invariant 0 <= i <= |fragments|
      invariant frames == [RoleFrame(id, model)] + ContentFrames(id, model, fragments[..i])
      invariant forall j :: 0 <= j < i ==> !WriterEnded(endAt, j)
      invariant cut ==> WriterEnded(endAt, i) && i < |fragments|
      decreases |fragments| - i, if cut then 0 else 1
    {
      if WriterEnded(endAt, i) {
        cut := true;
        break;
      }
      assert fragments[..i + 1] == fragments[..i] + [fragments[i]];
      frames := frames + [ContentFrame(id, model, fragments[i])];
      i := i + 1;
    }
    var thrown: Option<Thrown> := None;
    if !cut && end.Broke? {
      thrown := Some(end.error);
    }
    var finished := false;
    if thrown.None? && !WriterEnded(endAt, i) {
      frames := frames + [StopFrame(id, model), DoneFrame];
      finished := true;
    }
    run := SseRun(frames, thrown, finished);
  }

  /** The text a client reassembles from the content deltas of a frame list. */
  function StreamedText(frames: seq<Frame>): string
  {
    if frames == [] then ""
    else
      var head := if frames[0].DataFrame? && frames[0].chunk.delta.content.Some?
                  then frames[0].chunk.delta.content.value else "";
      head + StreamedText(frames[1..])
  }

  lemma {:induction false} StreamedTextAppend(a: seq<Frame>, b: seq<Frame>)
    ensures StreamedText(a + b) == StreamedText(a) + StreamedText(b)
    decreases |a|
  {
    if a != [] {
      assert (a + b)[1..] == a[1..] + b;
      StreamedTextAppend(a[1..], b);
    } else {
      assert a + b == b;
    }
  }

  lemma {:induction false} StreamedContentFrames(id: string, model: string, fragments: seq<string>)
    ensures StreamedText(ContentFrames(id, model, fragments)) == Concat(fragments)
    decreases |fragments|
  {
    if fragments != [] {
      var cf := ContentFrames(id, model, fragments);
      assert cf[1..] == ContentFrames(id, model, fragments[1..]);
      StreamedContentFrames(id, model, fragments[1..]);
    }
  }

  /** An uninterrupted stream is exactly: role frame, one content frame per
      fragment in order (empty ones included), stop frame, `[DONE]`. */
  lemma {:induction false} StreamFramesUninterrupted(fragments: seq<string>, model: string, id: string)
    ensures var run := StreamToSseSpec(fragments, Completed, model, id, None);
      && run.finished && run.thrown.None?
      && |run.frames| == |fragments| + 3
      && run.frames[0] == RoleFrame(id, model)
      && (forall i :: 0 <= i < |fragments| ==> run.frames[i + 1] == ContentFrame(id, model, fragments[i]))
      && run.frames[|fragments| + 1] == StopFrame(id, model)
      && run.frames[|fragments| + 2] == DoneFrame
  {
    assert fragments[..|fragments|] == fragments;
  }

  /** Every data frame of a run carries the completion id and model the
      translator was given. */
  lemma {:induction false} FramesShareIdAndModel(fragments: seq<string>, end: StreamEnd, model: string, id: string,
                              endAt: Option<nat>)
    ensures var run := StreamToSseSpec(fragments, end, model, id, endAt);
      forall i :: 0 <= i < |run.frames| && run.frames[i].DataFrame? ==>
        run.frames[i].chunk.id == id && run.frames[i].chunk.model == model
  {
  }

  /** Once the writer is ended after `k` content frames, nothing more is
      written: no further content, no stop frame and no sentinel. */
  lemma {:induction false} EarlyExitWritesNothingMore(fragments: seq<string>, end: StreamEnd, model: string, id: string,
                                   k: nat)
    requires k <= |fragments|
    ensures var run := StreamToSseSpec(fragments, end, model, id, Some(k));
      && |run.frames| == k + 1
      && !run.finished
      && DoneFrame !in run.frames
      && forall i :: 0 <= i < |run.frames| ==> run.frames[i] != StopFrame(id, model)
  {
  }

  /** The role frame announces the assistant and carries no content; content
      frames carry only their text; the stop frame has an empty delta. Only
      the stop frame has a finish reason. */
  lemma {:induction false} FrameDeltas(id: string, model: string, text: string)
    ensures RoleFrame(id, model).chunk.delta == Delta(Some(AssistantRole), None)
    ensures ContentFrame(id, model, text).chunk.delta == Delta(None, Some(text))
    ensures StopFrame(id, model).chunk.delta == Delta(None, None)
    ensures RoleFrame(id, model).chunk.finishReason.None?
    ensures ContentFrame(id, model, text).chunk.finishReason.None?
    ensures StopFrame(id, model).chunk.finishReason == Some(StopReason)
  {
  }

  // ── Buffered mode ────────────────────────────────

  datatype Message = Message(role: string, content: string)

  datatype Usage = Usage(promptTokens: nat, completionTokens: nat, totalTokens: nat)

  /** A `chat.completion` object with its single choice; `created` is not
      modelled. */
  datatype Completion = Completion(id: string, model: string, message: Message, finishReason: string,
                                   usage: Usage)

  /** `collectToCompletion`, which drains the stream, concatenates the
      fragments and reports all usage counters as zero. A stream that throws
      makes it throw. */
  method CollectToCompletion(fragments: seq<string>, end: StreamEnd, model: string, id: string)
    returns (r: Result<Completion, Thrown>)
    ensures end.Broke? <==> r.Failure?
    ensures r.Failure? ==> r.error == end.error
    ensures r.Success? ==> r.value == Completion(id, model, Message(AssistantRole, Concat(fragments)),
                                                 StopReason, Usage(0, 0, 0))
  {
    var chunks: seq<string> := [];
    var i := 0;
    while i < |fragments|
      invariant 0 <= i <= |fragments|
      invariant chunks == fragments[..i]
    {
      chunks := chunks + [fragments[i]];
      i := i + 1;
    }
    if end.Broke? {
      return Failure(end.error);
    }
    assert chunks == fragments;
    var content := Concat(chunks);
    r := Success(Completion(id, model, Message(AssistantRole, content), StopReason, Usage(0, 0, 0)));
  }

  function CollectToCompletionSpec(fragments: seq<string>, end: StreamEnd, model: string, id: string)
    : Result<Completion, Thrown>
  {
    match end
    case Broke(e) => Failure(e)
    case Completed => Success(Completion(id, model, Message(AssistantRole, Concat(fragments)), StopReason,
                                         Usage(0, 0, 0)))
  }

  /** The two modes agree: a client that reassembles an uninterrupted event
      stream gets exactly the buffered completion's content. */
  lemma {:induction false} StreamingAgreesWithBuffered(fragments: seq<string>, model: string, id: string)
    ensures var run := StreamToSseSpec(fragments, Completed, model, id, None);
      StreamedText(run.frames) == CollectToCompletionSpec(fragments, Completed, model, id).value.message.content
  {
    var run := StreamToSseSpec(fragments, Completed, model, id, None);
    assert fragments[..|fragments|] == fragments;
    var cf := ContentFrames(id, model, fragments);
    assert run.frames == [RoleFrame(id, model)] + cf + [StopFrame(id, model), DoneFrame];
    StreamedTextAppend([RoleFrame(id, model)] + cf, [StopFrame(id, model), DoneFrame]);
    StreamedTextAppend([RoleFrame(id, model)], cf);
    StreamedContentFrames(id, model, fragments);
    assert StreamedText([RoleFrame(id, model)]) == "";
    assert StreamedText([StopFrame(id, model), DoneFrame]) == "" by {
      assert [StopFrame(id, model), DoneFrame][1..] == [DoneFrame];
      assert [DoneFrame][1..] == [];
    }
  }
}
