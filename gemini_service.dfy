/**
 * The streaming client (services/geminiService.ts). The provider's response stream is
 * an input sequence; `performance.now()` readings are abstract real numbers: `start`
 * before the request, the reading taken when each fragment is handled, and `finish`
 * after the stream is exhausted. A failure of the request or of the iteration is a
 * `Throw` item: at position 0 it is the request itself that failed.
 */
module GeminiService {
  import opened Wrappers
  import opened Types

  const DEFAULT_TEMPERATURE: real := 0.7
  const TOP_P: real := 0.9
  const UNKNOWN_ERROR: string := "Unknown error"

  /** The options the caller may pass (`RequestConfig`). */
  datatype RequestConfig = RequestConfig(
    systemInstruction: Option<string>,
    image: Option<ImageData>,
    temperature: Option<real>)

  /** One content part of the outgoing request. */
  datatype Part = TextPart(text: string) | InlineDataPart(mimeType: string, data: string)

  datatype GenerateConfig = GenerateConfig(systemInstruction: Option<string>, temperature: real, topP: real)

  /** What is handed to the provider's `generateContentStream`. */
  datatype Request = Request(model: string, parts: seq<Part>, config: GenerateConfig)

  datatype UsageMetadata = UsageMetadata(promptTokenCount: Option<nat>, candidatesTokenCount: Option<nat>)

  /** One response fragment: an optional text delta and optional usage counters. */
  datatype Fragment = Fragment(text: Option<string>, usageMetadata: Option<UsageMetadata>)

  /** A thrown value: an `Error` instance with its message, or anything else. */
  datatype Thrown = ErrorInstance(message: string) | NonErrorValue

  /** One step of the provider stream: a fragment handled at clock reading `at`, or a failure. */
  datatype StreamItem = Arrive(at: real, fragment: Fragment) | Throw(thrown: Thrown)

  /** One invocation of the caller's `StreamCallbacks`. */
  datatype Callback =
    | FirstToken(ttft: real)
    | Chunk(text: string)
    | Complete(metrics: LatencyMetrics)
    | Error(message: string)
  {
    predicate IsTerminal() { Complete? || Error? }
  }

  datatype TokenKind = PromptTokens | CandidateTokens

  /** The message of the `Error` passed to `onError`: non-`Error` values are wrapped. */
  function ErrorMessage(t: Thrown): (m: string)
    ensures t.ErrorInstance? ==> m == t.message
    ensures t.NonErrorValue? ==> m == UNKNOWN_ERROR
  {
    match t
    case ErrorInstance(message) => message
    case NonErrorValue => UNKNOWN_ERROR
  }

  /** A fragment whose text is truthy, i.e. present and non-empty. */
  predicate CarriesText(item: StreamItem) {
    item.Arrive? && item.fragment.text.Some? && item.fragment.text.value != ""
  }

  /** The counter a fragment reports for `kind`, if it carries usage metadata at all. */
  function Reported(item: StreamItem, kind: TokenKind): Option<nat> {
    if item.Arrive? && item.fragment.usageMetadata.Some? then
      var u := item.fragment.usageMetadata.value;
      match kind
      case PromptTokens => u.promptTokenCount
      case CandidateTokens => u.candidatesTokenCount
    else None
  }

  /** The position of the first failure, or the length when the stream ends normally. */
  function FailIndex(stream: seq<StreamItem>): (k: nat)
    ensures k <= |stream|
    ensures forall j :: 0 <= j < k ==> stream[j].Arrive?
    ensures k < |stream| ==> stream[k].Throw?
  {
    if stream == [] || stream[0].Throw? then 0 else 1 + FailIndex(stream[1..])
  }

  /** The truthy texts among the first `n` items, in order. */
  function Texts(items: seq<StreamItem>, n: nat): (texts: seq<string>)
    requires n <= |items|
    ensures |texts| <= n
  {
    if n == 0 then []
    else Texts(items, n - 1) + if CarriesText(items[n - 1]) then [items[n - 1].fragment.text.value] else []
  }

  /** The clock reading of the first fragment, among the first `n`, that carries text. */
  function FirstTextAt(items: seq<StreamItem>, n: nat): (at: Option<real>)
    requires n <= |items|
    ensures at.None? <==> Texts(items, n) == []
  {
    if n == 0 then None
    else match FirstTextAt(items, n - 1)
      case Some(t) => Some(t)
      case None => if CarriesText(items[n - 1]) then Some(items[n - 1].at) else None
  }

  /** A counter after the first `n` items: 0 at first, overwritten by each fragment that reports it. */
  function TokenCount(items: seq<StreamItem>, n: nat, kind: TokenKind): nat
    requires n <= |items|
  {
    if n == 0 then 0 else Reported(items[n - 1], kind).GetOr(TokenCount(items, n - 1, kind))
  }

  /** The time to first token after the first `n` items: 0 while no text has arrived. */
  function Ttft(start: real, items: seq<StreamItem>, n: nat): real
    requires n <= |items|
  {
    match FirstTextAt(items, n)
    case Some(at) => at - start
    case None => 0.0
  }

  /** Tokens per second; JavaScript leaves it undefined when no output token was reported. */
  function Throughput(outputTokens: nat, totalTime: real): (tps: Option<real>)
    requires totalTime > 0.0
    ensures tps.Some? <==> outputTokens > 0
  {
    if outputTokens > 0 then Some(outputTokens as real / (totalTime / 1000.0)) else None
  }

  /** The record passed to `onComplete` once the first `n` items were handled. */
  function FinalMetrics(start: real, finish: real, items: seq<StreamItem>, n: nat): LatencyMetrics
    requires start < finish && n <= |items|
  {
    var output := TokenCount(items, n, CandidateTokens);
    LatencyMetrics(
      Ttft(start, items, n),
      finish - start,
      Throughput(output, finish - start),
      Some(TokenCount(items, n, PromptTokens)),
      Some(output))
  }

  /** `onFirstToken`, if any text is among the first `n` items. */
  function Opening(start: real, items: seq<StreamItem>, n: nat): seq<Callback>
    requires n <= |items|
  {
    if FirstTextAt(items, n).Some? then [FirstToken(Ttft(start, items, n))] else []
  }

  /** One `onChunk` per text, in order. */
  function Chunks(texts: seq<string>): (cs: seq<Callback>)
    ensures |cs| == |texts|
  {
    if texts == [] then [] else Chunks(texts[..|texts| - 1]) + [Chunk(texts[|texts| - 1])]
  }

  lemma ChunksAppend(texts: seq<string>, t: string)
    ensures Chunks(texts + [t]) == Chunks(texts) + [Chunk(t)]
  {
    assert (texts + [t])[..|texts|] == texts;
  }

  /** The callbacks made while handling the first `n` items. */
  function Progress(start: real, items: seq<StreamItem>, n: nat): seq<Callback>
    requires n <= |items|
  {
    Opening(start, items, n) + Chunks(Texts(items, n))
  }

  /**
   * The callbacks one call makes, in order: `onFirstToken` when some text arrived, then
   * one `onChunk` per text, then `onComplete` or, on failure, `onError`.
   */
  function ExpectedTrace(start: real, finish: real, stream: seq<StreamItem>): seq<Callback>
    requires start < finish
  {
    Progress(start, stream, FailIndex(stream)) + [Outcome(start, finish, stream)]
  }

  /** The terminal callback: `onError` at the first failure, else `onComplete`. */
  function Outcome(start: real, finish: real, stream: seq<StreamItem>): Callback
    requires start < finish
  {
    var k := FailIndex(stream);
    if k < |stream| then Error(ErrorMessage(stream[k].thrown))
    else Complete(FinalMetrics(start, finish, stream, k))
  }

  /** The variables of the fragment loop. */
  datatype LoopState = LoopState(
    firstTokenReceived: bool,
    ttft: real,
    inputTokenCount: nat,
    outputTokenCount: nat,
    trace: seq<Callback>)

  /** The usage part of the loop body: each reported counter is overwritten. */
  function ReadUsage(s: LoopState, c: Fragment): LoopState {
    if c.usageMetadata.Some? then
      s.(outputTokenCount := c.usageMetadata.value.candidatesTokenCount.GetOr(s.outputTokenCount),
         inputTokenCount := c.usageMetadata.value.promptTokenCount.GetOr(s.inputTokenCount))
    else s
  }

  /** The text part of the loop body: `onFirstToken` on the first text, then `onChunk`. */
  function HandleText(s: LoopState, start: real, at: real, c: Fragment): LoopState {
    if c.text.Some? && c.text.value != "" then
      var s1 :=
        if !s.firstTokenReceived then
          s.(ttft := at - start, firstTokenReceived := true, trace := s.trace + [FirstToken(at - start)])
        else s;
      s1.(trace := s1.trace + [Chunk(c.text.value)])
    else s
  }

  /** One pass of the loop body over a fragment handled at clock reading `at`. */
  function Advance(s: LoopState, start: real, at: real, c: Fragment): LoopState {
    HandleText(ReadUsage(s, c), start, at, c)
  }

  /** The loop variables after the first `n` items, none of which is a failure. */
  function StateAfter(start: real, items: seq<StreamItem>, n: nat): LoopState
    requires n <= |items|
    requires forall j :: 0 <= j < n ==> items[j].Arrive?
  {
    if n == 0 then LoopState(false, 0.0, 0, 0, [])
    else Advance(StateAfter(start, items, n - 1), start, items[n - 1].at, items[n - 1].fragment)
  }

  /** The closed forms of the loop variables after the first `n` items. */
  function ClosedForm(start: real, items: seq<StreamItem>, n: nat): LoopState
    requires n <= |items|
  {
    LoopState(
      FirstTextAt(items, n).Some?,
      Ttft(start, items, n),
      TokenCount(items, n, PromptTokens),
      TokenCount(items, n, CandidateTokens),
      Progress(start, items, n))
  }

  /** One pass of the loop body over item `n - 1` takes the closed forms after `n - 1` items to those after `n`. */
  lemma AdvanceClosedForm(start: real, items: seq<StreamItem>, n: nat)
    requires 0 < n <= |items|
    requires forall j :: 0 <= j < n ==> items[j].Arrive?
    ensures Advance(ClosedForm(start, items, n - 1), start, items[n - 1].at, items[n - 1].fragment) == ClosedForm(start, items, n)
  {
    if !CarriesText(items[n - 1]) {
      AdvanceSilent(start, items, n);
    } else if FirstTextAt(items, n - 1).None? {
      AdvanceFirst(start, items, n);
    } else {
      AdvanceLater(start, items, n);
    }
  }

  /** The usage part takes the counters after `n - 1` items to those after `n`. */
  lemma ReadUsageClosedForm(start: real, items: seq<StreamItem>, n: nat)
    requires 0 < n <= |items| && items[n - 1].Arrive?
    ensures ReadUsage(ClosedForm(start, items, n - 1), items[n - 1].fragment) ==
      ClosedForm(start, items, n - 1).(inputTokenCount := TokenCount(items, n, PromptTokens),
                                       outputTokenCount := TokenCount(items, n, CandidateTokens))
  {
  }

  lemma AdvanceSilent(start: real, items: seq<StreamItem>, n: nat)
    requires 0 < n <= |items| && items[n - 1].Arrive? && !CarriesText(items[n - 1])
    ensures Advance(ClosedForm(start, items, n - 1), start, items[n - 1].at, items[n - 1].fragment) == ClosedForm(start, items, n)
  {
    ReadUsageClosedForm(start, items, n);
    ProgressSilent(start, items, n);
    assert FirstTextAt(items, n) == FirstTextAt(items, n - 1);
  }

  lemma AdvanceFirst(start: real, items: seq<StreamItem>, n: nat)
    requires 0 < n <= |items| && CarriesText(items[n - 1]) && FirstTextAt(items, n - 1).None?
    ensures Advance(ClosedForm(start, items, n - 1), start, items[n - 1].at, items[n - 1].fragment) == ClosedForm(start, items, n)
  {
    var x := items[n - 1];
    ReadUsageClosedForm(start, items, n);
    ProgressFirst(start, items, n);
    var before, after := ClosedForm(start, items, n - 1), ClosedForm(start, items, n);
    assert !before.firstTokenReceived;
    assert FirstTextAt(items, n) == Some(x.at);
    assert after.firstTokenReceived && after.ttft == x.at - start;
  }

  lemma AdvanceLater(start: real, items: seq<StreamItem>, n: nat)
    requires 0 < n <= |items| && CarriesText(items[n - 1]) && FirstTextAt(items, n - 1).Some?
    ensures Advance(ClosedForm(start, items, n - 1), start, items[n - 1].at, items[n - 1].fragment) == ClosedForm(start, items, n)
  {
    ReadUsageClosedForm(start, items, n);
    ProgressLater(start, items, n);
    assert FirstTextAt(items, n) == FirstTextAt(items, n - 1);
  }

  /**
   * The request `streamResponse` sends: the prompt as a text part, preceded by the image
   * when there is one, with the system instruction passed through, the temperature
   * defaulting to 0.7 and top-p fixed at 0.9.
   */
  function BuildRequest(prompt: string, modelName: string, config: RequestConfig): (r: Request)
    ensures r.model == modelName
    ensures config.image.None? ==> r.parts == [TextPart(prompt)]
    ensures config.image.Some? ==>
      r.parts == [InlineDataPart(config.image.value.mimeType, config.image.value.data), TextPart(prompt)]
    ensures r.parts[|r.parts| - 1] == TextPart(prompt)
    ensures r.config.systemInstruction == config.systemInstruction
    ensures config.temperature.Some? ==> r.config.temperature == config.temperature.value
    ensures config.temperature.None? ==> r.config.temperature == DEFAULT_TEMPERATURE
    ensures r.config.topP == TOP_P
  {
    var text := [TextPart(prompt)];
    var parts := if config.image.Some? then [InlineDataPart(config.image.value.mimeType, config.image.value.data)] + text else text;
    Request(modelName, parts, GenerateConfig(config.systemInstruction, config.temperature.GetOr(DEFAULT_TEMPERATURE), TOP_P))
  }

  /** The loop keeps its variables equal to the closed forms. */
  lemma {:induction false} StateAfterIsClosedForm(start: real, items: seq<StreamItem>, n: nat)
    requires n <= |items|
    requires forall j :: 0 <= j < n ==> items[j].Arrive?
    ensures StateAfter(start, items, n) == ClosedForm(start, items, n)
  {
    if n > 0 {
      var m: nat := n - 1;
      StateAfterIsClosedForm(start, items, m);
      StateAfterNext(start, items, m);
      AdvanceClosedFormAt(start, items, m);
    }
  }

  /** The step lemma with the index written as the loop writes it. */
  lemma AdvanceClosedFormAt(start: real, items: seq<StreamItem>, i: nat)
    requires i < |items|
    requires forall j :: 0 <= j <= i ==> items[j].Arrive?
    ensures Advance(ClosedForm(start, items, i), start, items[i].at, items[i].fragment) == ClosedForm(start, items, i + 1)
  {
    AdvanceClosedForm(start, items, i + 1);
  }

  /** `StateAfter` one item further, with the argument written as the loop writes it. */
  lemma StateAfterNext(start: real, items: seq<StreamItem>, i: nat)
    requires i < |items|
    requires forall j :: 0 <= j <= i ==> items[j].Arrive?
    ensures StateAfter(start, items, i + 1) == Advance(StateAfter(start, items, i), start, items[i].at, items[i].fragment)
  {
  }

  /** Handling item `n - 1`: a fragment without text adds nothing to the trace. */
  lemma ProgressSilent(start: real, items: seq<StreamItem>, n: nat)
    requires 0 < n <= |items| && !CarriesText(items[n - 1])
    ensures Progress(start, items, n) == Progress(start, items, n - 1)
  {
    assert Texts(items, n) == Texts(items, n - 1);
    assert FirstTextAt(items, n) == FirstTextAt(items, n - 1);
  }

  /** Handling item `n - 1`: the first text adds `onFirstToken` and its `onChunk`. */
  lemma ProgressFirst(start: real, items: seq<StreamItem>, n: nat)
    requires 0 < n <= |items| && CarriesText(items[n - 1]) && FirstTextAt(items, n - 1).None?
    ensures Progress(start, items, n) ==
            Progress(start, items, n - 1) + [FirstToken(items[n - 1].at - start)] + [Chunk(items[n - 1].fragment.text.value)]
  {
    var m: nat := n - 1;
    var t := items[m].fragment.text.value;
    assert Texts(items, m) == [];
    assert Texts(items, n) == Texts(items, m) + [t];
    assert Progress(start, items, m) == [];
    assert FirstTextAt(items, n) == Some(items[m].at);
    assert Opening(start, items, n) == [FirstToken(items[m].at - start)];
    ChunksAppend([], t);
    assert [] + [t] == [t];
  }

  /** Handling item `n - 1`: a later text adds its `onChunk`. */
  lemma ProgressLater(start: real, items: seq<StreamItem>, n: nat)
    requires 0 < n <= |items| && CarriesText(items[n - 1]) && FirstTextAt(items, n - 1).Some?
    ensures Progress(start, items, n) == Progress(start, items, n - 1) + [Chunk(items[n - 1].fragment.text.value)]
  {
    ChunksAppend(Texts(items, n - 1), items[n - 1].fragment.text.value);
  }

  /** The trace of a stream that fails at `i`, in terms of the callbacks made before. */
  lemma ExpectedOnFailure(start: real, finish: real, stream: seq<StreamItem>, i: nat, s: LoopState)
    requires start < finish && i < |stream| && stream[i].Throw?
    requires forall j :: 0 <= j < i ==> stream[j].Arrive?
    requires s == StateAfter(start, stream, i)
    ensures ExpectedTrace(start, finish, stream) == s.trace + [Error(ErrorMessage(stream[i].thrown))]
  {
    StateAfterIsClosedForm(start, stream, i);
    assert FailIndex(stream) == i;
  }

  /** The trace of a stream without failure, in terms of the loop variables at its end. */
  lemma ExpectedOnCompletion(start: real, finish: real, stream: seq<StreamItem>, s: LoopState)
    requires start < finish
    requires forall j :: 0 <= j < |stream| ==> stream[j].Arrive?
    requires s == StateAfter(start, stream, |stream|)
    ensures ExpectedTrace(start, finish, stream) ==
      s.trace + [Complete(LatencyMetrics(s.ttft, finish - start, Throughput(s.outputTokenCount, finish - start),
                                         Some(s.inputTokenCount), Some(s.outputTokenCount)))]
  {
    StateAfterIsClosedForm(start, stream, |stream|);
    assert FailIndex(stream) == |stream|;
  }

  /**
   * `streamResponse`: builds the request, walks the stream keeping the first-token flag
   * and the two counters, and returns the callbacks it makes. The callbacks themselves
   * are assumed not to throw.
   */
  method StreamResponse(prompt: string, modelName: string, config: RequestConfig,
                        stream: seq<StreamItem>, start: real, finish: real)
    returns (request: Request, trace: seq<Callback>)
    requires start < finish
    ensures request == BuildRequest(prompt, modelName, config)
    ensures trace == ExpectedTrace(start, finish, stream)
  {
    var firstTokenReceived := false;
    var ttft := 0.0;
    var inputTokenCount: nat := 0;
    var outputTokenCount: nat := 0;
    trace := [];

    request := BuildRequest(prompt, modelName, config);

    var i := 0;
    while i < |stream|
      invariant 0 <= i <= |stream|
      invariant forall j :: 0 <= j < i ==> stream[j].Arrive?
      invariant LoopState(firstTokenReceived, ttft, inputTokenCount, outputTokenCount, trace)
                == StateAfter(start, stream, i)
    {
      if stream[i].Throw? {
        ExpectedOnFailure(start, finish, stream, i,
          LoopState(firstTokenReceived, ttft, inputTokenCount, outputTokenCount, trace));
        trace := trace + [Error(ErrorMessage(stream[i].thrown))];
        return;
      }
      var at, c := stream[i].at, stream[i].fragment;
      StateAfterNext(start, stream, i);
      if c.usageMetadata.Some? {
        outputTokenCount := c.usageMetadata.value.candidatesTokenCount.GetOr(outputTokenCount);
        inputTokenCount := c.usageMetadata.value.promptTokenCount.GetOr(inputTokenCount);
      }
      if c.text.Some? && c.text.value != "" {
        if !firstTokenReceived {
          ttft := at - start;
          firstTokenReceived := true;
          trace := trace + [FirstToken(ttft)];
        }
        trace := trace + [Chunk(c.text.value)];
      }
      i := i + 1;
    }
    ExpectedOnCompletion(start, finish, stream,
      LoopState(firstTokenReceived, ttft, inputTokenCount, outputTokenCount, trace));

    var totalTime := finish - start;
    var tokensPerSecond := if outputTokenCount > 0 then Some(outputTokenCount as real / (totalTime / 1000.0)) else None;
    trace := trace + [Complete(LatencyMetrics(ttft, totalTime, tokensPerSecond, Some(inputTokenCount), Some(outputTokenCount)))];
  }
}
