/** The records shared by the streaming client, the conversation and the badge (types.ts). */
module Types {
  import opened Wrappers

  datatype MessageRole = User | Model | System

  /** The telemetry record the streaming client hands to `onComplete`; times in milliseconds. */
  datatype LatencyMetrics = LatencyMetrics(
    ttft: real,
    totalTime: real,
    tokensPerSecond: Option<real>,
    inputTokens: Option<nat>,
    outputTokens: Option<nat>)

  /** The five properties of a metrics object. */
  datatype MetricKey = TtftKey | TotalTimeKey | TokensPerSecondKey | InputTokensKey | OutputTokensKey

  const ALL_KEYS: set<MetricKey> := {TtftKey, TotalTimeKey, TokensPerSecondKey, InputTokensKey, OutputTokensKey}

  /** The five keys are all the keys there are. */
  lemma EveryKey(k: MetricKey)
    ensures k in ALL_KEYS
  {
    match k
    case TtftKey =>
    case TotalTimeKey =>
    case TokensPerSecondKey =>
    case InputTokensKey =>
    case OutputTokensKey =>
  }

  /**
   * A metrics object as it exists at run time: the keys it holds, each mapped to a number
   * or to `undefined` (`None`). The first-token update casts a partial object to
   * `LatencyMetrics`, so a message's metrics may lack keys; object spread is map union.
   */
  type MetricsObject = map<MetricKey, Option<real>>

  /** Reading a property: a missing key reads as `undefined`. */
  function Property(o: MetricsObject, k: MetricKey): Option<real> {
    if k in o then o[k] else None
  }

  /** The properties `...x` contributes: none when `x` is `undefined`. */
  function Spread(x: Option<MetricsObject>): MetricsObject {
    if x.Some? then x.value else map[]
  }

  datatype ImageData = ImageData(mimeType: string, data: string)

  datatype Message = Message(
    id: string,
    role: MessageRole,
    content: string,
    image: Option<ImageData>,
    timestamp: int,
    metrics: Option<MetricsObject>,
    isStreaming: Option<bool>,
    error: Option<bool>)

  const FLASH_LITE: string := "gemini-2.0-flash-lite-preview-02-05"
  const FLASH_STD: string := "gemini-2.5-flash"

  /** The object literal built for `onComplete`: all five keys are written, even an undefined rate. */
  function ObjectOf(m: LatencyMetrics): (o: MetricsObject)
    ensures o.Keys == ALL_KEYS
    ensures Property(o, TtftKey) == Some(m.ttft) && Property(o, TotalTimeKey) == Some(m.totalTime)
    ensures Property(o, TokensPerSecondKey) == m.tokensPerSecond
    ensures Property(o, InputTokensKey) == (if m.inputTokens.Some? then Some(m.inputTokens.value as real) else None)
    ensures Property(o, OutputTokensKey) == (if m.outputTokens.Some? then Some(m.outputTokens.value as real) else None)
  {
    map[TtftKey := Some(m.ttft),
        TotalTimeKey := Some(m.totalTime),
        TokensPerSecondKey := m.tokensPerSecond,
        InputTokensKey := if m.inputTokens.Some? then Some(m.inputTokens.value as real) else None,
        OutputTokensKey := if m.outputTokens.Some? then Some(m.outputTokens.value as real) else None]
  }
}
