/**
 * The latency badge under each model message (components/LatencyBadge.tsx): a spinner
 * while the reply streams, nothing without metrics, and otherwise the time to first token
 * coloured by band, the total time, the rate and the token counts. What is rendered is
 * described by a `View` value; `RenderFault` stands for the `TypeError` thrown when
 * `toFixed` is called on an undefined property.
 */
module LatencyBadge {
  import opened Wrappers
  import opened Types
  import opened GeminiService
  import opened StreamProperties
  import opened ChatUpdates

  const GREEN_BELOW: real := 500.0
  const YELLOW_BELOW: real := 1000.0

  datatype Band = Green | Yellow | Red

  /**
   * `metrics.tokensPerSecond && (...)`: nothing for an undefined rate, the bare number 0
   * (React renders a falsy number) for a zero rate, otherwise the rate segment.
   */
  datatype RateSegment = NoRate | StrayZero | Rate(value: real)

  /** The segments of a rendered badge; an absent total time means its segment is not drawn. */
  datatype Badge = Badge(
    band: Band,
    ttft: Option<real>,
    totalTime: Option<real>,
    rate: RateSegment,
    inputTokens: Option<real>,
    outputTokens: Option<real>)

  datatype View = Spinner | Nothing | Shown(badge: Badge) | RenderFault

  /** The colour of the time to first token; an undefined value compares false both times. */
  function BandOf(ttft: Option<real>): (b: Band)
    ensures b == Green <==> ttft.Some? && ttft.value < GREEN_BELOW
    ensures b == Yellow <==> ttft.Some? && GREEN_BELOW <= ttft.value < YELLOW_BELOW
    ensures b == Red <==> ttft.None? || YELLOW_BELOW <= ttft.value
  {
    if ttft.Some? && ttft.value < GREEN_BELOW then Green
    else if ttft.Some? && ttft.value < YELLOW_BELOW then Yellow
    else Red
  }

  function RateOf(tps: Option<real>): (s: RateSegment)
    ensures s == NoRate <==> tps.None?
    ensures s == StrayZero <==> tps == Some(0.0)
    ensures s.Rate? <==> tps.Some? && tps.value != 0.0
    ensures s.Rate? ==> s.value == tps.value
  {
    match tps
    case None => NoRate
    case Some(v) => if v == 0.0 then StrayZero else Rate(v)
  }

  /** The token group and its divider are drawn when either count is defined. */
  predicate TokenGroupShown(b: Badge) {
    b.inputTokens.Some? || b.outputTokens.Some?
  }

  /** The segments drawn for a metrics object. */
  function BadgeOf(o: MetricsObject): Badge {
    Badge(BandOf(Property(o, TtftKey)), Property(o, TtftKey), Property(o, TotalTimeKey),
          RateOf(Property(o, TokensPerSecondKey)), Property(o, InputTokensKey), Property(o, OutputTokensKey))
  }

  /** The component as written: `toFixed` is called on `ttft` and on `totalTime` unconditionally. */
  function RenderBadgeAsWritten(metrics: Option<MetricsObject>, isStreaming: Option<bool>): (v: View)
    ensures v == Spinner <==> isStreaming == Some(true)
    ensures v == Nothing <==> isStreaming != Some(true) && metrics.None?
    ensures v == RenderFault <==>
              isStreaming != Some(true) && metrics.Some? &&
              (Property(metrics.value, TtftKey).None? || Property(metrics.value, TotalTimeKey).None?)
    ensures v.Shown? ==> v.badge.ttft.Some? && v.badge.totalTime.Some?
  {
    if isStreaming == Some(true) then Spinner
    else if metrics.None? then Nothing
    else if Property(metrics.value, TtftKey).None? then RenderFault
    else if Property(metrics.value, TotalTimeKey).None? then RenderFault
    else Shown(BadgeOf(metrics.value))
  }

  /**
   * The component with the time segments guarded: a segment whose value is undefined is
   * not drawn, so rendering never faults.
   */
  function RenderBadge(metrics: Option<MetricsObject>, isStreaming: Option<bool>): (v: View)
    ensures v != RenderFault
    ensures v == Spinner <==> isStreaming == Some(true)
    ensures v == Nothing <==> isStreaming != Some(true) && metrics.None?
    ensures v.Shown? ==> v.badge.ttft == Property(metrics.value, TtftKey) &&
                         v.badge.totalTime == Property(metrics.value, TotalTimeKey)
  {
    if isStreaming == Some(true) then Spinner
    else if metrics.None? then Nothing
    else Shown(BadgeOf(metrics.value))
  }

  /**
   * The segments of a shown badge: the band of the time to first token, the rate only when
   * it is truthy, the token group when either count is defined, each count when it is.
   */
  lemma ShownSegments(metrics: Option<MetricsObject>, isStreaming: Option<bool>)
    ensures var v := RenderBadgeAsWritten(metrics, isStreaming);
            v.Shown? ==>
              var o := metrics.value;
              v.badge.band == BandOf(Property(o, TtftKey)) &&
              v.badge.ttft == Property(o, TtftKey) && v.badge.totalTime == Property(o, TotalTimeKey) &&
              (v.badge.rate.Rate? <==> Property(o, TokensPerSecondKey).Some? && Property(o, TokensPerSecondKey).value != 0.0) &&
              (TokenGroupShown(v.badge) <==> Property(o, InputTokensKey).Some? || Property(o, OutputTokensKey).Some?) &&
              v.badge.inputTokens == Property(o, InputTokensKey) &&
              v.badge.outputTokens == Property(o, OutputTokensKey)
  {
  }

  /** Wherever the component as written renders, the guarded one renders the same badge. */
  lemma GuardedAgrees(metrics: Option<MetricsObject>, isStreaming: Option<bool>)
    ensures RenderBadgeAsWritten(metrics, isStreaming) != RenderFault ==>
            RenderBadge(metrics, isStreaming) == RenderBadgeAsWritten(metrics, isStreaming)
  {
  }

  /** A complete record, as `onComplete` stores it, shows both time segments and both counts. */
  lemma CompleteRecordShown(final: LatencyMetrics, isStreaming: Option<bool>)
    requires isStreaming != Some(true)
    requires final.inputTokens.Some? && final.outputTokens.Some?
    ensures var v := RenderBadgeAsWritten(Some(ObjectOf(final)), isStreaming);
            v == RenderBadge(Some(ObjectOf(final)), isStreaming) &&
            v.Shown? && v.badge.ttft == Some(final.ttft) && v.badge.totalTime == Some(final.totalTime) &&
            v.badge.band == BandOf(Some(final.ttft)) && v.badge.rate == RateOf(final.tokensPerSecond) &&
            TokenGroupShown(v.badge) &&
            v.badge.inputTokens == Some(final.inputTokens.value as real) &&
            v.badge.outputTokens == Some(final.outputTokens.value as real)
  {
  }

  /**
   * The badge of a placeholder (no metrics) once a whole stream has been folded into it:
   * as written it faults exactly when the stream failed after text arrived, because the
   * message then holds `{ ttft }` alone. The guarded badge shows the full record on success
   * (with a rate that is never the stray 0), only the time to first token after a failure
   * that followed text, and nothing after a failure before any text.
   */
  lemma FoldedBadge(m: Message, start: real, finish: real, stream: seq<StreamItem>)
    requires start < finish
    requires m.metrics.None?
    ensures var r := ApplyAll(m, ExpectedTrace(start, finish, stream));
            var k := FailIndex(stream);
            var texts := Texts(stream, k);
            (RenderBadgeAsWritten(r.metrics, r.isStreaming) == RenderFault <==> k < |stream| && texts != []) &&
            (k == |stream| ==>
              var v := RenderBadge(r.metrics, r.isStreaming);
              v.Shown? && v.badge.totalTime == Some(finish - start) && v.badge.rate != StrayZero) &&
            (k < |stream| && texts != [] ==>
              RenderBadge(r.metrics, r.isStreaming) ==
              Shown(Badge(BandOf(Some(Ttft(start, stream, k))), Some(Ttft(start, stream, k)), None, NoRate, None, None))) &&
            (k < |stream| && texts == [] ==> RenderBadge(r.metrics, r.isStreaming) == Nothing)
  {
    var k := FailIndex(stream);
    if k == |stream| {
      FoldedSuccessBadge(m, start, finish, stream);
    } else {
      FoldStream(m, start, finish, stream);
      if Texts(stream, k) != [] {
        var r := ApplyAll(m, ExpectedTrace(start, finish, stream));
        TtftOnlyBadge(Ttft(start, stream, k), r.metrics, r.isStreaming);
      }
    }
  }

  lemma FoldedSuccessBadge(m: Message, start: real, finish: real, stream: seq<StreamItem>)
    requires start < finish
    requires FailIndex(stream) == |stream|
    ensures var r := ApplyAll(m, ExpectedTrace(start, finish, stream));
            var v := RenderBadge(r.metrics, r.isStreaming);
            RenderBadgeAsWritten(r.metrics, r.isStreaming) != RenderFault &&
            v.Shown? && v.badge.totalTime == Some(finish - start) && v.badge.rate != StrayZero
  {
    FoldSuccess(m, start, finish, stream);
    var r := ApplyAll(m, ExpectedTrace(start, finish, stream));
    SuccessView(start, finish, stream, r.metrics, r.isStreaming);
  }

  lemma SuccessView(start: real, finish: real, stream: seq<StreamItem>,
                    metrics: Option<MetricsObject>, isStreaming: Option<bool>)
    requires start < finish
    requires metrics == Some(ObjectOf(FinalMetrics(start, finish, stream, |stream|))) && isStreaming == Some(false)
    ensures var v := RenderBadge(metrics, isStreaming);
            RenderBadgeAsWritten(metrics, isStreaming) != RenderFault &&
            v.Shown? && v.badge.totalTime == Some(finish - start) && v.badge.rate != StrayZero
  {
    FinalRatePositive(start, finish, stream, |stream|);
    RecordBadge(FinalMetrics(start, finish, stream, |stream|), metrics, isStreaming);
  }

  lemma FoldSuccess(m: Message, start: real, finish: real, stream: seq<StreamItem>)
    requires start < finish
    requires FailIndex(stream) == |stream|
    ensures var r := ApplyAll(m, ExpectedTrace(start, finish, stream));
            r.metrics == Some(ObjectOf(FinalMetrics(start, finish, stream, |stream|))) &&
            r.isStreaming == Some(false)
  {
    FoldStream(m, start, finish, stream);
  }

  /** The rate, when defined, is positive: the only way to the stray 0 is closed. */
  lemma RatePositive(outputTokens: nat, totalTime: real)
    requires totalTime > 0.0
    ensures Throughput(outputTokens, totalTime).Some? ==> Throughput(outputTokens, totalTime).value > 0.0
  {
    if outputTokens > 0 {
      var perSecond := totalTime / 1000.0;
      assert perSecond > 0.0;
      assert outputTokens as real > 0.0;
    }
  }

  lemma FinalRatePositive(start: real, finish: real, items: seq<StreamItem>, n: nat)
    requires start < finish && n <= |items|
    ensures var final := FinalMetrics(start, finish, items, n);
            final.totalTime == finish - start &&
            (final.tokensPerSecond.Some? ==> final.tokensPerSecond.value > 0.0)
  {
    RatePositive(TokenCount(items, n, CandidateTokens), finish - start);
  }

  lemma RecordBadge(final: LatencyMetrics, metrics: Option<MetricsObject>, isStreaming: Option<bool>)
    requires metrics == Some(ObjectOf(final)) && isStreaming == Some(false)
    requires final.tokensPerSecond.Some? ==> final.tokensPerSecond.value > 0.0
    ensures RenderBadgeAsWritten(metrics, isStreaming) != RenderFault
    ensures var v := RenderBadge(metrics, isStreaming);
            v.Shown? && v.badge.totalTime == Some(final.totalTime) && v.badge.rate != StrayZero
  {
  }

  lemma TtftOnlyBadge(ttft: real, metrics: Option<MetricsObject>, isStreaming: Option<bool>)
    requires metrics == Some(WithTtft(None, ttft)) && isStreaming == Some(false)
    ensures RenderBadgeAsWritten(metrics, isStreaming) == RenderFault
    ensures RenderBadge(metrics, isStreaming) == Shown(Badge(BandOf(Some(ttft)), Some(ttft), None, NoRate, None, None))
  {
    assert metrics.value == map[TtftKey := Some(ttft)];
  }

  /**
   * A stream whose first fragment carries text and whose connection then drops: as written,
   * the badge of the finished reply throws instead of rendering.
   */
  lemma FaultAfterText()
    ensures var stream := [Arrive(120.0, Fragment(Some("Hola"), None)), Throw(ErrorInstance("network error"))];
            var placeholder := Message("2", Model, "", None, 0, None, Some(true), None);
            var r := ApplyAll(placeholder, ExpectedTrace(0.0, 300.0, stream));
            RenderBadgeAsWritten(r.metrics, r.isStreaming) == RenderFault
  {
    var stream := [Arrive(120.0, Fragment(Some("Hola"), None)), Throw(ErrorInstance("network error"))];
    var placeholder := Message("2", Model, "", None, 0, None, Some(true), None);
    assert FailIndex(stream[1..]) == 0;
    assert FailIndex(stream) == 1;
    assert Texts(stream, 1) == ["Hola"] by {
      assert CarriesText(stream[0]);
    }
    FoldedBadge(placeholder, 0.0, 300.0, stream);
  }
}
