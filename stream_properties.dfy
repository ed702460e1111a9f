/**
 * What one `streamResponse` call promises its caller, stated about the callback trace
 * `ExpectedTrace` that the method is proved to produce.
 */
module StreamProperties {
  import opened Wrappers
  import opened Types
  import opened GeminiService

  /** The texts of the `onChunk` calls of a trace, in order. */
  function ChunkTexts(cs: seq<Callback>): (texts: seq<string>)
    ensures |texts| <= |cs|
  {
    if cs == [] then []
    else ChunkTexts(cs[..|cs| - 1]) + if cs[|cs| - 1].Chunk? then [cs[|cs| - 1].text] else []
  }

  lemma ChunkTextsAppend(a: seq<Callback>, b: seq<Callback>)
    ensures ChunkTexts(a + b) == ChunkTexts(a) + ChunkTexts(b)
  {
    if b != [] {
      var c := b[..|b| - 1];
      assert (a + b)[..|a + b| - 1] == a + c;
      ChunkTextsAppend(a, c);
    } else {
      assert a + b == a;
    }
  }

  /** The `i`-th callback of `Chunks(texts)` is the `onChunk` of the `i`-th text. */
  lemma {:induction false} ChunksAt(texts: seq<string>)
    ensures forall i :: 0 <= i < |texts| ==> Chunks(texts)[i] == Chunk(texts[i])
  {
    if texts != [] {
      var init := texts[..|texts| - 1];
      ChunksAt(init);
      assert Chunks(texts) == Chunks(init) + [Chunk(texts[|texts| - 1])];
    }
  }

  lemma {:induction false} ChunkTextsOfChunks(texts: seq<string>)
    ensures ChunkTexts(Chunks(texts)) == texts
  {
    if texts != [] {
      var init := texts[..|texts| - 1];
      var last := texts[|texts| - 1];
      ChunkTextsOfChunks(init);
      assert Chunks(texts) == Chunks(init) + [Chunk(last)];
      ChunkTextsAppend(Chunks(init), [Chunk(last)]);
      assert ChunkTexts([Chunk(last)]) == [last] by {
        assert [Chunk(last)][..0] == [];
      }
      assert init + [last] == texts;
    }
  }

  /** The parts of the trace: the opening, one `onChunk` per text, then the terminal. */
  lemma TraceParts(start: real, finish: real, stream: seq<StreamItem>)
    requires start < finish
    ensures var k := FailIndex(stream);
            var o := Opening(start, stream, k);
            ExpectedTrace(start, finish, stream) == o + Chunks(Texts(stream, k)) + [Outcome(start, finish, stream)] &&
            (o == [] <==> Texts(stream, k) == []) &&
            (o != [] ==> o == [FirstToken(Ttft(start, stream, k))])
  {
  }

  /** Positions in a trace laid out as an opening, chunks and a last callback. */
  lemma LayoutAt(t: seq<Callback>, o: seq<Callback>, texts: seq<string>, last: Callback)
    requires t == o + Chunks(texts) + [last]
    ensures |t| == |o| + |texts| + 1 && t[|t| - 1] == last
    ensures forall i :: 0 <= i < |o| ==> t[i] == o[i]
    ensures forall i :: |o| <= i < |t| - 1 ==> t[i] == Chunk(texts[i - |o|])
  {
    ChunksAt(texts);
    forall i | |o| <= i < |t| - 1
      ensures t[i] == Chunk(texts[i - |o|])
    {
      assert t[i] == Chunks(texts)[i - |o|];
    }
  }

  /** In such a layout, with an opening of `onFirstToken` calls only, the last callback alone can be terminal. */
  lemma LayoutTerminal(t: seq<Callback>, o: seq<Callback>, texts: seq<string>, last: Callback)
    requires t == o + Chunks(texts) + [last]
    requires forall i :: 0 <= i < |o| ==> o[i].FirstToken?
    ensures forall i :: 0 <= i < |t| - 1 ==> !t[i].IsTerminal()
  {
    LayoutAt(t, o, texts, last);
  }

  /** Exactly one terminal callback is made, and it is the last one. */
  lemma OneTerminalLast(start: real, finish: real, stream: seq<StreamItem>)
    requires start < finish
    ensures var t := ExpectedTrace(start, finish, stream);
            |t| > 0 && t[|t| - 1].IsTerminal() &&
            forall i :: 0 <= i < |t| - 1 ==> !t[i].IsTerminal()
  {
    TraceParts(start, finish, stream);
    var k := FailIndex(stream);
    var t := ExpectedTrace(start, finish, stream);
    var o := Opening(start, stream, k);
    LayoutAt(t, o, Texts(stream, k), Outcome(start, finish, stream));
    LayoutTerminal(t, o, Texts(stream, k), Outcome(start, finish, stream));
  }

  /** The first failure of a stream, if any, is at `FailIndex`. */
  lemma FirstThrowIsFailIndex(stream: seq<StreamItem>, k: nat)
    requires k < |stream| && stream[k].Throw?
    requires forall j :: 0 <= j < k ==> stream[j].Arrive?
    ensures FailIndex(stream) == k
  {
  }

  /**
   * The terminal callback is `onComplete` exactly when no failure occurs; otherwise it is
   * `onError` with the message of the first value thrown.
   */
  lemma TerminalReportsOutcome(start: real, finish: real, stream: seq<StreamItem>)
    requires start < finish
    ensures var t := ExpectedTrace(start, finish, stream);
            |t| > 0 &&
            (t[|t| - 1].Complete? <==> forall j :: 0 <= j < |stream| ==> stream[j].Arrive?) &&
            forall k :: 0 <= k < |stream| && stream[k].Throw? && (forall j :: 0 <= j < k ==> stream[j].Arrive?) ==>
              t[|t| - 1] == Error(ErrorMessage(stream[k].thrown))
  {
    TraceParts(start, finish, stream);
    var t := ExpectedTrace(start, finish, stream);
    var f := FailIndex(stream);
    assert t[|t| - 1] == Outcome(start, finish, stream);
    forall k | 0 <= k < |stream| && stream[k].Throw? && (forall j :: 0 <= j < k ==> stream[j].Arrive?)
      ensures t[|t| - 1] == Error(ErrorMessage(stream[k].thrown))
    {
      FirstThrowIsFailIndex(stream, k);
    }
    if f < |stream| {
      assert stream[f].Throw?;
    }
  }

  /** Chunk texts of an opening without chunks, chunks, and a terminal. */
  lemma ChunkTextsOfLayout(o: seq<Callback>, texts: seq<string>, last: Callback)
    requires forall i :: 0 <= i < |o| ==> !o[i].Chunk?
    requires !last.Chunk?
    ensures ChunkTexts(o + Chunks(texts) + [last]) == texts
  {
    ChunkTextsAppend(o + Chunks(texts), [last]);
    ChunkTextsAppend(o, Chunks(texts));
    ChunkTextsOfChunks(texts);
    assert ChunkTexts([last]) == [] by {
      assert [last][..0] == [];
    }
    NoChunkTexts(o);
  }

  lemma {:induction false} NoChunkTexts(cs: seq<Callback>)
    requires forall i :: 0 <= i < |cs| ==> !cs[i].Chunk?
    ensures ChunkTexts(cs) == []
  {
    if cs != [] {
      NoChunkTexts(cs[..|cs| - 1]);
    }
  }

  /** The `onChunk` texts are the truthy texts delivered before any failure, in order. */
  lemma ChunksAreDeliveredTexts(start: real, finish: real, stream: seq<StreamItem>)
    requires start < finish
    ensures ChunkTexts(ExpectedTrace(start, finish, stream)) == Texts(stream, FailIndex(stream))
  {
    TraceParts(start, finish, stream);
    var k := FailIndex(stream);
    ChunkTextsOfLayout(Opening(start, stream, k), Texts(stream, k), Outcome(start, finish, stream));
  }

  /** The text-carrying fragment that comes first among the first `n` items sets `FirstTextAt`. */
  lemma {:induction false} FirstTextAtIsFirst(items: seq<StreamItem>, n: nat, j: nat)
    requires j < n <= |items|
    requires CarriesText(items[j])
    requires forall i :: 0 <= i < j ==> !CarriesText(items[i])
    ensures FirstTextAt(items, n) == Some(items[j].at)
  {
    if n == j + 1 {
      NoTextNoFirst(items, j);
    } else {
      var m: nat := n - 1;
      FirstTextAtIsFirst(items, m, j);
    }
  }

  /** No text-carrying fragment among the first `n` items: no first token. */
  lemma {:induction false} NoTextNoFirst(items: seq<StreamItem>, n: nat)
    requires n <= |items|
    requires forall i :: 0 <= i < n ==> !CarriesText(items[i])
    ensures FirstTextAt(items, n) == None
  {
    if n > 0 {
      var m: nat := n - 1;
      NoTextNoFirst(items, m);
    }
  }

  /** In such a layout, an opening present exactly with texts leads with the only `onFirstToken`, then the first chunk. */
  lemma LayoutFirstToken(t: seq<Callback>, o: seq<Callback>, texts: seq<string>, last: Callback)
    requires t == o + Chunks(texts) + [last]
    requires o == [] || (|o| == 1 && o[0].FirstToken?)
    requires o == [] <==> texts == []
    requires !last.FirstToken?
    ensures forall i :: 0 <= i < |t| && t[i].FirstToken? ==> i == 0
    ensures t[0].FirstToken? <==> texts != []
    ensures texts != [] ==> |t| >= 3 && t[1] == Chunk(texts[0])
  {
    LayoutAt(t, o, texts, last);
    if texts == [] {
      assert t[0] == last;
    }
  }

  /**
   * `onFirstToken` is called at most once, first, and exactly when some text arrives, and
   * the first `onChunk` follows it.
   */
  lemma FirstTokenLeads(start: real, finish: real, stream: seq<StreamItem>)
    requires start < finish
    ensures var t := ExpectedTrace(start, finish, stream);
            var texts := Texts(stream, FailIndex(stream));
            |t| > 0 &&
            (forall i :: 0 <= i < |t| && t[i].FirstToken? ==> i == 0) &&
            (t[0].FirstToken? <==> texts != []) &&
            (texts != [] ==> |t| >= 3 && t[1] == Chunk(texts[0]))
  {
    TraceParts(start, finish, stream);
    var k := FailIndex(stream);
    LayoutFirstToken(ExpectedTrace(start, finish, stream), Opening(start, stream, k), Texts(stream, k),
                     Outcome(start, finish, stream));
  }

  /** The value `onFirstToken` receives: the clock reading of the first text-carrying fragment, minus `start`. */
  lemma FirstTokenValue(start: real, finish: real, stream: seq<StreamItem>, j: nat)
    requires start < finish
    requires j < FailIndex(stream) && CarriesText(stream[j])
    requires forall i :: 0 <= i < j ==> !CarriesText(stream[i])
    ensures var t := ExpectedTrace(start, finish, stream);
            |t| > 0 && t[0] == FirstToken(stream[j].at - start)
  {
    TraceParts(start, finish, stream);
    var k := FailIndex(stream);
    FirstTextAtIsFirst(stream, k, j);
    assert Opening(start, stream, k) == [FirstToken(stream[j].at - start)];
  }

  /** A counter holds the value of the last fragment that reported it. */
  lemma {:induction false} LastReportWins(items: seq<StreamItem>, n: nat, kind: TokenKind, j: nat)
    requires j < n <= |items|
    requires Reported(items[j], kind).Some?
    requires forall i :: j < i < n ==> Reported(items[i], kind).None?
    ensures TokenCount(items, n, kind) == Reported(items[j], kind).value
  {
    if n > j + 1 {
      var m: nat := n - 1;
      LastReportWins(items, m, kind, j);
    }
  }

  /** A counter no fragment reported stays 0. */
  lemma {:induction false} NoReportMeansZero(items: seq<StreamItem>, n: nat, kind: TokenKind)
    requires n <= |items|
    requires forall i :: 0 <= i < n ==> Reported(items[i], kind).None?
    ensures TokenCount(items, n, kind) == 0
  {
    if n > 0 {
      var m: nat := n - 1;
      NoReportMeansZero(items, m, kind);
    }
  }

  /**
   * The record passed to `onComplete`: the elapsed time, both counters present, a rate
   * exactly when output tokens were counted (tokens per elapsed second), and a time to first
   * token that is 0 without text and otherwise equals the value `onFirstToken` received.
   */
  lemma CompletionMetrics(start: real, finish: real, stream: seq<StreamItem>)
    requires start < finish
    requires forall j :: 0 <= j < |stream| ==> stream[j].Arrive?
    ensures var t := ExpectedTrace(start, finish, stream);
            var out := TokenCount(stream, |stream|, CandidateTokens);
            |t| > 0 && t[|t| - 1].Complete? &&
            var m := t[|t| - 1].metrics;
            m.totalTime == finish - start &&
            m.inputTokens == Some(TokenCount(stream, |stream|, PromptTokens)) &&
            m.outputTokens == Some(out) &&
            (m.tokensPerSecond.Some? <==> out > 0) &&
            (m.tokensPerSecond.Some? ==> m.tokensPerSecond.value * (finish - start) == out as real * 1000.0) &&
            (Texts(stream, |stream|) == [] ==> m.ttft == 0.0) &&
            (t[0].FirstToken? ==> m.ttft == t[0].ttft)
  {
    TraceParts(start, finish, stream);
    FirstTokenLeads(start, finish, stream);
    assert FailIndex(stream) == |stream|;
    var out := TokenCount(stream, |stream|, CandidateTokens);
    ThroughputRate(out, finish - start);
  }

  /** The rate times the elapsed time gives back the output tokens, in milliseconds. */
  lemma ThroughputRate(outputTokens: nat, totalTime: real)
    requires totalTime > 0.0
    ensures Throughput(outputTokens, totalTime).Some? ==>
            Throughput(outputTokens, totalTime).value * totalTime == outputTokens as real * 1000.0
  {
  }

  /**
   * With clock readings between `start` and `finish`, every time to first token lies
   * between 0 and the total time.
   */
  lemma TtftWithinTotal(start: real, finish: real, stream: seq<StreamItem>)
    requires start < finish
    requires forall j :: 0 <= j < |stream| && stream[j].Arrive? ==> start <= stream[j].at <= finish
    ensures var t := ExpectedTrace(start, finish, stream);
            |t| > 0 &&
            (forall i :: 0 <= i < |t| && t[i].FirstToken? ==> 0.0 <= t[i].ttft <= finish - start) &&
            (t[|t| - 1].Complete? ==> 0.0 <= t[|t| - 1].metrics.ttft <= t[|t| - 1].metrics.totalTime)
  {
    TraceParts(start, finish, stream);
    FirstTokenLeads(start, finish, stream);
    var k := FailIndex(stream);
    var at := FirstTextAt(stream, k);
    if at.Some? {
      var j := FirstTextIndex(stream, k);
      assert at == Some(stream[j].at);
    }
  }

  /** The position of the first text-carrying fragment, when some of the first `n` carry text. */
  lemma {:induction false} FirstTextIndex(items: seq<StreamItem>, n: nat) returns (j: nat)
    requires n <= |items|
    requires FirstTextAt(items, n).Some?
    ensures j < n && items[j].Arrive? && FirstTextAt(items, n) == Some(items[j].at)
  {
    var m: nat := n - 1;
    if FirstTextAt(items, m).Some? {
      j := FirstTextIndex(items, m);
    } else {
      j := m;
    }
  }
}
