/**
 * The four message-list updates the conversation registers as stream callbacks
 * (components/ChatInterface.tsx, the `prev.map(...)` bodies): each rewrites the messages
 * whose id equals the placeholder's and leaves every other message as it was.
 */
module ChatUpdates {
  import opened Wrappers
  import opened Types
  import opened GeminiService

  const CONNECTION_FAILURE: string := "Fallo de conexi\U{00F3}n"
  const ERROR_OPEN: string := "\n[Error: "
  const ERROR_CLOSE: string := "]"

  /** The suffix `onError` appends: the message, or the connection-failure text when it is empty. */
  function ErrorMarker(message: string): (marker: string)
    ensures |marker| > |ERROR_OPEN| + |ERROR_CLOSE|
    ensures marker[..|ERROR_OPEN|] == ERROR_OPEN && marker[|marker| - 1..] == ERROR_CLOSE
    ensures message != "" ==> marker[|ERROR_OPEN|..|marker| - 1] == message
    ensures message == "" ==> marker[|ERROR_OPEN|..|marker| - 1] == CONNECTION_FAILURE
  {
    ERROR_OPEN + (if message != "" then message else CONNECTION_FAILURE) + ERROR_CLOSE
  }

  /** `{ ...msg.metrics, ttft }`: the first-token update. */
  function WithTtft(metrics: Option<MetricsObject>, ttft: real): MetricsObject {
    Spread(metrics) + map[TtftKey := Some(ttft)]
  }

  /** `{ ...msg.metrics, ...finalMetrics }`: the completion update. */
  function WithFinal(metrics: Option<MetricsObject>, final: LatencyMetrics): MetricsObject {
    Spread(metrics) + ObjectOf(final)
  }

  /** The first-token update sets `ttft` and keeps every other property, present or not. */
  lemma FirstTokenKeepsOthers(metrics: Option<MetricsObject>, ttft: real)
    ensures Property(WithTtft(metrics, ttft), TtftKey) == Some(ttft)
    ensures forall k :: k != TtftKey ==> Property(WithTtft(metrics, ttft), k) == Property(Spread(metrics), k)
    ensures WithTtft(metrics, ttft).Keys == Spread(metrics).Keys + {TtftKey}
  {
  }

  /**
   * The completion update: the incoming record's properties win, and since that record
   * writes all five keys, the result is exactly that record, whatever was there before.
   */
  lemma CompletionOverwrites(metrics: Option<MetricsObject>, final: LatencyMetrics)
    ensures WithFinal(metrics, final) == ObjectOf(final)
  {
    var merged := WithFinal(metrics, final);
    forall k | k in merged
      ensures k in ObjectOf(final)
    {
      EveryKey(k);
    }
  }

  /** What one callback does to the placeholder message. */
  function Apply(m: Message, cb: Callback): (r: Message)
    ensures r.id == m.id && r.role == m.role && r.image == m.image && r.timestamp == m.timestamp
  {
    match cb
    case FirstToken(ttft) => m.(metrics := Some(WithTtft(m.metrics, ttft)))
    case Chunk(text) => m.(content := m.content + text)
    case Complete(final) => m.(isStreaming := Some(false), metrics := Some(WithFinal(m.metrics, final)))
    case Error(message) =>
      m.(content := m.content + ErrorMarker(message), isStreaming := Some(false), error := Some(true))
  }

  /** `prev.map(msg => msg.id === id ? <update> : msg)`. */
  function Update(msgs: seq<Message>, id: string, cb: Callback): (r: seq<Message>)
    ensures |r| == |msgs|
    ensures forall i :: 0 <= i < |msgs| ==> r[i].id == msgs[i].id
  {
    seq(|msgs|, i requires 0 <= i < |msgs| => if msgs[i].id == id then Apply(msgs[i], cb) else msgs[i])
  }

  /** The callbacks of a trace applied to one message, in order. */
  function ApplyAll(m: Message, trace: seq<Callback>): Message {
    if trace == [] then m else Apply(ApplyAll(m, trace[..|trace| - 1]), trace[|trace| - 1])
  }

  /** The callbacks of a trace applied to the message list, in order. */
  function UpdateAll(msgs: seq<Message>, id: string, trace: seq<Callback>): seq<Message> {
    if trace == [] then msgs else Update(UpdateAll(msgs, id, trace[..|trace| - 1]), id, trace[|trace| - 1])
  }

  /** The texts joined in order. */
  function Concat(texts: seq<string>): string {
    if texts == [] then "" else Concat(texts[..|texts| - 1]) + texts[|texts| - 1]
  }

  /** Applying a trace never changes a message's id, role, image or timestamp. */
  lemma {:induction false} ApplyAllKeeps(m: Message, trace: seq<Callback>)
    ensures var r := ApplyAll(m, trace);
            r.id == m.id && r.role == m.role && r.image == m.image && r.timestamp == m.timestamp
  {
    if trace != [] {
      ApplyAllKeeps(m, trace[..|trace| - 1]);
    }
  }

  /**
   * Updating the list by id: the list keeps its length and order, the messages with that
   * id receive every callback in turn, and every other message is unchanged.
   */
  lemma {:induction false} UpdateAllPointwise(msgs: seq<Message>, id: string, trace: seq<Callback>)
    ensures |UpdateAll(msgs, id, trace)| == |msgs|
    ensures forall i :: 0 <= i < |msgs| ==>
      UpdateAll(msgs, id, trace)[i] == if msgs[i].id == id then ApplyAll(msgs[i], trace) else msgs[i]
  {
    if trace != [] {
      var init := trace[..|trace| - 1];
      UpdateAllPointwise(msgs, id, init);
      forall i | 0 <= i < |msgs|
        ensures UpdateAll(msgs, id, trace)[i] == if msgs[i].id == id then ApplyAll(msgs[i], trace) else msgs[i]
      {
        ApplyAllKeeps(msgs[i], init);
      }
    }
  }

  /** Applying two traces one after the other is applying their concatenation. */
  lemma {:induction false} ApplyAllAppend(m: Message, a: seq<Callback>, b: seq<Callback>)
    ensures ApplyAll(m, a + b) == ApplyAll(ApplyAll(m, a), b)
  {
    if b == [] {
      assert a + b == a;
    } else {
      var init := b[..|b| - 1];
      assert (a + b)[..|a + b| - 1] == a + init;
      ApplyAllAppend(m, a, init);
    }
  }

  /** After a run of `onChunk` calls the content has their texts appended, in order; nothing else changes. */
  lemma {:induction false} ApplyChunks(m: Message, texts: seq<string>)
    ensures ApplyAll(m, Chunks(texts)) == m.(content := m.content + Concat(texts))
  {
    if texts != [] {
      var init := texts[..|texts| - 1];
      var last := texts[|texts| - 1];
      ApplyChunks(m, init);
      ChunksStep(texts);
      ApplyAllAppend(m, Chunks(init), [Chunk(last)]);
      ApplyOne(ApplyAll(m, Chunks(init)), Chunk(last));
      assert Concat(texts) == Concat(init) + last;
      assert m.content + Concat(init) + last == m.content + Concat(texts);
    }
  }

  lemma ChunksStep(texts: seq<string>)
    requires texts != []
    ensures Chunks(texts) == Chunks(texts[..|texts| - 1]) + [Chunk(texts[|texts| - 1])]
  {
  }

  lemma ApplyOne(m: Message, cb: Callback)
    ensures ApplyAll(m, [cb]) == Apply(m, cb)
  {
    assert [cb][..0] == [];
  }

  /**
   * The end-to-end effect of one `streamResponse` call on a message: its content gains the
   * delivered texts in order, plus the error marker on failure; it stops streaming; on
   * success its metrics are exactly the final record, on failure it is flagged as an error
   * and keeps the first-token metrics if text arrived. Id, role, image and timestamp stay.
   */
  lemma FoldStream(m: Message, start: real, finish: real, stream: seq<StreamItem>)
    requires start < finish
    ensures var r := ApplyAll(m, ExpectedTrace(start, finish, stream));
            var k := FailIndex(stream);
            var texts := Texts(stream, k);
            r.id == m.id && r.role == m.role && r.image == m.image && r.timestamp == m.timestamp &&
            r.isStreaming == Some(false) &&
            (k == |stream| ==>
              r.content == m.content + Concat(texts) &&
              r.metrics == Some(ObjectOf(FinalMetrics(start, finish, stream, k))) &&
              r.error == m.error) &&
            (k < |stream| ==>
              r.content == m.content + Concat(texts) + ErrorMarker(ErrorMessage(stream[k].thrown)) &&
              r.metrics == (if texts == [] then m.metrics else Some(WithTtft(m.metrics, Ttft(start, stream, k)))) &&
              r.error == Some(true))
  {
    var k := FailIndex(stream);
    var texts := Texts(stream, k);
    var o := Opening(start, stream, k);
    var last := Outcome(start, finish, stream);
    assert ExpectedTrace(start, finish, stream) == o + Chunks(texts) + [last];
    ApplyAllAppend(m, o + Chunks(texts), [last]);
    ApplyAllAppend(m, o, Chunks(texts));
    var afterOpening := ApplyAll(m, o);
    if o != [] {
      ApplyOne(m, o[0]);
      assert o == [o[0]];
    }
    ApplyChunks(afterOpening, texts);
    ApplyOne(ApplyAll(afterOpening, Chunks(texts)), last);
    if k == |stream| {
      CompletionOverwrites(afterOpening.metrics, FinalMetrics(start, finish, stream, k));
    }
  }
}
