/**
 * The stream side shared by both publishers: a Kafka producer client, seen
 * through the log of what it accepted, and the fixed 8-field message both
 * `publish_batch` functions build from an article.
 */
module Kafka {
  import opened Values

  /** The provenance tag on every batch message. */
  const SourceTag: string := "frontend-ui"

  /** The flush bound, in seconds, after a batch. */
  const FlushTimeout: int := 2

  /** A message handed to the producer: the topic and the JSON value. */
  datatype Sent = Sent(topic: string, value: Dict)

  /**
   * The producer client. `sent` logs every message a `send` call accepted,
   * and `flushes` the timeout of every `flush` call, in call order.
   * Whether a call raises is decided by the caller's `fails` argument.
   */
  class Producer {
    ghost var sent: seq<Sent>
    ghost var flushes: seq<int>

    constructor ()
      ensures sent == [] && flushes == []
    {
      sent := [];
      flushes := [];
    }

    method Send(topic: string, value: Dict, fails: bool) returns (ok: bool)
      modifies this
      ensures ok == !fails
      ensures sent == if fails then old(sent) else old(sent) + [Sent(topic, value)]
      ensures flushes == old(flushes)
    {
      ok := !fails;
      if !fails {
        sent := sent + [Sent(topic, value)];
      }
    }

    method Flush(timeout: int, fails: bool) returns (ok: bool)
      modifies this
      ensures ok == !fails
      ensures flushes == old(flushes) + [timeout]
      ensures sent == old(sent)
    {
      ok := !fails;
      flushes := flushes + [timeout];
    }
  }

  /** The message `publish_batch` builds from one article. */
  function Project(a: Dict): Dict {
    map[
      "title" := Get(a, "title", Null),
      "summary" := Get(a, "summary", Null),
      "category" := Get(a, "category", Null),
      "publishedAt" := Get(a, "publishedAt", Null),
      "url" := Get(a, "url", Null),
      "imageUrl" := Get(a, "imageUrl", Null),
      "score" := Get(a, "score", Int(0)),
      "_source" := Str(SourceTag)]
  }

  /** The messages of a batch's articles, in order, as the producer logs them. */
  function Messages(topic: string, articles: seq<Dict>): (r: seq<Sent>)
    ensures |r| == |articles|
    ensures forall i :: 0 <= i < |articles| ==> r[i] == Sent(topic, Project(articles[i]))
  {
    if articles == [] then []
    else Messages(topic, articles[..|articles| - 1]) + [Sent(topic, Project(articles[|articles| - 1]))]
  }

  /**
   * How many sends of an `n`-article batch succeed before the first one that
   * raises (`fails(k)`: send number `k` raises), counting from `from`.
   */
  function Delivered(n: nat, fails: nat -> bool, from: nat := 0): (k: nat)
    requires from <= n
    ensures from <= k <= n
    ensures forall j :: from <= j < k ==> !fails(j)
    ensures k < n ==> fails(k)
    decreases n - from
  {
    if from == n || fails(from) then from else Delivered(n, fails, from + 1)
  }

  /** The first send that raises is the `Delivered(...)`-th one. */
  lemma DeliveredIsFirstFailure(n: nat, fails: nat -> bool, i: nat)
    requires i < n && fails(i)
    requires forall j :: 0 <= j < i ==> !fails(j)
    ensures Delivered(n, fails) == i
  {
  }

  /**
   * The body of both `publish_batch` functions once a producer is at hand:
   * one send per article in order, then one flush. `sendFails(k)` says
   * whether the k-th send raises; the first exception ends the batch, and
   * the caller's handler swallows it.
   */
  method SendBatch(p: Producer, topic: string, articles: seq<Dict>, sendFails: nat -> bool, flushFails: bool)
    modifies p
    ensures var k := Delivered(|articles|, sendFails);
      && p.sent == old(p.sent) + Messages(topic, articles[..k])
      && p.flushes == old(p.flushes) + (if k == |articles| then [FlushTimeout] else [])
  {
    var i := 0;
    while i < |articles|
      invariant 0 <= i <= |articles|
      invariant forall j :: 0 <= j < i ==> !sendFails(j)
      invariant p.sent == old(p.sent) + Messages(topic, articles[..i])
      invariant p.flushes == old(p.flushes)
    {
      var ok := p.Send(topic, Project(articles[i]), sendFails(i));
      if !ok {
        DeliveredIsFirstFailure(|articles|, sendFails, i);
        return;
      }
      assert articles[..i + 1][..i] == articles[..i];
      i := i + 1;
    }
    assert articles[..|articles|] == articles;
    var _ := p.Flush(FlushTimeout, flushFails);
  }

  /**
   * Each message has exactly the eight fields; score defaults to 0 and the
   * provenance tag is fixed.
   */
  lemma MessageShape(a: Dict)
    ensures Project(a).Keys ==
      {"title", "summary", "category", "publishedAt", "url", "imageUrl", "score", "_source"}
    ensures "score" !in a ==> Project(a)["score"] == Int(0)
    ensures Project(a)["_source"] == Str("frontend-ui")
  {
  }

  /** `publishedAt` is read from the `publishedAt` key only: `published_at` alone gives None. */
  lemma PublishedAtKeyOnly(a: Dict)
    requires "publishedAt" !in a
    ensures Project(a)["publishedAt"] == Null
  {
  }
}
