/**
 * The backend batch publisher: one message per raw article to the raw-news
 * topic, then one bounded flush. Any exception ends the batch and is
 * swallowed, so the caller never sees a failure.
 */
module BackendPublisher {
  import opened Values
  import opened Kafka

  /** The topic name when `TOPIC_NEWS_RAW` is not set. */
  const DefaultTopic: string := "news.raw"

  /**
   * `publish_batch(articles)` on the module's producer `p`: `sendFails(k)`
   * says whether the k-th send raises, `flushFails` whether the flush does.
   */
  method PublishBatch(p: Producer, topic: string, articles: seq<Dict>, sendFails: nat -> bool, flushFails: bool)
    modifies p
    ensures articles == [] ==> p.sent == old(p.sent) && p.flushes == old(p.flushes)
    ensures articles != [] ==>
      var k := Delivered(|articles|, sendFails);
      && p.sent == old(p.sent) + Messages(topic, articles[..k])
      && p.flushes == old(p.flushes) + (if k == |articles| then [FlushTimeout] else [])
  {
    if articles == [] {
      return;
    }
    SendBatch(p, topic, articles, sendFails, flushFails);
  }
}
