/**
 * The frontend's publisher: a lazily created producer shared by every call,
 * a single-article publish and a batch publish, all of which swallow every
 * failure.
 */
module KafkaService {
  import opened Values
  import opened Kafka

  /** The topic name when `TOPIC_NEWS_CLASSIFIED` is not set. */
  const DefaultTopic: string := "news.classified"

  /** The module's state: the producer, `None` until the first successful creation. */
  class Service {
    var producer: Producer?
    const topic: string

    constructor (topic: string)
      ensures this.topic == topic && producer == null
    {
      this.topic := topic;
      producer := null;
    }

    /**
     * `_get_producer`: creates the producer on first use (`connects` says
     * whether the client constructor succeeds) and returns the same
     * instance thereafter.
     */
    method GetProducer(connects: bool) returns (p: Producer?)
      modifies this
      ensures old(producer) != null ==> p == old(producer) && producer == p
      ensures old(producer) == null && connects ==>
        p != null && fresh(p) && producer == p && p.sent == [] && p.flushes == []
      ensures old(producer) == null && !connects ==> p == null && producer == null
    {
      if producer == null && connects {
        producer := new Producer();
      }
      p := producer;
    }

    /** `publish_article`: the article dict is sent unchanged; failures are swallowed. */
    method PublishArticle(article: Dict, connects: bool, sendFails: bool)
      modifies this, producer
      ensures old(producer) != null ==> producer == old(producer)
      ensures old(producer) != null ==>
        producer.sent == old(producer.sent) + (if sendFails then [] else [Sent(topic, article)])
      ensures old(producer) == null && connects ==>
        producer != null && fresh(producer) && producer.sent == (if sendFails then [] else [Sent(topic, article)])
      ensures old(producer) == null && !connects ==> producer == null
      ensures producer != null ==> producer.flushes == if old(producer) != null then old(producer.flushes) else []
    {
      var p := GetProducer(connects);
      if p == null {
        return;
      }
      var _ := p.Send(topic, article, sendFails);
    }

    /**
     * `publish_batch`: nothing at all for an empty batch; otherwise one
     * message per article in order, then one flush, with the first failure
     * ending the batch silently.
     */
    method PublishBatch(articles: seq<Dict>, connects: bool, sendFails: nat -> bool, flushFails: bool)
      modifies this, producer
      ensures articles == [] ==> producer == old(producer)
      ensures articles == [] && producer != null ==>
        producer.sent == old(producer.sent) && producer.flushes == old(producer.flushes)
      ensures articles != [] && old(producer) == null && !connects ==> producer == null
      ensures articles != [] && old(producer) != null ==> producer == old(producer)
      ensures articles != [] && (old(producer) != null || connects) ==>
        var k := Delivered(|articles|, sendFails);
        && producer != null
        && producer.sent == (if old(producer) != null then old(producer.sent) else []) + Messages(topic, articles[..k])
        && producer.flushes == (if old(producer) != null then old(producer.flushes) else [])
                               + (if k == |articles| then [FlushTimeout] else [])
    {
      if articles == [] {
        return;
      }
      var p := GetProducer(connects);
      if p == null {
        return;
      }
      SendBatch(p, topic, articles, sendFails, flushFails);
    }
  }
}
