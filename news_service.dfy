/**
 * The ingestion service: one pull cycle fetches raw articles from the
 * gateway, publishes the batch, then enriches and stores each article under
 * a fresh id. Also the image choice, which may route an image through the
 * media CDN's fetch endpoint.
 *
 * The configured cloud name is a parameter (`None` when unset), uuid4 is an
 * oracle `uuid: nat -> string` (the id of the i-th article of the cycle),
 * and the pipelines, upstream answers and send outcomes are oracles as in
 * the modules they come from.
 */
module NewsService {
  import opened Values
  import opened Schemas
  import opened NewsRepo
  import PercentEncoding
  import NewsProvider
  import Nlp
  import Kafka
  import BackendPublisher

  // ---------------------------------------------------------------------
  // Image choice

  /** The fixed part of a fetch URL before the percent-encoded source URL. */
  function FetchPrefix(cloud: string): string {
    "https://res.cloudinary.com/" + cloud + "/image/fetch/f_auto,q_auto,w_800/"
  }

  /** `_as_cloudinary_fetch(raw_url)`. */
  function AsCloudinaryFetch(cloud: string, raw: string): (u: string)
    ensures |FetchPrefix(cloud)| <= |u| && u[..|FetchPrefix(cloud)|] == FetchPrefix(cloud)
  {
    FetchPrefix(cloud) + PercentEncoding.Quote(raw)
  }

  /** `CLOUDINARY_CLOUD_NAME` is truthy. */
  predicate HasCloud(cloud: Option<string>) {
    cloud.Some? && cloud.value != ""
  }

  /** The item's image and page fields are strings or None, as the service expects. */
  predicate ImageFieldsTyped(item: Dict) {
    && TextOrNull(Get(item, "urlToImage", Null))
    && TextOrNull(Get(item, "image", Null))
    && TextOrNull(Get(item, "url", Null))
  }

  /** `item.get("urlToImage") or item.get("image")`. */
  function Native(item: Dict): Value {
    Or(Get(item, "urlToImage", Null), Get(item, "image", Null))
  }

  /** `_pick_image_url(item)` with the configured cloud name. */
  function PickImageUrl(item: Dict, cloud: Option<string>): (r: Option<string>)
    requires ImageFieldsTyped(item)
    ensures r.None? <==> !Truthy(Native(item)) && !(HasCloud(cloud) && Truthy(Get(item, "url", Null)))
  {
    var native := Native(item);
    var pageUrl := Get(item, "url", Null);
    if Truthy(native) then
      (if HasCloud(cloud) then Some(AsCloudinaryFetch(cloud.value, native.s)) else Some(native.s))
    else if HasCloud(cloud) && Truthy(pageUrl) then Some(AsCloudinaryFetch(cloud.value, pageUrl.s))
    else None
  }

  /**
   * A fetch URL is the fixed prefix followed by an encoding of the source
   * URL that holds no '/', and decoding that tail gives back the source
   * URL's UTF-8 bytes.
   */
  lemma FetchUrlRecoverable(cloud: string, raw: string)
    ensures var u := AsCloudinaryFetch(cloud, raw);
      var tail := u[|FetchPrefix(cloud)|..];
      && '/' !in tail
      && PercentEncoding.Unquote(tail) == Some(PercentEncoding.Utf8Encode(raw))
  {
    var u := AsCloudinaryFetch(cloud, raw);
    assert u[|FetchPrefix(cloud)|..] == PercentEncoding.Quote(raw);
    PercentEncoding.QuoteBytesAlphabet(PercentEncoding.Utf8Encode(raw));
    PercentEncoding.QuoteRoundTrip(raw);
  }

  /** The four outcomes of the image choice. */
  lemma PickImageCases(item: Dict, cloud: Option<string>)
    requires ImageFieldsTyped(item)
    ensures var native := Native(item);
      Truthy(native) && !HasCloud(cloud) ==> PickImageUrl(item, cloud) == Some(native.s)
    ensures var native := Native(item);
      Truthy(native) && HasCloud(cloud) ==>
        PickImageUrl(item, cloud) == Some(FetchPrefix(cloud.value) + PercentEncoding.Quote(native.s))
    ensures var page := Get(item, "url", Null);
      !Truthy(Native(item)) && HasCloud(cloud) && Truthy(page) ==>
        PickImageUrl(item, cloud) == Some(FetchPrefix(cloud.value) + PercentEncoding.Quote(page.s))
    ensures !Truthy(Native(item)) && !(HasCloud(cloud) && Truthy(Get(item, "url", Null))) ==>
      PickImageUrl(item, cloud) == None
    ensures Truthy(Get(item, "urlToImage", Null)) ==> Native(item) == item["urlToImage"]
  {
  }

  /**
   * The gateway's items carry their image under `imageUrl`, which the
   * service does not read: for them the choice only ever falls back to the
   * page URL.
   */
  lemma GatewayItemsHaveNoNativeImage(a: Dict, cloud: Option<string>)
    requires TextOrNull(Get(a, "url", Null))
    ensures var item := NewsProvider.MapArticle(a);
      && ImageFieldsTyped(item)
      && PickImageUrl(item, cloud) ==
           if HasCloud(cloud) && Truthy(Get(a, "url", Null))
           then Some(AsCloudinaryFetch(cloud.value, a["url"].s)) else None
  {
  }

  // ---------------------------------------------------------------------
  // Enrichment of one raw article

  /** The raw article's fields have the types the record needs. */
  predicate RawTyped(it: Dict) {
    && Get(it, "title", Str("")).Str?
    && TextOrNull(Get(it, "summary", Null))
    && TextOrNull(Get(it, "published_at", Null))
    && ImageFieldsTyped(it)
  }

  /** A value in an f-string: a str as itself, None as "None". */
  function Show(v: Value): (t: string)
    requires TextOrNull(v)
    ensures v.Str? ==> t == v.s
  {
    if v.Str? then v.s else "None"
  }

  /** `f"{it.get('title','')} {it.get('summary','')}"`. */
  function ClassifyText(it: Dict): (t: string)
    requires RawTyped(it)
    ensures t == Get(it, "title", Str("")).s + " " + Show(Get(it, "summary", Str("")))
  {
    Show(Get(it, "title", Str(""))) + " " + Show(Get(it, "summary", Str("")))
  }

  /** The record `pull_and_process` builds and saves for raw article `it` under `id`. */
  function Enriched(it: Dict, id: string, zeroShot: (string, seq<string>) -> Nlp.ZeroShotResult,
                    ner: string -> seq<Nlp.NerEntity>, cloud: Option<string>): News
    requires RawTyped(it)
  {
    var text := ClassifyText(it);
    News(id, Get(it, "title", Str("")).s,
         AsOptText(Get(it, "summary", Null)),
         AsOptText(Get(it, "url", Null)),
         AsOptText(Get(it, "published_at", Null)),
         Some(Nlp.ClassifyTopic(zeroShot, text)),
         Nlp.Surfaces(ner(PyPrefix(text, 800))),
         PickImageUrl(it, cloud))
  }

  /** The records of one cycle: article `i` under id `uuid(i)`. */
  function EnrichedAll(raw: seq<Dict>, uuid: nat -> string, zeroShot: (string, seq<string>) -> Nlp.ZeroShotResult,
                       ner: string -> seq<Nlp.NerEntity>, cloud: Option<string>): (r: seq<News>)
    requires forall a :: a in raw ==> RawTyped(a)
    ensures |r| == |raw|
    ensures forall i :: 0 <= i < |raw| ==> r[i] == Enriched(raw[i], uuid(i), zeroShot, ner, cloud)
  {
    seq(|raw|, i requires 0 <= i < |raw| => Enriched(raw[i], uuid(i), zeroShot, ner, cloud))
  }

  /** The ids of a run of records. */
  function Ids(recs: seq<News>): (r: seq<string>)
    ensures |r| == |recs|
    ensures forall i :: 0 <= i < |recs| ==> r[i] == recs[i].id
  {
    seq(|recs|, i requires 0 <= i < |recs| => recs[i].id)
  }

  /** The store after saving `recs` in order. */
  function SavedAll(s: Store, recs: seq<News>): Store {
    if recs == [] then s else Saved(SavedAll(s, recs[..|recs| - 1]), recs[|recs| - 1])
  }

  // ---------------------------------------------------------------------
  // The service

  /** What one cycle did, in order: the batch publication and each save. */
  datatype Event = Published(batch: seq<Dict>) | Stored(id: string)

  function StoredEvents(ids: seq<string>): (r: seq<Event>)
    ensures |r| == |ids|
    ensures forall i :: 0 <= i < |ids| ==> r[i] == Stored(ids[i])
  {
    seq(|ids|, i requires 0 <= i < |ids| => Stored(ids[i]))
  }

  /**
   * The service module's state: the repository `_repo`, the backend
   * publisher's producer and the configured cloud name. `events` records
   * the order of the effects of each cycle.
   */
  class Service {
    var repo: InMemoryNewsRepository
    const producer: Kafka.Producer
    const cloud: Option<string>
    ghost var events: seq<Event>

    constructor (repo: InMemoryNewsRepository, producer: Kafka.Producer, cloud: Option<string>)
      ensures this.repo == repo && this.producer == producer && this.cloud == cloud && events == []
    {
      this.repo := repo;
      this.producer := producer;
      this.cloud := cloud;
      events := [];
    }

    /** `set_repo(repo)`. */
    method SetRepo(r: InMemoryNewsRepository)
      modifies this
      ensures repo == r && events == old(events)
    {
      repo := r;
    }

    /** `get_news(news_id)`. */
    method GetNews(newsId: string) returns (r: Option<News>)
      ensures r == Lookup(repo.State(), newsId)
    {
      r := repo.Get(newsId);
    }

    /** `list_news(topic, limit)`. */
    method ListNews(topic: Option<string>, limit: int) returns (r: seq<News>)
      requires repo.Valid()
      ensures r == Listed(repo.State(), topic, limit)
    {
      r := repo.List(topic, limit);
    }

    /**
     * `pull_and_process(limit)`. `key`, `top` and `everything` are the
     * gateway's credential and upstream answers; `sendFails`/`flushFails`
     * the publisher's outcomes; `uuid(i)` the id drawn for article `i`.
     */
    method PullAndProcess(limit: int, key: string, top: NewsProvider.Upstream, everything: NewsProvider.Upstream,
                          sendFails: nat -> bool, flushFails: bool,
                          zeroShot: (string, seq<string>) -> Nlp.ZeroShotResult,
                          ner: string -> seq<Nlp.NerEntity>, uuid: nat -> string)
      returns (ids: seq<string>)
      requires repo.Valid()
      requires forall a :: a in NewsProvider.Latest(key, limit, top, everything) ==> RawTyped(a)
      modifies this, repo, producer
      ensures repo == old(repo) && repo.Valid()
      ensures var raw := NewsProvider.Latest(key, limit, top, everything);
        var recs := EnrichedAll(raw, uuid, zeroShot, ner, cloud);
        && ids == Ids(recs)
        && repo.State() == SavedAll(old(repo.State()), recs)
        && events == old(events) + [Published(raw)] + StoredEvents(ids)
    ensures var raw := NewsProvider.Latest(key, limit, top, everything);
      raw == [] ==> producer.sent == old(producer.sent) && producer.flushes == old(producer.flushes)
    ensures var raw := NewsProvider.Latest(key, limit, top, everything);
      var k := Kafka.Delivered(|raw|, sendFails);
      raw != [] ==>
        && producer.sent == old(producer.sent) + Kafka.Messages(BackendPublisher.DefaultTopic, raw[..k])
        && producer.flushes == old(producer.flushes) + (if k == |raw| then [Kafka.FlushTimeout] else [])
    {
      var raw, _ := NewsProvider.FetchLatest(key, limit, top, everything);
      BackendPublisher.PublishBatch(producer, BackendPublisher.DefaultTopic, raw, sendFails, flushFails);
      events := events + [Published(raw)];
      ids := EnrichAndSave(raw, uuid, zeroShot, ner);
    }

    /** The loop of `pull_and_process` over the fetched articles. */
    method EnrichAndSave(raw: seq<Dict>, uuid: nat -> string, zeroShot: (string, seq<string>) -> Nlp.ZeroShotResult,
                         ner: string -> seq<Nlp.NerEntity>)
      returns (ids: seq<string>)
      requires repo.Valid()
      requires forall a :: a in raw ==> RawTyped(a)
      modifies this, repo
      ensures repo == old(repo) && repo.Valid()
      ensures var recs := EnrichedAll(raw, uuid, zeroShot, ner, cloud);
        && ids == Ids(recs)
        && repo.State() == SavedAll(old(repo.State()), recs)
        && events == old(events) + StoredEvents(ids)
    {
      ghost var recs := EnrichedAll(raw, uuid, zeroShot, ner, cloud);
      ghost var s0 := repo.State();
      ghost var e0 := events;
      ids := [];
      var i := 0;
      while i < |raw|
        invariant 0 <= i <= |raw|
        invariant repo == old(repo) && repo.Valid()
        invariant ids == Ids(recs[..i])
        invariant repo.State() == SavedAll(s0, recs[..i])
        invariant events == e0 + StoredEvents(ids)
      {
        var id := ProcessAt(raw, i, uuid, zeroShot, ner, s0);
        EventsSnoc(e0, ids, id);
        ids := ids + [id];
        i := i + 1;
      }
      assert recs[..|raw|] == recs;
    }

    /** One pass of the loop body of `pull_and_process`: enrich article `i`, then save it. */
    method ProcessAt(raw: seq<Dict>, i: nat, uuid: nat -> string, zeroShot: (string, seq<string>) -> Nlp.ZeroShotResult,
                     ner: string -> seq<Nlp.NerEntity>, ghost s0: Store)
      returns (id: string)
      requires i < |raw|
      requires forall a :: a in raw ==> RawTyped(a)
      requires repo.Valid()
      requires repo.State() == SavedAll(s0, EnrichedAll(raw, uuid, zeroShot, ner, cloud)[..i])
      modifies this, repo
      ensures repo == old(repo) && repo.Valid()
      ensures var recs := EnrichedAll(raw, uuid, zeroShot, ner, cloud);
        && id == recs[i].id
        && Ids(recs[..i + 1]) == Ids(recs[..i]) + [id]
        && repo.State() == SavedAll(s0, recs[..i + 1])
      ensures events == old(events) + [Stored(id)]
    {
      ghost var recs := EnrichedAll(raw, uuid, zeroShot, ner, cloud);
      assert raw[i] in raw;
      var news := EnrichOne(raw[i], uuid(i), zeroShot, ner);
      CycleStep(s0, recs, i);
      StoreOne(news);
      id := news.id;
    }

    /** The save at the end of the loop body of `pull_and_process`. */
    method StoreOne(news: News)
      requires repo.Valid()
      modifies this, repo
      ensures repo == old(repo) && repo.Valid()
      ensures repo.State() == Saved(old(repo.State()), news)
      ensures events == old(events) + [Stored(news.id)]
    {
      repo.Save(news);
      events := events + [Stored(news.id)];
    }

    /** The loop body of `pull_and_process` for one article, up to the save. */
    method EnrichOne(it: Dict, id: string, zeroShot: (string, seq<string>) -> Nlp.ZeroShotResult,
                     ner: string -> seq<Nlp.NerEntity>)
      returns (news: News)
      requires RawTyped(it)
      ensures news == Enriched(it, id, zeroShot, ner, cloud)
    {
      var text := ClassifyText(it);
      var topic := Nlp.ClassifyTopic(zeroShot, text);
      var ents := Nlp.ExtractEntities(ner, text);
      var imageUrl := PickImageUrl(it, cloud);
      news := News(id, Get(it, "title", Str("")).s, AsOptText(Get(it, "summary", Null)),
                   AsOptText(Get(it, "url", Null)), AsOptText(Get(it, "published_at", Null)),
                   Some(topic), ents, imageUrl);
    }
  }

  lemma EventsSnoc(e0: seq<Event>, ids: seq<string>, id: string)
    ensures e0 + StoredEvents(ids + [id]) == (e0 + StoredEvents(ids)) + [Stored(id)]
  {
    StoredEventsSnoc(ids, id);
  }

  lemma StoredEventsSnoc(ids: seq<string>, id: string)
    ensures StoredEvents(ids + [id]) == StoredEvents(ids) + [Stored(id)]
  {
    assert |StoredEvents(ids + [id])| == |StoredEvents(ids) + [Stored(id)]|;
  }

  // ---------------------------------------------------------------------
  // Properties of one cycle

  /** The ids are pairwise distinct and none is already stored. */
  predicate FreshIds(s: Store, ids: seq<string>) {
    && (forall i, j :: 0 <= i < j < |ids| ==> ids[i] != ids[j])
    && (forall i :: 0 <= i < |ids| ==> ids[i] !in s.db)
  }

  /**
   * With fresh ids, saving the cycle's records appends exactly those
   * records: each id resolves to its own record, every earlier id reads as
   * before, and the store grows by exactly `|recs|`.
   */
  lemma {:induction false} SavedAllFresh(s: Store, recs: seq<News>)
    requires Wf(s) && FreshIds(s, Ids(recs))
    ensures Wf(SavedAll(s, recs))
    ensures SavedAll(s, recs).order == s.order + Ids(recs)
    ensures |SavedAll(s, recs).db| == |s.db| + |recs|
    ensures forall i :: 0 <= i < |recs| ==> Lookup(SavedAll(s, recs), recs[i].id) == Some(recs[i])
    ensures forall id :: id in s.db ==> Lookup(SavedAll(s, recs), id) == Lookup(s, id)
  {
    if recs != [] {
      var init := recs[..|recs| - 1];
      var last := recs[|recs| - 1];
      FreshIdsInit(s, recs);
      SavedAllFresh(s, init);
      IdsSnoc(recs);
      forall i | 0 <= i < |init| ensures init[i].id != last.id {
        assert Ids(recs)[i] == init[i].id && Ids(recs)[|recs| - 1] == last.id;
      }
      SavedAllStep(s, SavedAll(s, init), init, last);
      assert init + [last] == recs;
    }
  }

  /** The inductive step of `SavedAllFresh`: one more record under a fresh id. */
  lemma SavedAllStep(s: Store, t: Store, init: seq<News>, last: News)
    requires Wf(s) && Wf(t) && last.id !in s.db
    requires forall i :: 0 <= i < |init| ==> init[i].id != last.id
    requires t.order == s.order + Ids(init)
    requires |t.db| == |s.db| + |init|
    requires forall i :: 0 <= i < |init| ==> Lookup(t, init[i].id) == Some(init[i])
    requires forall id :: id in s.db ==> Lookup(t, id) == Lookup(s, id)
    ensures Wf(Saved(t, last))
    ensures Saved(t, last).order == s.order + Ids(init + [last])
    ensures |Saved(t, last).db| == |s.db| + |init + [last]|
    ensures forall i :: 0 <= i < |init + [last]| ==>
      Lookup(Saved(t, last), (init + [last])[i].id) == Some((init + [last])[i])
    ensures forall id :: id in s.db ==> Lookup(Saved(t, last), id) == Lookup(s, id)
  {
    StepFresh(s, t, init, last);
    SavedFresh(t, last);
    IdsSnoc(init + [last]);
    assert (init + [last])[..|init|] == init;
    LookupSnoc(t, init, last);
    StepKeepsKeys(s, t, init);
  }

  /** The new id is not in the store the earlier saves produced. */
  lemma StepFresh(s: Store, t: Store, init: seq<News>, last: News)
    requires Wf(s) && Wf(t) && last.id !in s.db
    requires forall i :: 0 <= i < |init| ==> init[i].id != last.id
    requires t.order == s.order + Ids(init)
    ensures last.id !in t.db
  {
    assert last.id !in s.order;
    assert forall i :: 0 <= i < |init| ==> Ids(init)[i] != last.id;
    assert last.id !in t.order;
  }

  /** The earlier saves keep every id already stored. */
  lemma StepKeepsKeys(s: Store, t: Store, init: seq<News>)
    requires Wf(s) && Wf(t)
    requires t.order == s.order + Ids(init)
    ensures forall id :: id in s.db ==> id in t.db
  {
    forall id | id in s.db ensures id in t.db {
      assert id in s.order;
      assert id in t.order;
    }
  }

  lemma LookupSnoc(t: Store, init: seq<News>, last: News)
    requires forall i :: 0 <= i < |init| ==> Lookup(t, init[i].id) == Some(init[i])
    requires forall i :: 0 <= i < |init| ==> init[i].id != last.id
    ensures forall i :: 0 <= i < |init| + 1 ==>
      Lookup(Saved(t, last), (init + [last])[i].id) == Some((init + [last])[i])
  {
  }

  /** The fresh-id condition holds for every prefix of the run, and the last id is not in the prefix. */
  lemma FreshIdsInit(s: Store, recs: seq<News>)
    requires recs != [] && FreshIds(s, Ids(recs))
    ensures FreshIds(s, Ids(recs[..|recs| - 1]))
    ensures recs[|recs| - 1].id !in s.db
  {
    assert Ids(recs[..|recs| - 1]) == Ids(recs)[..|recs| - 1];
    assert recs[|recs| - 1].id == Ids(recs)[|recs| - 1];
  }

  /** One more saved record: the store, the ids and the events each grow by it. */
  lemma CycleStep(s0: Store, recs: seq<News>, i: nat)
    requires i < |recs|
    ensures SavedAll(s0, recs[..i + 1]) == Saved(SavedAll(s0, recs[..i]), recs[i])
    ensures Ids(recs[..i + 1]) == Ids(recs[..i]) + [recs[i].id]
    ensures StoredEvents(Ids(recs[..i]) + [recs[i].id]) == StoredEvents(Ids(recs[..i])) + [Stored(recs[i].id)]
  {
    assert recs[..i + 1][..i] == recs[..i];
    IdsSnoc(recs[..i + 1]);
    StoredEventsSnoc(Ids(recs[..i]), recs[i].id);
  }

  lemma IdsSnoc(recs: seq<News>)
    requires recs != []
    ensures Ids(recs) == Ids(recs[..|recs| - 1]) + [recs[|recs| - 1].id]
  {
    var init := recs[..|recs| - 1];
    assert |Ids(recs)| == |Ids(init) + [recs[|recs| - 1].id]|;
    forall i | 0 <= i < |recs| ensures Ids(recs)[i] == (Ids(init) + [recs[|recs| - 1].id])[i] {
      if i < |init| {
        assert init[i] == recs[i];
      }
    }
  }

  /** Saving a record under a new id. */
  lemma SavedFresh(t: Store, item: News)
    requires Wf(t) && item.id !in t.db
    ensures Wf(Saved(t, item))
    ensures Saved(t, item).order == t.order + [item.id]
    ensures |Saved(t, item).db| == |t.db| + 1
    ensures Lookup(Saved(t, item), item.id) == Some(item)
    ensures forall id :: id in t.db ==> Lookup(Saved(t, item), id) == Lookup(t, id)
  {
    SavedWf(t, item);
    assert Saved(t, item).db.Keys == t.db.Keys + {item.id};
  }

  /**
   * A cycle returns one id per raw article, in fetch order, and with fresh
   * ids each resolves to the record built from that article: its topic is
   * the classifier's answer and its entities the extractor's for the text
   * "title summary".
   */
  lemma CycleRecords(s: Store, raw: seq<Dict>, uuid: nat -> string,
                     zeroShot: (string, seq<string>) -> Nlp.ZeroShotResult,
                     ner: string -> seq<Nlp.NerEntity>, cloud: Option<string>)
    requires forall a :: a in raw ==> RawTyped(a)
    requires Wf(s) && FreshIds(s, Ids(EnrichedAll(raw, uuid, zeroShot, ner, cloud)))
    ensures var recs := EnrichedAll(raw, uuid, zeroShot, ner, cloud);
      var s' := SavedAll(s, recs);
      && |Ids(recs)| == |raw|
      && |s'.db| == |s.db| + |raw|
      && (forall id :: id in s.db ==> Lookup(s', id) == Lookup(s, id))
      && (forall i :: 0 <= i < |raw| ==>
            && Lookup(s', Ids(recs)[i]).Some?
            && Lookup(s', Ids(recs)[i]).value.topic == Some(Nlp.ClassifyTopic(zeroShot, ClassifyText(raw[i])))
            && Lookup(s', Ids(recs)[i]).value.entities == Nlp.Surfaces(ner(PyPrefix(ClassifyText(raw[i]), 800))))
  {
    var recs := EnrichedAll(raw, uuid, zeroShot, ner, cloud);
    SavedAllFresh(s, recs);
    forall i | 0 <= i < |raw|
      ensures Lookup(SavedAll(s, recs), Ids(recs)[i]) == Some(recs[i])
      ensures recs[i] == Enriched(raw[i], uuid(i), zeroShot, ner, cloud)
    {
      assert Ids(recs)[i] == recs[i].id;
    }
  }
}
