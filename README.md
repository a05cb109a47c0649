# cloud-news-aggregator, modelled in Dafny

This project models the decision rules at the heart of the cloud news
aggregator and proves properties about them. The aggregator pulls headlines
from NewsAPI, enriches each one and stores it. Enrichment means a zero-shot
topic, named entities and an image URL, which may be wrapped for Cloudinary's
fetch service. The aggregator also publishes batches to Kafka, drains a Kafka
topic into a Mongo collection, and shapes articles for a Gradio front end:
filtering, sorting, paging, cards and a detail view.

Every external party is a parameter of the model:

- NewsAPI's two endpoints are `NewsProvider.Upstream` values: unreachable, or a status and an article list.
- The zero-shot classifier and the NER tagger are function-typed oracles.
- `uuid4` is a function `nat -> string` from the article's position to its id.
- A send, a flush or an insert that raises is a boolean, or a function from the message's position to a boolean.
- The JSON decoder is a function from bytes to an optional value.
- The backend's HTTP reply is an optional list of articles.

Python dicts are `Values.Dict`, a map from strings to a JSON-shaped
`Values.Value`. Python truthiness, `dict.get`, `a or b` and slicing with
negative bounds are written out in `values.dfy`.

Stateful parts of the source are classes:

- `NewsRepo.InMemoryNewsRepository` holds the dict and its insertion order.
- `Kafka.Producer` keeps ghost logs of sent messages and flushes.
- `Consumer.Collection` keeps ghost logs of insert attempts and stored documents.
- `KafkaService.Service` holds the lazily created producer.
- `NewsService.Service` holds the repository, the producer, the cloud name and a ghost log of a cycle's effects.
- `ApiClient.MockNewsClient` and `ApiClient.HttpNewsClient` hold the client fields.

The in-place `list.sort` of the controller is an insertion sort on an
`array`, proved equal to a stable sorting function whose permutation,
order and stability are proved separately.

Python's `quote(url, safe='')` is modelled as percent-encoding per section
2.1 of RFC 3986. Only the unreserved set of section 2.3 is kept, and it is
applied to the UTF-8 bytes of the string. A decoder is given beside it, so
the round trip can be stated.

## Model

| member | source | states |
|---|---|---|
| Values.PyPrefix | frontend/services/api_client.py:28 | `s[:n]` is a prefix of s; its length is min(n, len) for n >= 0 and len + n (at least 0) for negative n |
| Text.RStrip | frontend/controllers/news_controller.py:125 | the result is a prefix of s, does not end in whitespace, and only whitespace was removed |
| Text.LStrip | frontend/models/schema.py:24-25 | the result is a suffix of s, does not start with whitespace, and only whitespace was removed |
| Text.Strip | frontend/models/schema.py:24-25 | the result neither starts nor ends with whitespace (the characters Python's `str.isspace` accepts) and is no longer than s |
| Text.StripIdempotent | frontend/models/schema.py:24-25 | stripping twice is stripping once |
| Text.RStripChar | frontend/services/api_client.py:33 | `rstrip("/")` returns a prefix that does not end in '/', and every removed character is '/' |
| Text.Lower | frontend/services/api_client.py:27 | lowering keeps the length and maps each character to its lower-case form |
| Text.LowerIdempotent | frontend/controllers/news_controller.py:77-80 | lowering twice is lowering once |
| PercentEncoding.Utf8 | backend/services/news_service.py:20 | a character encodes to 1 to 4 bytes, and to one byte equal to its code exactly when it is ASCII |
| PercentEncoding.EscapeByte | backend/services/news_service.py:20 | an unreserved byte stays as itself; any other byte becomes a three-character `%XX` escape |
| PercentEncoding.QuoteRoundTrip | backend/services/news_service.py:20 | decoding the encoded string gives back the string's UTF-8 bytes |
| PercentEncoding.UnquoteQuoteBytes | backend/services/news_service.py:20 | decoding the encoding of any byte sequence gives back those bytes |
| PercentEncoding.QuoteBytesAlphabet | backend/services/news_service.py:20 | the encoding uses only unreserved characters and escapes, and never contains '/', because `safe=''` |
| PercentEncoding.QuoteUnreservedIdentity | backend/services/news_service.py:20 | a string of unreserved characters is left unchanged |
| Sorting.InsertSortedPermutes | frontend/controllers/news_controller.py:39 | inserting one element adds exactly that element to the multiset |
| Sorting.SortByPermutes | frontend/controllers/news_controller.py:39 | the sorted list is a permutation of the input |
| Sorting.InsertSortedSorted | frontend/controllers/news_controller.py:39 | inserting into a sorted list keeps it sorted |
| Sorting.SortBySorted | frontend/controllers/news_controller.py:39 | the result is ordered by the key, ascending or, with `reverse`, descending |
| Sorting.SortByStable | frontend/controllers/news_controller.py:39 | elements with equal keys keep their relative order |
| Sorting.WithKeyAppend | frontend/controllers/news_controller.py:39 | selecting the elements of one key distributes over concatenation |
| Sorting.InsertStep | frontend/controllers/news_controller.py:39 | one in-place pass inserts `a[i]` into the sorted prefix `a[..i]` and leaves the rest of the array alone |
| Sorting.SortInPlace | frontend/controllers/news_controller.py:39 | the array ends equal to the stable sort of its old contents |
| Sorting.StrLtTransitive | frontend/controllers/news_controller.py:39 | string order is transitive |
| Sorting.StrLtTotal | frontend/controllers/news_controller.py:39 | any two distinct strings are ordered one way or the other |
| Sorting.KeyLtTransitive | frontend/controllers/news_controller.py:39 | the order on sort keys is transitive |
| Sorting.KeyLtTotal | frontend/controllers/news_controller.py:39 | any two distinct sort keys are ordered one way or the other |
| NewsProvider.RepeatToLimit | backend/providers/news_provider.py:23-24 | with a non-empty base, a non-negative limit gives exactly `limit` items with item i = `base[i mod len]`; a limit of 0 or less gives [] |
| NewsProvider.RepeatAt | backend/providers/news_provider.py:24 | item i of `base * k` is `base[i mod len]` |
| NewsProvider.SafeCall | backend/providers/news_provider.py:26-40 | None exactly when the call raises or the status is not 200; otherwise the body, even when it has no articles |
| NewsProvider.MapArticles | backend/providers/news_provider.py:87-95 | the mapping keeps the number of articles |
| NewsProvider.FetchLatest | backend/providers/news_provider.py:42-99 | the loop returns `Latest(...)`, and the requests made are `Requests(...)`: none without a key, top-headlines first, everything only as a fallback |
| NewsProvider.MapLoop | backend/providers/news_provider.py:87-95 | the append loop builds the same list as the mapping of every article |
| NewsProvider.NoKeyCyclesDummy | backend/providers/news_provider.py:56-57 | with no key the result is the dummy list cycled to `limit`, whatever the upstream would say, and no request is made |
| NewsProvider.EverythingOnlyAfterEmptyHeadlines | backend/providers/news_provider.py:66-80 | top-headlines is always asked first, and everything is asked exactly when top-headlines gave no articles |
| NewsProvider.DummyOnlyWhenBothTiersEmpty | backend/providers/news_provider.py:83-84 | with a key and limit >= 1, the dummy list is returned exactly when neither tier has articles |
| NewsProvider.UpstreamPrefixInOrder | backend/providers/news_provider.py:88-99 | with upstream articles and limit >= 1, the result is the mapping of the first min(n, limit) articles in upstream order, and never a dummy item |
| NewsProvider.MappedIsNotDummy | backend/providers/news_provider.py:89-95 | a mapped article never equals a dummy item |
| NewsProvider.MappedItemShape | backend/providers/news_provider.py:89-95 | the keys are exactly title/url/summary/published_at/imageUrl; a falsy title becomes ""; summary comes from description, imageUrl from urlToImage and published_at from publishedAt |
| NewsProvider.LatestBounded | backend/providers/news_provider.py:88-99 | for limit >= 0 the result has at most `limit` items |
| NewsProvider.NegativeLimitDropsFromEnd | backend/providers/news_provider.py:88 | a negative limit drops items from the end of the upstream list instead of returning nothing |
| Nlp.ClassifyTopic | backend/ai/nlp.py:8-10 | the first label when the classifier answers with a non-empty label list, otherwise "Politics" |
| Nlp.TopicIsCategory | backend/ai/nlp.py:8-10 | when the classifier's labels come from the categories, the topic is one of the categories |
| Nlp.Surfaces | backend/ai/nlp.py:14-18 | no more outputs than entities, and every output is non-empty |
| Nlp.ExtractEntities | backend/ai/nlp.py:12-18 | the tagger sees only `text[:max_chars]` (800 by default), and the loop output is the non-empty surfaces in tagger order |
| Nlp.SurfacesAppend | backend/ai/nlp.py:14-18 | extraction distributes over concatenation, so tagger order is kept and nothing is deduplicated |
| Nlp.SurfacesAreSurfaces | backend/ai/nlp.py:16 | each output is the `word`, else the `entity_group`, of some tagger entity |
| Nlp.ShortTextUntruncated | backend/ai/nlp.py:13 | a text no longer than `max_chars` reaches the tagger whole |
| NewsRepo.RecordsOf | backend/repositories/news_repo.py:21 | the values are listed in key order, one per key |
| NewsRepo.InMemoryNewsRepository.Save | backend/repositories/news_repo.py:16-17 | the new state is `Saved(old state, item)` and the store stays well formed |
| NewsRepo.InMemoryNewsRepository.Get | backend/repositories/news_repo.py:18-19 | returns the record stored under the id, or None |
| NewsRepo.InMemoryNewsRepository.List | backend/repositories/news_repo.py:20-24 | returns `Listed(state, topic, limit)` |
| NewsRepo.SavedWf | backend/repositories/news_repo.py:17 | saving keeps the key order free of duplicates and in step with the dict |
| NewsRepo.SaveThenGet | backend/repositories/news_repo.py:16-19 | after a save, get of its id returns the item, and every other id's entry is unchanged |
| NewsRepo.SaveNewAppends | backend/repositories/news_repo.py:17-21 | saving a new id appends its record to the listed values |
| NewsRepo.SaveExistingInPlace | backend/repositories/news_repo.py:17-21 | re-saving an existing id replaces its record at its original position, with no duplicate |
| NewsRepo.WithTopicExact | backend/repositories/news_repo.py:22-23 | the topic filter keeps exactly the records whose topic equals it |
| NewsRepo.ListedSpec | backend/repositories/news_repo.py:20-24 | with a truthy topic, a prefix of the filtered values; with None or "", a prefix of all values; at most `limit` items for limit >= 0 |
| NewsService.AsCloudinaryFetch | backend/services/news_service.py:18-20 | the fetch URL starts with the fixed prefix carrying the cloud name |
| NewsService.FetchUrlRecoverable | backend/services/news_service.py:18-20 | after the prefix comes an encoding with no '/', which decodes back to the source URL's UTF-8 bytes |
| NewsService.PickImageUrl | backend/services/news_service.py:22-32 | None exactly when there is no native image and not both a cloud name and a page URL |
| NewsService.PickImageCases | backend/services/news_service.py:22-32 | a native image is used as is without a cloud name, or wrapped with one; otherwise the page URL is wrapped with a cloud name; otherwise None |
| NewsService.GatewayItemsHaveNoNativeImage | backend/services/news_service.py:24 | the provider's items store their image under `imageUrl`, so the choice only ever wraps the page URL or gives None |
| NewsService.Show | backend/services/news_service.py:43 | a string is shown as itself in the f-string |
| NewsService.ClassifyText | backend/services/news_service.py:43 | the classification text is the title, a single space, then the summary |
| NewsService.EnrichedAll | backend/services/news_service.py:42-58 | one record per raw article, in fetch order, under the id drawn for it |
| NewsService.Ids | backend/services/news_service.py:60 | one id per record, in order |
| NewsService.Service.constructor | backend/services/news_service.py:34-36 | the service starts with the given repository and an empty effect log |
| NewsService.Service.SetRepo | backend/services/news_service.py:34-36 | rebinds the repository |
| NewsService.Service.GetNews | backend/services/news_service.py:63-64 | returns the repository's record for the id |
| NewsService.Service.ListNews | backend/services/news_service.py:66-67 | returns the repository's listing |
| NewsService.Service.PullAndProcess | backend/services/news_service.py:38-61 | publishes the whole fetched batch once, before any enrichment: an empty batch sends and flushes nothing, otherwise the producer gains the batch's messages to the raw topic up to the first failing send, and one flush exactly when every send succeeded; then returns one id per raw article, in order, leaving the store saved with each enriched record |
| NewsService.Service.EnrichAndSave | backend/services/news_service.py:41-61 | the loop saves the enriched records in fetch order and returns their ids |
| NewsService.Service.ProcessAt | backend/services/news_service.py:42-60 | one pass of the loop saves article i's record and appends its id |
| NewsService.Service.StoreOne | backend/services/news_service.py:59 | the save of one record |
| NewsService.Service.EnrichOne | backend/services/news_service.py:43-58 | the record built from one raw article: its text, topic, entities and image |
| NewsService.SavedAllFresh | backend/services/news_service.py:50-59 | with fresh distinct ids, the store grows by exactly the saved records, each resolves to its record, and no existing record changes |
| NewsService.CycleRecords | backend/services/news_service.py:44-64 | with fresh ids, every returned id resolves to a record whose topic and entities are the classifier's and tagger's answers for "title summary" |
| Kafka.Producer.Send | backend/services/kafka_producer.py:30 | a send that does not raise appends one message to the log |
| Kafka.Producer.Flush | backend/services/kafka_producer.py:40 | a flush is logged with its timeout |
| Kafka.Messages | backend/services/kafka_producer.py:29-39 | one message per article to the topic, in batch order |
| Kafka.Delivered | backend/services/kafka_producer.py:27-43 | the number of sends before the first one that raises |
| Kafka.DeliveredIsFirstFailure | backend/services/kafka_producer.py:27-43 | `Delivered` is the position of the first failing send |
| Kafka.SendBatch | backend/services/kafka_producer.py:27-43 | the messages up to the first failure are sent in order; one flush with timeout 2 happens exactly when every send succeeded |
| Kafka.MessageShape | backend/services/kafka_producer.py:30-39 | a message has exactly the eight keys, score defaults to 0 and `_source` is "frontend-ui" |
| Kafka.PublishedAtKeyOnly | backend/services/kafka_producer.py:34 | a provider item carrying only `published_at` yields a None publishedAt |
| BackendPublisher.PublishBatch | backend/services/kafka_producer.py:21-43 | an empty batch sends and flushes nothing; otherwise the batch is sent as in `Kafka.SendBatch` to the raw topic, and failures are swallowed |
| KafkaService.Service.constructor | frontend/services/kafka_service.py:9 | there is no producer yet |
| KafkaService.Service.GetProducer | frontend/services/kafka_service.py:11-19 | the producer is created on the first call that can connect, and the same instance is returned from then on |
| KafkaService.Service.PublishArticle | frontend/services/kafka_service.py:21-27 | the article is sent unchanged when a producer is available and the send does not raise; nothing escapes |
| KafkaService.Service.PublishBatch | frontend/services/kafka_service.py:29-48 | an empty batch does nothing; otherwise the fixed-shape messages are sent in order up to the first failure, with one flush at the end |
| Consumer.SafeJsonLoad | infra/consumer.py:14-21 | None for a missing or empty message and for a decode failure; otherwise the decoded value |
| Consumer.Decoded | infra/consumer.py:14-40 | each message is decoded on its own, in stream order |
| Consumer.Collection.InsertOne | infra/consumer.py:55-59 | every attempt is logged; only a successful one stores the document |
| Consumer.Inserts | infra/consumer.py:46-56 | no more inserts than messages |
| Consumer.Stop | infra/consumer.py:47-52 | the position of the first truthy non-object value, where `data.get` raises |
| Consumer.Saves | infra/consumer.py:46-59 | no more documents are stored than inserts are attempted |
| Consumer.Consume | infra/consumer.py:46-59 | the insert attempts are the truthy decoded values in stream order, up to the first truthy non-object, which ends the loop; a failed insert does not stop the loop; the collection stores exactly the attempted documents whose insert did not raise, in order |
| Consumer.SavesWithoutFailures | infra/consumer.py:55-59 | when no insert raises, every attempted document is stored |
| Consumer.FailedInsertSkipped | infra/consumer.py:55-59 | a message whose insert raises stores nothing, and the next message's document is still stored |
| Consumer.StopIsFirst | infra/consumer.py:47-52 | `Stop` is the first truthy non-object position |
| Consumer.StopNone | infra/consumer.py:46-59 | with no such value, the loop runs to the end of the stream |
| Consumer.InsertsTruthy | infra/consumer.py:47-56 | every insert is a truthy decoded value, inserted verbatim |
| Consumer.FalsyCausesNoInsert | infra/consumer.py:47-49 | a falsy value causes no insert |
| Consumer.DuplicatesInsertedTwice | infra/consumer.py:46-56 | two identical messages give two insert attempts, so nothing is deduplicated |
| Consumer.InsertsAppend | infra/consumer.py:46-59 | the insert attempts of a stream are those of its first part followed by those of the rest: each message is handled independently of the others |
| NewsView.RenderNews | backend/views/news_view.py:5-16 | exactly the eight keys; publishedAt is truthy exactly when `published_at` is, and category exactly when `topic` is |
| NewsView.RenderList | backend/views/news_view.py:18-19 | same length and order, rendered elementwise |
| NewsView.RenderDefaults | backend/views/news_view.py:7-15 | a missing title gives "", missing entities [], missing score 0; id passes through; a falsy `published_at` or `topic` gives "" |
| NewsView.RenderRecordFields | backend/views/news_view.py:5-16 | the field dict of a stored record renders with its id, title, date and topic under the front end's names, and score 0 |
| ApiClient.WithCategory | frontend/services/api_client.py:27 | the filter keeps a sub-list of the items |
| ApiClient.WithCategoryExact | frontend/services/api_client.py:27 | the filter keeps exactly the items whose lowered category equals the lowered argument |
| ApiClient.WithCategoryAppend | frontend/services/api_client.py:27 | the filter keeps data order |
| ApiClient.MockListedSpec | frontend/services/api_client.py:24-28 | None, "" or "all" applies no filter; otherwise a prefix of the filtered items; at most `limit` items for limit >= 0 |
| ApiClient.CategoryCaseInsensitive | frontend/services/api_client.py:27 | the category argument's case does not matter |
| ApiClient.MockNewsClient.constructor | frontend/services/api_client.py:19-22 | the client holds the given data |
| ApiClient.MockNewsClient.ListNews | frontend/services/api_client.py:24-28 | returns `MockListed(data, category, limit)` |
| ApiClient.HttpNewsClient.constructor | frontend/services/api_client.py:32-33 | the base URL is the argument, or "" for None, with trailing '/' removed |
| ApiClient.NormalizeBaseSpec | frontend/services/api_client.py:33 | the base URL never ends in '/', is the argument minus a run of trailing slashes, and normalising it again changes nothing |
| ApiClient.HttpNewsClient.Params | frontend/services/api_client.py:36-38 | the query always has limit, and has category only when it is given and not "all" |
| ApiClient.HttpNewsClient.ListNews | frontend/services/api_client.py:35-41 | the request goes to `base/news` with those params, and the reply is returned |
| FrontendSchema.NormalizeArticle | frontend/models/schema.py:14-31 | a present category is kept as given; url, publishedAt and imageUrl are set exactly when the dict holds text under their keys, and then hold that text; title and summary neither start nor end with whitespace |
| FrontendSchema.ArticleFields | frontend/models/schema.py:5-12 | a record's fields form a dict that `normalize_article` accepts |
| FrontendSchema.OptText | frontend/models/schema.py:9-11 | an optional text field survives conversion to a value and back |
| FrontendSchema.NormalizeDefaults | frontend/models/schema.py:23-29 | missing title or summary give "", a missing category gives "general", and missing url, publishedAt or imageUrl give None |
| FrontendSchema.NormalizeStrips | frontend/models/schema.py:24-25 | title and summary neither start nor end with whitespace and are no longer than the input |
| FrontendSchema.NormalizeFields | frontend/models/schema.py:23-29 | normalising a record's own fields only strips title and summary |
| FrontendSchema.NormalizeIdempotent | frontend/models/schema.py:24-25 | normalising a normalised article changes nothing |
| NewsController.ApplySort | frontend/controllers/news_controller.py:16-42 | the array ends as `Applied(old contents)`: left alone when a title key would raise, otherwise stably sorted by the key |
| NewsController.AppliedSpec | frontend/controllers/news_controller.py:16-42 | a permutation; unchanged when the sort raises; otherwise ordered by the key, descending only for "desc", and stable |
| NewsController.UnknownSortUsesDate | frontend/controllers/news_controller.py:19-32 | any sort field other than score or title sorts by publishedAt, with a falsy date as "" |
| NewsController.PageNumber | frontend/controllers/news_controller.py:47 | page becomes max(1, page), with a falsy page as 1 |
| NewsController.PageSize | frontend/controllers/news_controller.py:48 | a falsy page size becomes 10, otherwise max(1, page_size) |
| NewsController.Paginate | frontend/controllers/news_controller.py:45-51 | total is the number of items whatever the page; the page has at most `size` items, starting at `(page-1)*size` |
| NewsController.PaginateIsPage | frontend/controllers/news_controller.py:49-51 | the page is `items[(page-1)*size : page*size]` |
| NewsController.FirstPagesPrefix | frontend/controllers/news_controller.py:49-51 | the first pages put together form a prefix of the items |
| NewsController.PagesCoverItems | frontend/controllers/news_controller.py:49-51 | the pages together give back every item, in order |
| NewsController.Matching | frontend/controllers/news_controller.py:78-80 | the search keeps a sub-list of the items |
| NewsController.MatchingExact | frontend/controllers/news_controller.py:78-80 | the search keeps exactly the items whose lowered title or summary contains the query |
| NewsController.QueryFilterExact | frontend/controllers/news_controller.py:76-80 | an empty query keeps everything; otherwise an item is kept exactly when it matches the lowered query |
| NewsController.QueryCaseInsensitive | frontend/controllers/news_controller.py:77 | the query's case does not matter: two queries that lower to the same text are searchable on the same items and keep the same items |
| NewsController.TitleMatchSparesSummary | frontend/controllers/news_controller.py:76-80 | an item whose lowered title contains the query matches whatever its summary holds, None included, because `or` does not evaluate the summary test |
| NewsController.Truncate | frontend/controllers/news_controller.py:124-125 | a text within the limit is unchanged; a longer one becomes its first n characters right-stripped, plus "…" |
| NewsController.ShownSummaryBounded | frontend/controllers/news_controller.py:124-179 | a shown summary is the original value or at most n + 1 characters long; a string summary within the limit is shown as is |
| NewsController.ArticlesToCards | frontend/controllers/news_controller.py:105-139 | no items give the fixed no-results message; otherwise one card per item, in order, with the summary cut at 300 |
| NewsController.DetailByIndex | frontend/controllers/news_controller.py:165-217 | "לא נבחרה כתבה." exactly for empty data or a missing, negative or out-of-range index; otherwise the detail of `data[index]`, with the summary cut at 1200 |
| NewsController.TableRows | frontend/controllers/news_controller.py:88-102 | one row per item, in order |
| NewsController.Titles | frontend/controllers/news_controller.py:209 | one title per item, in order, with "" for a missing one |
| NewsController.FetchedSpec | frontend/controllers/news_controller.py:55-84 | the fetched list is a permutation of the source items the query keeps: all of them for an empty query, otherwise exactly those whose lowered title or summary contains the lowered query |
| NewsController.ReplyWithoutSummaryShown | frontend/controllers/news_controller.py:55-84 | a reply article with a title and a None summary is fetched and shown on the page for an empty query |
| NewsController.SortedCopy | frontend/controllers/news_controller.py:83 | sorting the list in place gives `Applied(found)` |
| NewsController.Fetch | frontend/controllers/news_controller.py:55-84 | the articles are fetched from the HTTP client, or from the mock when there is none or the call raised; then searched and sorted, as `FetchedSpec` characterises |
| NewsController.UpdateAllWithState | frontend/controllers/news_controller.py:193-211 | the page of the fetched list; rows, titles and cards aligned one to one with the page items (the no-results message for an empty page); and the total of all fetched items before paging |

## Left out

- Network, environment and logging are not modelled. HTTP requests, timeouts, environment variables, `print` and `log` calls, and the Kafka, Mongo and transformers client constructors become parameters of the model or are dropped.
- NewsAPI's JSON body is not modelled beyond the article list. A non-object body, or an `articles` value that is not a list, is not represented.
- The zero-shot classifier and the NER tagger are opaque functions. Their models are foreign code.
- `uuid4` is not modelled. Ids come from a function of the article's position, and freshness is a precondition of the lemmas that need it.
- The Kafka consumer's endless stream is not modelled. The model takes a finite sequence of messages.
- Consumer offsets, commits and consumer groups are not modelled.
- Floats are not modelled. Score is an integer-valued field:
  - `float(...)`, `round(..., 2)` and `{score:.2f}` are left out;
  - the score sort key reads integers and booleans only, and a numeric string counts as 0 rather than being parsed.
- The card and detail markdown layout is not modelled. A card is the tuple of values it displays, after truncation.
- `get_news_table`, `get_news_cards_md`, `update_all`, `list_titles` and `_articles_to_table` are compositions of `_fetch`, `_articles_to_table_row` and `_articles_to_cards_md`, which are modelled. The compositions themselves are not repeated.
- pydantic's validation of `HttpUrl` and `BaseModel` construction is not modelled.
- The abstract `NewsRepository` base class is not modelled. Only its in-memory implementation is.
- `Text.Lower` folds ASCII letters only. Python's full Unicode case mapping is not modelled.
- Runtime type errors such as `.lower()` or `.strip()` on None, or `len()` of a non-string summary, are not modelled. The members that call those methods require the field types instead of modelling the exception:
  - `NewsController.Fetch`: requires only what the source would otherwise raise on. A text category on every mock item when the mock filters by category. For a non-empty query, a text title on every source item and a text summary where the title does not match. Text or missing dates when sorting by date.
  - `NewsController.UpdateAllWithState`: has the same requirement, and also requires the page's summaries to be text or falsy, since only they are measured.
  - `NewsController.ApplySort`: requires text or missing dates when sorting by date. A mix of dates and other values would raise inside `sort`, and that case is not modelled. A non-text title is modelled: the sort is skipped.
  - `NewsService.Service.PullAndProcess`: requires the raw articles' title, summary, date and image fields to be strings or None.
  - `FrontendSchema.NormalizeArticle`: requires title and summary to be strings when present.
- The web framework is not modelled: FastAPI routing, the Cloudinary upload controller, the Gradio UI and its timer.
- Concurrency is not modelled. There are no interleaved ingestion cycles.

The model follows the code where the intended behaviour differs from it:

- `fetch_latest` with a key calls the upstream even for a limit of 0 or less. A negative limit then drops articles from the end rather than giving an empty list (`NewsProvider.NegativeLimitDropsFromEnd`).
- The classification text is an f-string, so a None summary becomes the text "None".
- `pull_and_process` has no per-article error isolation. The oracles are total functions, and the first exception would end the cycle.
- A batch publication stops at the first send that raises, and the remaining articles are not sent.
- The backend routes `get_news` and `list_news` pass the repository's `News` objects to `render_news`, which calls `.get` on them and so raises. `NewsView.RenderNews` is modelled on dicts, and `NewsView.RenderRecordFields` renders a record's field dict, not the object.
- The consumer's loop ends at the first truthy value that is not an object, because `data.get` raises outside the try block.
- The provider names its fields `imageUrl` and `published_at`. The service reads `urlToImage` or `image`, and the publishers read `publishedAt`, so those values never flow through (`NewsService.GatewayItemsHaveNoNativeImage`, `Kafka.PublishedAtKeyOnly`).
