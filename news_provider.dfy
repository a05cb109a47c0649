/**
 * The provider gateway: raw articles from NewsAPI with an ordered fallback
 * (top headlines, then the keyword search, then a fixed list of five
 * sample items repeated to the limit).
 *
 * The two HTTP exchanges are oracles: `Upstream` is what one request
 * produced, as seen after `requests.get` and `r.json()`.
 */
module NewsProvider {
  import opened Values

  /** The five sample items used when no real data is available. */
  const Dummy: seq<Dict> := [
    map["title" := Str("Sample headline about AI in politics"), "url" := Str("https://example.com/ai-politics"),
        "summary" := Str("Short summary for local testing."), "published_at" := Str("2025-09-21T10:00:00Z")],
    map["title" := Str("Finance: Markets rise amid tech rally"), "url" := Str("https://example.com/finance"),
        "summary" := Str("Stocks climb as investors digest earnings."), "published_at" := Str("2025-09-21T11:00:00Z")],
    map["title" := Str("Science: New telescope discovery"), "url" := Str("https://example.com/science"),
        "summary" := Str("Interesting finding in space."), "published_at" := Str("2025-09-21T12:00:00Z")],
    map["title" := Str("Culture: Festival opens downtown"), "url" := Str("https://example.com/culture"),
        "summary" := Str("City hosts annual event."), "published_at" := Str("2025-09-21T13:00:00Z")],
    map["title" := Str("Sport: Local team wins"), "url" := Str("https://example.com/sport"),
        "summary" := Str("Big victory last night."), "published_at" := Str("2025-09-21T14:00:00Z")]
  ]

  /** Python `base * k`. */
  function Repeat<T>(base: seq<T>, k: int): seq<T> {
    if k <= 0 then [] else base + Repeat(base, k - 1)
  }

  lemma {:induction false} RepeatLength<T>(base: seq<T>, k: nat)
    ensures |Repeat(base, k)| == k * |base|
  {
    if k > 0 {
      RepeatLength(base, k - 1);
    }
  }

  /** Item `i` of `base * k` is `base[i mod |base|]`. */
  lemma {:induction false} RepeatAt<T>(base: seq<T>, k: nat, i: nat)
    requires |base| > 0 && i < k * |base|
    ensures |Repeat(base, k)| == k * |base|
    ensures Repeat(base, k)[i] == base[i % |base|]
  {
    RepeatLength(base, k);
    var n := |base|;
    if i >= n {
      assert (k - 1) * n == k * n - n;
      RepeatAt(base, k - 1, i - n);
      ModShift(i, n);
    } else {
      ModUnique(i, n, 0, i);
    }
  }

  lemma MulAtLeast(d: int, n: int)
    requires d >= 1 && n > 0
    ensures d * n >= n
  {
  }

  /** Euclidean division is unique. */
  lemma ModUnique(i: int, n: int, q: int, r: int)
    requires n > 0 && 0 <= r < n && i == q * n + r
    ensures i % n == r
  {
    var q', r' := i / n, i % n;
    assert (q - q') * n == r' - r;
    if q - q' >= 1 {
      MulAtLeast(q - q', n);
    } else if q' - q >= 1 {
      MulAtLeast(q' - q, n);
    }
  }

  lemma ModShift(i: int, n: int)
    requires n > 0
    ensures (i - n) % n == i % n
  {
    var q := (i - n) / n;
    var r := (i - n) % n;
    assert i == (q + 1) * n + r;
    ModUnique(i, n, q + 1, r);
  }

  /**
   * `_repeat_to_limit`: `base` repeated cyclically and cut to `limit` items.
   * Python's `//` is floor division; for a positive divisor Dafny's `/` is too.
   */
  function RepeatToLimit<T>(base: seq<T>, limit: int): (r: seq<T>)
    requires |base| > 0
    ensures limit <= 0 ==> r == []
    ensures limit >= 0 ==> |r| == limit
    ensures forall i :: 0 <= i < |r| ==> r[i] == base[i % |base|]
  {
    var n := |base|;
    var k := (limit + n - 1) / n;
    if k <= 0 then
      PyPrefix(Repeat(base, k), limit)
    else
      RepeatLength(base, k);
      assert k * n >= limit;
      var r := PyPrefix(Repeat(base, k), limit);
      assert forall i :: 0 <= i < |r| ==> r[i] == base[i % n] by {
        forall i | 0 <= i < |r| ensures r[i] == base[i % n] {
          RepeatAt(base, k, i);
        }
      }
      r
  }

  /** What one upstream request produced. */
  datatype Upstream =
    | Unreachable                                  // requests.get or r.json() raised
    | Answer(status: int, articles: seq<Dict>)     // the body's `articles` ([] when absent)

  /** `_safe_call`, reduced to its outcome: no data, or the body's articles. */
  function SafeCall(u: Upstream): (r: Option<seq<Dict>>)
    ensures r.None? <==> u.Unreachable? || u.status != 200
    ensures r.Some? ==> r.value == u.articles
  {
    match u
    case Unreachable => None
    case Answer(status, articles) => if status != 200 then None else Some(articles)
  }

  /** `data and data.get("articles")` is truthy. */
  predicate HasArticles(data: Option<seq<Dict>>) {
    data.Some? && data.value != []
  }

  function TopHeadlines(key: string, limit: int): Request {
    Request("https://newsapi.org/v2/top-headlines",
      map["country" := Str("us"), "pageSize" := Int(limit), "apiKey" := Str(key)])
  }

  function Everything(key: string, limit: int): Request {
    Request("https://newsapi.org/v2/everything",
      map["q" := Str("technology OR science OR politics OR sports OR culture"), "language" := Str("en"),
          "pageSize" := Int(limit), "sortBy" := Str("publishedAt"), "apiKey" := Str(key)])
  }

  /** One upstream article in the gateway's uniform shape. */
  function MapArticle(a: Dict): Dict {
    map[
      "title" := Or(Get(a, "title", Null), Str("")),
      "url" := Get(a, "url", Null),
      "summary" := Get(a, "description", Null),
      "published_at" := Get(a, "publishedAt", Null),
      "imageUrl" := Get(a, "urlToImage", Null)]
  }

  function MapArticles(arts: seq<Dict>): (r: seq<Dict>)
    ensures |r| == |arts|
  {
    seq(|arts|, i requires 0 <= i < |arts| => MapArticle(arts[i]))
  }

  /** The data the gateway works from after the two upstream tiers. */
  function Chosen(top: Upstream, everything: Upstream): Option<seq<Dict>> {
    if HasArticles(SafeCall(top)) then SafeCall(top) else SafeCall(everything)
  }

  /** The result of `fetch_latest(limit)` with credential `key` ("" = none). */
  function Latest(key: string, limit: int, top: Upstream, everything: Upstream): seq<Dict> {
    if key == "" then RepeatToLimit(Dummy, limit)
    else
      var data := Chosen(top, everything);
      if !HasArticles(data) then RepeatToLimit(Dummy, limit)
      else
        var out := MapArticles(PyPrefix(data.value, limit));
        if out == [] then RepeatToLimit(Dummy, limit) else out
  }

  /** The upstream requests `fetch_latest` issues, in order. */
  function Requests(key: string, limit: int, top: Upstream): seq<Request> {
    if key == "" then []
    else if HasArticles(SafeCall(top)) then [TopHeadlines(key, limit)]
    else [TopHeadlines(key, limit), Everything(key, limit)]
  }

  /** `fetch_latest`: the tiers in order, then the mapping loop over the first `limit` articles. */
  method FetchLatest(key: string, limit: int, top: Upstream, everything: Upstream)
    returns (out: seq<Dict>, ghost asked: seq<Request>)
    ensures out == Latest(key, limit, top, everything)
    ensures asked == Requests(key, limit, top)
  {
    asked := [];
    if key == "" {
      out := RepeatToLimit(Dummy, limit);
      return;
    }
    asked := [TopHeadlines(key, limit)];
    var data := SafeCall(top);
    if !HasArticles(data) {
      asked := asked + [Everything(key, limit)];
      data := SafeCall(everything);
    }
    assert asked == Requests(key, limit, top);
    assert data == Chosen(top, everything);
    if !HasArticles(data) {
      out := RepeatToLimit(Dummy, limit);
      return;
    }
    var arts := PyPrefix(data.value, limit);
    out := MapLoop(arts);
    if out == [] {
      out := RepeatToLimit(Dummy, limit);
    }
  }

  /** The mapping loop of `fetch_latest`, appending one mapped item per article. */
  method MapLoop(arts: seq<Dict>) returns (out: seq<Dict>)
    ensures out == MapArticles(arts)
  {
    out := [];
    var i := 0;
    while i < |arts|
      invariant 0 <= i <= |arts|
      invariant |out| == i
      invariant forall j :: 0 <= j < i ==> out[j] == MapArticle(arts[j])
    {
      out := out + [MapArticle(arts[i])];
      i := i + 1;
    }
  }

  // ---------------------------------------------------------------------
  // Properties of the gateway

  /** Without a credential: the sample list cycled to exactly `limit` items, and no request. */
  lemma NoKeyCyclesDummy(limit: int)
    requires limit >= 0
    ensures |Latest("", limit, Unreachable, Unreachable)| == limit
    ensures forall top, everything, i :: 0 <= i < limit ==>
      Latest("", limit, top, everything)[i] == Dummy[i % 5]
    ensures forall top :: Requests("", limit, top) == []
  {
  }

  /** The keyword search is requested exactly when top headlines gave no articles. */
  lemma EverythingOnlyAfterEmptyHeadlines(key: string, limit: int, top: Upstream)
    requires key != ""
    ensures |Requests(key, limit, top)| == 2 <==> !HasArticles(SafeCall(top))
    ensures Requests(key, limit, top)[0] == TopHeadlines(key, limit)
  {
  }

  /** No item in the gateway's uniform shape is a sample item. */
  lemma MappedIsNotDummy(a: Dict, j: nat)
    requires j < |Dummy|
    ensures MapArticle(a) != Dummy[j]
  {
    assert "imageUrl" in MapArticle(a);
    assert "imageUrl" !in Dummy[j];
  }

  /**
   * With a credential and a positive limit, the samples are used exactly
   * when neither tier produced articles.
   */
  lemma DummyOnlyWhenBothTiersEmpty(key: string, limit: int, top: Upstream, everything: Upstream)
    requires key != "" && limit > 0
    ensures Latest(key, limit, top, everything) == RepeatToLimit(Dummy, limit)
      <==> !HasArticles(Chosen(top, everything))
  {
    var data := Chosen(top, everything);
    if HasArticles(data) {
      var out := Latest(key, limit, top, everything);
      assert |out| > 0;
      MappedIsNotDummy(data.value[0], 0);
      assert out[0] != RepeatToLimit(Dummy, limit)[0];
    }
  }

  /**
   * With upstream data and `limit >= 0`: the first min(n, limit) upstream
   * articles, mapped, in upstream order, never padded with samples.
   */
  lemma UpstreamPrefixInOrder(key: string, limit: int, top: Upstream, everything: Upstream)
    requires key != "" && limit > 0
    requires HasArticles(Chosen(top, everything))
    ensures var arts := Chosen(top, everything).value;
      var out := Latest(key, limit, top, everything);
      && |out| == (if |arts| < limit then |arts| else limit)
      && (forall i :: 0 <= i < |out| ==> out[i] == MapArticle(arts[i]))
      && (forall i, j :: 0 <= i < |out| && 0 <= j < |Dummy| ==> out[i] != Dummy[j])
  {
    var arts := Chosen(top, everything).value;
    var out := Latest(key, limit, top, everything);
    forall i, j | 0 <= i < |out| && 0 <= j < |Dummy| ensures out[i] != Dummy[j] {
      MappedIsNotDummy(arts[i], j);
    }
  }

  /**
   * Each mapped item has exactly the five keys; the title is "" when
   * missing, None or empty; summary comes from `description` and imageUrl
   * from `urlToImage`.
   */
  lemma MappedItemShape(a: Dict)
    ensures MapArticle(a).Keys == {"title", "url", "summary", "published_at", "imageUrl"}
    ensures MapArticle(a)["title"] == if Truthy(Get(a, "title", Null)) then a["title"] else Str("")
    ensures MapArticle(a)["summary"] == Get(a, "description", Null)
    ensures MapArticle(a)["imageUrl"] == Get(a, "urlToImage", Null)
    ensures MapArticle(a)["published_at"] == Get(a, "publishedAt", Null)
  {
  }

  /** With `limit >= 0` the result never holds more than `limit` items. */
  lemma LatestBounded(key: string, limit: int, top: Upstream, everything: Upstream)
    requires limit >= 0
    ensures |Latest(key, limit, top, everything)| <= limit
  {
  }

  /**
   * A negative limit does not give an empty result when upstream data is
   * used: `articles[:limit]` drops `-limit` articles from the end.
   */
  lemma NegativeLimitDropsFromEnd(key: string, limit: int, top: Upstream, everything: Upstream)
    requires key != "" && limit < 0
    requires HasArticles(Chosen(top, everything))
    requires |Chosen(top, everything).value| + limit > 0
    ensures |Latest(key, limit, top, everything)| == |Chosen(top, everything).value| + limit
  {
  }
}
