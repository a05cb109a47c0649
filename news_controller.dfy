/**
 * The frontend controller: fetch the article list (HTTP client with a
 * fallback to the mock client), filter it by a free-text query, sort it in
 * place, page it, and shape it for the cards, the table and the detail view.
 *
 * The cards and the detail view are modelled by the values they display
 * (after truncation); their markdown layout is not part of this model.
 */
module NewsController {
  import opened Values
  import opened Text
  import opened Sorting
  import opened ApiClient

  // ---------------------------------------------------------------------
  // Sort keys and `_apply_sort`

  /** `float(a.get("score", 0))`, or 0 when the conversion raises. */
  function ScoreNum(a: Dict): int {
    match Get(a, "score", Int(0))
    case Int(i) => i
    case Bool(b) => if b then 1 else 0
    case _ => 0
  }

  /** `key_score`. */
  function ScoreKey(a: Dict): Key {
    NumKey(ScoreNum(a))
  }

  /** `a.get("publishedAt") or ""` is a string, so dates compare with each other. */
  predicate PubIsText(a: Dict) {
    Or(Get(a, "publishedAt", Null), Str("")).Str?
  }

  /** `key_pub`: the date, with None (or any falsy value) as "". */
  function PubKey(a: Dict): Key {
    var v := Or(Get(a, "publishedAt", Null), Str(""));
    StrKey(if v.Str? then v.s else "")
  }

  /** `key_title` can be computed: the title is a string or falsy. */
  predicate TitleOk(a: Dict) {
    var t := Get(a, "title", Null);
    !Truthy(t) || t.Str?
  }

  /** `key_title`: the lower-cased title, with a falsy title as "". */
  function TitleKey(a: Dict): Key {
    var t := Get(a, "title", Null);
    StrKey(if Truthy(t) && t.Str? then Lower(t.s) else "")
  }

  /** The key `_apply_sort` uses for `sort_by`; anything unknown sorts by date. */
  function KeyFor(sortBy: string): Dict -> Key {
    if sortBy == "score" then ScoreKey
    else if sortBy == "title" then TitleKey
    else PubKey
  }

  /** With the date key, all dates are strings, so the comparisons cannot raise. */
  predicate SortableBy(s: seq<Dict>, sortBy: string) {
    sortBy != "score" && sortBy != "title" ==> forall i :: 0 <= i < |s| ==> PubIsText(s[i])
  }

  predicate AllTitlesOk(s: seq<Dict>) {
    forall i :: 0 <= i < |s| ==> TitleOk(s[i])
  }

  /**
   * What `_apply_sort(items, sort_by, order)` leaves in the list: the
   * stable sort by the chosen key, descending only for "desc"; unchanged
   * when computing a title key raises.
   */
  function Applied(s: seq<Dict>, sortBy: string, order: string): seq<Dict>
    requires SortableBy(s, sortBy)
  {
    if sortBy == "title" && !AllTitlesOk(s) then s
    else SortBy(s, KeyFor(sortBy), order == "desc")
  }

  /**
   * `_apply_sort`: the keys are computed first (an exception there leaves
   * the list as it was), then the list is sorted in place.
   */
  method ApplySort(a: array<Dict>, sortBy: string, order: string)
    requires SortableBy(a[..], sortBy)
    modifies a
    ensures a[..] == Applied(old(a[..]), sortBy, order)
  {
    var desc := order == "desc";
    if sortBy == "title" {
      var i := 0;
      while i < a.Length
        invariant 0 <= i <= a.Length
        invariant forall k :: 0 <= k < i ==> TitleOk(a[k])
      {
        if !TitleOk(a[i]) {
          return;
        }
        i := i + 1;
      }
    }
    SortInPlace(a, KeyFor(sortBy), desc);
  }

  /**
   * The sorted list is a permutation of the input, ordered by the key
   * (descending only for "desc"), and items with equal keys keep their
   * order; a failing title key leaves the list unchanged.
   */
  lemma AppliedSpec(s: seq<Dict>, sortBy: string, order: string)
    requires SortableBy(s, sortBy)
    ensures multiset(Applied(s, sortBy, order)) == multiset(s)
    ensures sortBy == "title" && !AllTitlesOk(s) ==> Applied(s, sortBy, order) == s
    ensures !(sortBy == "title" && !AllTitlesOk(s)) ==>
      && SortedBy(Applied(s, sortBy, order), KeyFor(sortBy), order == "desc")
      && forall k :: WithKey(Applied(s, sortBy, order), KeyFor(sortBy), k) == WithKey(s, KeyFor(sortBy), k)
  {
    var desc := order == "desc";
    if !(sortBy == "title" && !AllTitlesOk(s)) {
      SortByPermutes(s, KeyFor(sortBy), desc);
      SortBySorted(s, KeyFor(sortBy), desc);
      forall k {
        SortByStable(s, KeyFor(sortBy), desc, k);
      }
    }
  }

  /** An unknown `sort_by` sorts by date, and a missing date sorts as "". */
  lemma UnknownSortUsesDate(sortBy: string, a: Dict)
    requires sortBy != "score" && sortBy != "title"
    ensures KeyFor(sortBy)(a) == PubKey(a)
    ensures !Truthy(Get(a, "publishedAt", Null)) ==> PubKey(a) == StrKey("")
  {
  }

  // ---------------------------------------------------------------------
  // `_paginate`

  /** `max(1, int(page or 1))`. */
  function PageNumber(page: Option<int>): (p: int)
    ensures p >= 1
    ensures page.Some? && page.value >= 1 ==> p == page.value
    ensures page.None? || page.value < 1 ==> p == 1
  {
    if page.None? || page.value < 1 then 1 else page.value
  }

  /** `max(1, int(page_size or 10))`. */
  function PageSize(pageSize: Option<int>): (n: int)
    ensures n >= 1
    ensures pageSize.None? || pageSize == Some(0) ==> n == 10
    ensures pageSize.Some? && pageSize.value >= 1 ==> n == pageSize.value
    ensures pageSize.Some? && pageSize.value < 0 ==> n == 1
  {
    if pageSize.None? || pageSize.value == 0 then 10
    else if pageSize.value < 1 then 1
    else pageSize.value
  }

  /** Page `p` (from 1) of size `n`: `items[(p-1)*n : p*n]`. */
  function PageItems(items: seq<Dict>, p: int, n: int): seq<Dict>
    requires p >= 1 && n >= 1
  {
    MulNonNegative(p - 1, n);
    PySlice(items, (p - 1) * n, (p - 1) * n + n)
  }

  lemma MulNonNegative(a: int, b: int)
    requires a >= 0 && b >= 0
    ensures a * b >= 0
  {
  }

  datatype Paged = Paged(items: seq<Dict>, total: int)

  /** `_paginate(items, page, page_size)`. */
  function Paginate(items: seq<Dict>, page: Option<int>, pageSize: Option<int>): (r: Paged)
    ensures r.total == |items|
    ensures |r.items| <= PageSize(pageSize)
    ensures var start := (PageNumber(page) - 1) * PageSize(pageSize);
      forall k :: 0 <= k < |r.items| ==> 0 <= start + k < |items| && r.items[k] == items[start + k]
  {
    var p := PageNumber(page);
    var n := PageSize(pageSize);
    MulNonNegative(p - 1, n);
    Paged(PageItems(items, p, n), |items|)
  }

  /** Pages 1 to `count` of size `n`, one after another. */
  function FirstPages(items: seq<Dict>, n: int, count: nat): seq<Dict>
    requires n >= 1
  {
    if count == 0 then [] else FirstPages(items, n, count - 1) + PageItems(items, count, n)
  }

  /** The first `count` pages are exactly the first `count * n` items (or all of them). */
  lemma {:induction false} FirstPagesPrefix(items: seq<Dict>, n: int, count: nat)
    requires n >= 1
    ensures count * n <= |items| ==> FirstPages(items, n, count) == items[..count * n]
    ensures count * n > |items| ==> FirstPages(items, n, count) == items
  {
    if count > 0 {
      FirstPagesPrefix(items, n, count - 1);
      var lo := (count - 1) * n;
      assert count * n == lo + n;
      MulNonNegative(count - 1, n);
      if lo <= |items| {
        if count * n <= |items| {
          assert items[..count * n] == items[..lo] + items[lo..count * n];
        } else {
          assert items == items[..lo] + items[lo..];
        }
      }
    }
  }

  /**
   * Paging neither drops nor repeats an item: `|items|` pages (always
   * enough) concatenate to the whole list, in order.
   */
  lemma PagesCoverItems(items: seq<Dict>, n: int)
    requires n >= 1
    ensures FirstPages(items, n, |items|) == items
  {
    FirstPagesPrefix(items, n, |items|);
    if |items| * n <= |items| {
      assert |items| * n == |items| + |items| * (n - 1);
      MulNonNegative(|items|, n - 1);
      assert items[..|items| * n] == items;
    }
  }

  /** `_paginate` returns page `PageNumber(page)` of the pages above. */
  lemma PaginateIsPage(items: seq<Dict>, page: Option<int>, pageSize: Option<int>)
    ensures Paginate(items, page, pageSize).items == PageItems(items, PageNumber(page), PageSize(pageSize))
  {
  }

  // ---------------------------------------------------------------------
  // The query filter of `_fetch`

  /**
   * The search can test item `a` against `ql` without raising: the title
   * (when present) is a string, and the summary is one too unless the
   * title already matched, since `or` then never lowers the summary.
   */
  predicate Searchable(a: Dict, ql: string) {
    var t := Get(a, "title", Str(""));
    t.Str? && (Contains(Lower(t.s), ql) || Get(a, "summary", Str("")).Str?)
  }

  /** `ql in a.get("title","").lower() or ql in a.get("summary","").lower()`. */
  predicate QueryMatches(a: Dict, ql: string)
    requires Searchable(a, ql)
  {
    Contains(Lower(Get(a, "title", Str("")).s), ql) || Contains(Lower(Get(a, "summary", Str("")).s), ql)
  }

  function Matching(data: seq<Dict>, ql: string): (r: seq<Dict>)
    requires forall a :: a in data ==> Searchable(a, ql)
    ensures |r| <= |data|
    ensures forall a :: a in r ==> a in data
  {
    if data == [] then []
    else
      var last := data[|data| - 1];
      Matching(data[..|data| - 1], ql) + (if QueryMatches(last, ql) then [last] else [])
  }

  /** The text search of `_fetch`: no filter for an empty query. */
  function QueryFilter(data: seq<Dict>, q: string): seq<Dict>
    requires q != "" ==> forall a :: a in data ==> Searchable(a, Lower(q))
  {
    if q == "" then data else Matching(data, Lower(q))
  }

  lemma {:induction false} MatchingExact(data: seq<Dict>, ql: string)
    requires forall a :: a in data ==> Searchable(a, ql)
    ensures forall a :: a in Matching(data, ql) ==> QueryMatches(a, ql)
    ensures forall a :: a in data && QueryMatches(a, ql) ==> a in Matching(data, ql)
  {
    if data != [] {
      var init := data[..|data| - 1];
      MatchingExact(init, ql);
      assert data == init + [data[|data| - 1]];
    }
  }

  /**
   * A non-empty query keeps exactly the items whose lower-cased title or
   * summary contains the lower-cased query; an empty query keeps all.
   */
  lemma QueryFilterExact(data: seq<Dict>, q: string)
    requires q != "" ==> forall a :: a in data ==> Searchable(a, Lower(q))
    ensures q == "" ==> QueryFilter(data, q) == data
    ensures q != "" ==> forall a :: a in QueryFilter(data, q) <==> a in data && QueryMatches(a, Lower(q))
  {
    if q != "" {
      MatchingExact(data, Lower(q));
    }
  }

  /** The search ignores the case of the query: "Tech" and "TECH" find the same items. */
  lemma QueryCaseInsensitive(data: seq<Dict>, q: string, q': string)
    requires Lower(q) == Lower(q')
    requires q != "" ==> forall a :: a in data ==> Searchable(a, Lower(q))
    ensures q' != "" ==> forall a :: a in data ==> Searchable(a, Lower(q'))
    ensures QueryFilter(data, q) == QueryFilter(data, q')
  {
    assert |q| == |Lower(q)| == |Lower(q')| == |q'|;
  }

  /**
   * A title that matches spares the summary from being lowered: such an
   * item is searchable whatever its summary holds, None included.
   */
  lemma TitleMatchSparesSummary(a: Dict, ql: string)
    requires Get(a, "title", Str("")).Str? && Contains(Lower(Get(a, "title", Str("")).s), ql)
    ensures Searchable(a, ql) && QueryMatches(a, ql)
  {
  }
  // ---------------------------------------------------------------------
  // Cards, table rows and the detail view

  const CardSummaryMax: nat := 300
  const DetailSummaryMax: nat := 1200
  const Ellipsis: char := '\U{2026}'

  const NoResultsMessage: string := "\U{1F50D} לא נמצאו תוצאות עבור הקריטריונים שנבחרו."
  const NotSelectedMessage: string := "לא נבחרה כתבה."

  /** A long summary: its first `n` characters, right-stripped, then "…". */
  function Truncate(s: string, n: nat): (r: string)
    ensures |s| <= n ==> r == s
    ensures |s| > n ==>
      && 1 <= |r| <= n + 1
      && r[|r| - 1] == Ellipsis
      && r[..|r| - 1] <= s
      && (|r| == 1 || !IsSpace(r[|r| - 2]))
  {
    if |s| > n then
      var head := RStrip(s[..n]);
      assert (head + [Ellipsis])[..|head|] == head;
      head + [Ellipsis]
    else s
  }

  /** `summary` can be measured: a string, or falsy. */
  predicate SummaryShowable(a: Dict) {
    var v := Get(a, "summary", Str(""));
    !Truthy(v) || v.Str?
  }

  /** The summary as shown: truncated at `n` when it is a longer string. */
  function ShownSummary(a: Dict, n: nat): Value
    requires SummaryShowable(a)
  {
    var v := Get(a, "summary", Str(""));
    if Truthy(v) && |v.s| > n then Str(Truncate(v.s, n)) else v
  }

  /** What a card or the detail view displays; the image and the link only when truthy. */
  datatype Card = Card(
    title: Value,
    summary: Value,
    category: Value,
    score: int,
    url: Value,
    published: Value,
    image: Value)

  function CardOf(a: Dict, n: nat): Card
    requires SummaryShowable(a)
  {
    Card(Get(a, "title", Str("")), ShownSummary(a, n), Get(a, "category", Str("")), ScoreNum(a),
         Get(a, "url", Str("")), Get(a, "publishedAt", Str("")), Get(a, "imageUrl", Str("")))
  }

  /** A displayed summary is never longer than the limit plus the ellipsis. */
  lemma ShownSummaryBounded(a: Dict, n: nat)
    requires SummaryShowable(a)
    ensures var v := ShownSummary(a, n);
      v.Str? && Get(a, "summary", Str("")).Str? ==> |v.s| <= n + 1 || v == Get(a, "summary", Str(""))
    ensures var v := Get(a, "summary", Str(""));
      v.Str? && |v.s| <= n ==> ShownSummary(a, n) == v
  {
  }

  datatype CardsView = NoResults(message: string) | Cards(cards: seq<Card>)

  /** `_articles_to_cards_md`: one card per item, or the no-results message. */
  method ArticlesToCards(items: seq<Dict>) returns (v: CardsView)
    requires forall a :: a in items ==> SummaryShowable(a)
    ensures items == [] ==> v == NoResults(NoResultsMessage)
    ensures items != [] ==>
      && v.Cards? && |v.cards| == |items|
      && forall i :: 0 <= i < |items| ==> v.cards[i] == CardOf(items[i], CardSummaryMax)
  {
    if items == [] {
      return NoResults(NoResultsMessage);
    }
    var parts: seq<Card> := [];
    var i := 0;
    while i < |items|
      invariant 0 <= i <= |items|
      invariant |parts| == i
      invariant forall k :: 0 <= k < i ==> parts[k] == CardOf(items[k], CardSummaryMax)
    {
      parts := parts + [CardOf(items[i], CardSummaryMax)];
      i := i + 1;
    }
    v := Cards(parts);
  }

  datatype DetailView = NotSelected(message: string) | Detail(card: Card)

  /** `detail_by_index(data, index)`. */
  function DetailByIndex(data: seq<Dict>, index: Option<int>): (r: DetailView)
    requires index.Some? && 0 <= index.value < |data| ==> SummaryShowable(data[index.value])
    ensures r.NotSelected? <==> data == [] || index.None? || index.value < 0 || index.value >= |data|
    ensures r.NotSelected? ==> r.message == NotSelectedMessage
    ensures r.Detail? ==> r.card == CardOf(data[index.value], DetailSummaryMax)
  {
    if data == [] || index.None? || index.value < 0 || index.value >= |data| then NotSelected(NotSelectedMessage)
    else Detail(CardOf(data[index.value], DetailSummaryMax))
  }

  /** A table row: title, category, score, date and url. */
  datatype Row = Row(title: Value, category: Value, score: Value, published: Value, url: Value)

  function TableRow(a: Dict): Row {
    Row(Get(a, "title", Str("")), Get(a, "category", Str("")), Get(a, "score", Int(0)),
        Get(a, "publishedAt", Str("")), Get(a, "url", Str("")))
  }

  function TableRows(items: seq<Dict>): (r: seq<Row>)
    ensures |r| == |items|
    ensures forall i :: 0 <= i < |items| ==> r[i] == TableRow(items[i])
  {
    seq(|items|, i requires 0 <= i < |items| => TableRow(items[i]))
  }

  function Titles(items: seq<Dict>): (r: seq<Value>)
    ensures |r| == |items|
    ensures forall i :: 0 <= i < |items| ==> r[i] == Get(items[i], "title", Str(""))
  {
    seq(|items|, i requires 0 <= i < |items| => Get(items[i], "title", Str("")))
  }

  // ---------------------------------------------------------------------
  // `_fetch` and `update_all_with_state`

  /** The category `_fetch` passes on: "all" means none. */
  function CategoryArg(category: string): Option<string> {
    if category == "all" then None else Some(category)
  }

  /** `_fetch` reads the HTTP reply: the base URL is configured and the request succeeded. */
  predicate UsesReply(httpConfigured: bool, reply: Option<seq<Dict>>) {
    httpConfigured && reply.Some?
  }

  /**
   * The mock client can list under `category`: when it is the source and
   * filters, every category it lowers is a string.
   */
  predicate MockListable(mockData: seq<Dict>, httpConfigured: bool, reply: Option<seq<Dict>>, category: string) {
    !UsesReply(httpConfigured, reply) && Filtering(CategoryArg(category)) ==>
      forall a :: a in mockData ==> HasTextCategory(a)
  }

  /**
   * The list `_fetch` starts from: the HTTP client's reply when the base
   * URL is configured and the request succeeds, the mock client's listing
   * otherwise.
   */
  function Source(mockData: seq<Dict>, httpConfigured: bool, reply: Option<seq<Dict>>,
                  category: string, limit: int): seq<Dict>
    requires MockListable(mockData, httpConfigured, reply, category)
  {
    if UsesReply(httpConfigured, reply) then reply.value
    else MockListed(mockData, CategoryArg(category), limit)
  }

  /**
   * `_fetch` runs to its end: the mock listing, the search (for a non-empty
   * query) and the sort (over the items the search kept) raise nowhere.
   */
  predicate Fetchable(mockData: seq<Dict>, httpConfigured: bool, reply: Option<seq<Dict>>,
                      category: string, limit: int, q: string, sortBy: string) {
    && MockListable(mockData, httpConfigured, reply, category)
    && (q != "" ==> forall a :: a in Source(mockData, httpConfigured, reply, category, limit) ==> Searchable(a, Lower(q)))
    && SortableBy(QueryFilter(Source(mockData, httpConfigured, reply, category, limit), q), sortBy)
  }

  /** `_fetch`: source, text search, then the in-place sort. */
  function Fetched(mockData: seq<Dict>, httpConfigured: bool, reply: Option<seq<Dict>>,
                   category: string, limit: int, q: string, sortBy: string, order: string): seq<Dict>
    requires Fetchable(mockData, httpConfigured, reply, category, limit, q, sortBy)
  {
    Applied(QueryFilter(Source(mockData, httpConfigured, reply, category, limit), q), sortBy, order)
  }

  /**
   * `_fetch` returns a permutation of the source items the query keeps:
   * every source item when the query is empty, otherwise exactly those
   * whose title or summary contains it, ignoring case.
   */
  lemma FetchedSpec(mockData: seq<Dict>, httpConfigured: bool, reply: Option<seq<Dict>>,
                    category: string, limit: int, q: string, sortBy: string, order: string)
    requires Fetchable(mockData, httpConfigured, reply, category, limit, q, sortBy)
    ensures var src := Source(mockData, httpConfigured, reply, category, limit);
      multiset(Fetched(mockData, httpConfigured, reply, category, limit, q, sortBy, order)) == multiset(QueryFilter(src, q))
    ensures var src := Source(mockData, httpConfigured, reply, category, limit);
      q == "" ==> multiset(Fetched(mockData, httpConfigured, reply, category, limit, q, sortBy, order)) == multiset(src)
    ensures var src := Source(mockData, httpConfigured, reply, category, limit);
      q != "" ==> forall a :: a in Fetched(mockData, httpConfigured, reply, category, limit, q, sortBy, order) <==>
        a in src && QueryMatches(a, Lower(q))
  {
    var src := Source(mockData, httpConfigured, reply, category, limit);
    var found := QueryFilter(src, q);
    var data := Fetched(mockData, httpConfigured, reply, category, limit, q, sortBy, order);
    AppliedSpec(found, sortBy, order);
    QueryFilterExact(src, q);
    forall a ensures a in data <==> a in found {
      assert a in data <==> a in multiset(data);
      assert a in found <==> a in multiset(found);
    }
  }

  /**
   * A reply article with a title and a None summary is shown without error
   * when the query is empty: nothing lowers or measures its summary.
   */
  lemma ReplyWithoutSummaryShown(mockData: seq<Dict>, sortBy: string, order: string, page: Option<int>)
    ensures var reply := Some([map["title" := Str("x"), "summary" := Null]]);
      && Fetchable(mockData, true, reply, "all", 50, "", sortBy)
      && forall a :: a in Paginate(Fetched(mockData, true, reply, "all", 50, "", sortBy, order), page, None).items ==>
           SummaryShowable(a)
  {
    var item: Dict := map["title" := Str("x"), "summary" := Null];
    var reply := Some([item]);
    AppliedSpec([item], sortBy, order);
    var full := Fetched(mockData, true, reply, "all", 50, "", sortBy, order);
    assert multiset(full) == multiset([item]);
    forall a | a in full ensures a == item {
      assert a in multiset(full);
    }
    var items := Paginate(full, page, None).items;
    forall a | a in items ensures SummaryShowable(a) {
      var k :| 0 <= k < |items| && items[k] == a;
      var start := (PageNumber(page) - 1) * PageSize(None);
      assert full[start + k] in full;
    }
  }

  /** `_fetch(category, limit, q, sort_by, order)`. */
  method Fetch(mock: MockNewsClient, httpConfigured: bool, reply: Option<seq<Dict>>,
               category: string, limit: int, q: string, sortBy: string, order: string)
    returns (data: seq<Dict>)
    requires Fetchable(mock.data, httpConfigured, reply, category, limit, q, sortBy)
    ensures data == Fetched(mock.data, httpConfigured, reply, category, limit, q, sortBy, order)
  {
    var source: seq<Dict>;
    if httpConfigured && reply.Some? {
      source := reply.value;
    } else {
      source := mock.ListNews(CategoryArg(category), limit);
    }
    var found := QueryFilter(source, q);
    data := SortedCopy(found, sortBy, order);
  }

  /** The list `_apply_sort` sorts in place, copied into an array and back. */
  method SortedCopy(found: seq<Dict>, sortBy: string, order: string) returns (data: seq<Dict>)
    requires SortableBy(found, sortBy)
    ensures data == Applied(found, sortBy, order)
  {
    var a := new Dict[|found|](i requires 0 <= i < |found| => found[i]);
    assert a[..] == found;
    ApplySort(a, sortBy, order);
    data := a[..];
  }

  /**
   * `update_all_with_state`: the page of the fetched list, its cards, rows
   * and titles aligned one to one with the page's items, and the total
   * number of fetched items before paging. Only the page's summaries are
   * measured, so only they need to be strings or falsy.
   */
  method UpdateAllWithState(mock: MockNewsClient, httpConfigured: bool, reply: Option<seq<Dict>>,
                            category: string, limit: int, q: string, sortBy: string, order: string,
                            page: Option<int>, pageSize: Option<int>)
    returns (cards: CardsView, rows: seq<Row>, pageItems: seq<Dict>, titles: seq<Value>, total: int)
    requires Fetchable(mock.data, httpConfigured, reply, category, limit, q, sortBy)
    requires forall a :: a in Paginate(Fetched(mock.data, httpConfigured, reply, category, limit, q, sortBy, order), page, pageSize).items ==>
      SummaryShowable(a)
    ensures var full := Fetched(mock.data, httpConfigured, reply, category, limit, q, sortBy, order);
      && pageItems == Paginate(full, page, pageSize).items
      && total == |full|
    ensures |rows| == |pageItems| && |titles| == |pageItems|
    ensures forall i :: 0 <= i < |pageItems| ==>
      rows[i] == TableRow(pageItems[i]) && titles[i] == Get(pageItems[i], "title", Str(""))
    ensures pageItems == [] ==> cards == NoResults(NoResultsMessage)
    ensures pageItems != [] ==>
      && cards.Cards? && |cards.cards| == |pageItems|
      && forall i :: 0 <= i < |pageItems| ==> cards.cards[i] == CardOf(pageItems[i], CardSummaryMax)
  {
    var full := Fetch(mock, httpConfigured, reply, category, limit, q, sortBy, order);
    var paged := Paginate(full, page, pageSize);
    pageItems, total := paged.items, paged.total;
    cards := ArticlesToCards(pageItems);
    rows := TableRows(pageItems);
    titles := Titles(pageItems);
  }
}
