/**
 * The frontend's data clients: a mock client over a fixed article list,
 * and an HTTP client for the backend. The mock file's contents are the
 * client's data; the HTTP reply is a parameter (`None` when the request
 * raises or the status is an error).
 */
module ApiClient {
  import opened Values
  import opened Text

  /** A category argument that filters: truthy and not "all". */
  predicate Filtering(category: Option<string>) {
    category.Some? && category.value != "" && category.value != "all"
  }

  /** `a.get("category", "")` is a string, so `.lower()` can be called on it. */
  predicate HasTextCategory(a: Dict) {
    Get(a, "category", Str("")).Str?
  }

  /** `a.get("category","").lower() == category.lower()`. */
  predicate CategoryMatches(a: Dict, category: string)
    requires HasTextCategory(a)
  {
    Lower(Get(a, "category", Str("")).s) == Lower(category)
  }

  /** The comprehension `[a for a in items if CategoryMatches(a, category)]`. */
  function WithCategory(items: seq<Dict>, category: string): (r: seq<Dict>)
    requires forall a :: a in items ==> HasTextCategory(a)
    ensures |r| <= |items|
    ensures forall a :: a in r ==> a in items
  {
    if items == [] then []
    else
      var init := items[..|items| - 1];
      var last := items[|items| - 1];
      WithCategory(init, category) + (if CategoryMatches(last, category) then [last] else [])
  }

  /** `MockNewsClient.list_news(category, limit)` over the client's data. */
  function MockListed(data: seq<Dict>, category: Option<string>, limit: int): (r: seq<Dict>)
    requires Filtering(category) ==> forall a :: a in data ==> HasTextCategory(a)
  {
    var items := if Filtering(category) then WithCategory(data, category.value) else data;
    PyPrefix(items, limit)
  }

  /** The mock client: the article list read from the mock file at construction. */
  class MockNewsClient {
    const data: seq<Dict>

    constructor (data: seq<Dict>)
      ensures this.data == data
    {
      this.data := data;
    }

    method ListNews(category: Option<string>, limit: int) returns (r: seq<Dict>)
      requires Filtering(category) ==> forall a :: a in data ==> HasTextCategory(a)
      ensures r == MockListed(data, category, limit)
    {
      var items := data;
      if Filtering(category) {
        items := WithCategory(items, category.value);
      }
      r := PyPrefix(items, limit);
    }
  }

  /** `(base_url or "").rstrip("/")`. */
  function NormalizeBase(base: Option<string>): string {
    RStripChar(if base.Some? then base.value else "", '/')
  }

  /** The HTTP client: the backend's base URL without trailing slashes. */
  class HttpNewsClient {
    var baseUrl: string

    constructor (base: Option<string>)
      ensures baseUrl == NormalizeBase(base)
    {
      baseUrl := NormalizeBase(base);
    }

    /** The query of `list_news`: limit always, category only when it filters. */
    method Params(category: Option<string>, limit: int) returns (params: map<string, Value>)
      ensures params.Keys == if Filtering(category) then {"limit", "category"} else {"limit"}
      ensures params["limit"] == Int(limit)
      ensures Filtering(category) ==> params["category"] == Str(category.value)
    {
      params := map["limit" := Int(limit)];
      if Filtering(category) {
        params := params["category" := Str(category.value)];
      }
    }

    /**
     * `list_news(category, limit)`: the GET it issues and its outcome;
     * `reply` is the decoded body, or `None` when the call raises.
     */
    method ListNews(category: Option<string>, limit: int, reply: Option<seq<Dict>>)
      returns (req: Request, r: Option<seq<Dict>>)
      ensures req.url == baseUrl + "/news"
      ensures req.params.Keys == if Filtering(category) then {"limit", "category"} else {"limit"}
      ensures req.params["limit"] == Int(limit)
      ensures Filtering(category) ==> req.params["category"] == Str(category.value)
      ensures r == reply
    {
      var params := Params(category, limit);
      req := Request(baseUrl + "/news", params);
      r := reply;
    }
  }

  // ---------------------------------------------------------------------
  // Properties of the clients

  /** The category filter keeps exactly the items whose category matches, ignoring ASCII case. */
  lemma {:induction false} WithCategoryExact(items: seq<Dict>, category: string)
    requires forall a :: a in items ==> HasTextCategory(a)
    ensures forall a :: a in WithCategory(items, category) ==> CategoryMatches(a, category)
    ensures forall a :: a in items && CategoryMatches(a, category) ==> a in WithCategory(items, category)
  {
    if items != [] {
      var init := items[..|items| - 1];
      WithCategoryExact(init, category);
      assert items == init + [items[|items| - 1]];
    }
  }

  /** The filter keeps data order: it distributes over concatenation. */
  lemma {:induction false} WithCategoryAppend(a: seq<Dict>, b: seq<Dict>, category: string)
    requires forall x :: x in a + b ==> HasTextCategory(x)
    ensures WithCategory(a + b, category) == WithCategory(a, category) + WithCategory(b, category)
  {
    if b == [] {
      assert a + b == a;
    } else {
      var ab := a + b;
      assert ab[..|ab| - 1] == a + b[..|b| - 1];
      WithCategoryAppend(a, b[..|b| - 1], category);
    }
  }

  /**
   * No filter for None, "" or "all"; with `limit >= 0` at most `limit`
   * items, a prefix of the (filtered) data; and a filtered listing holds
   * only matching items.
   */
  lemma MockListedSpec(data: seq<Dict>, category: Option<string>, limit: int)
    requires Filtering(category) ==> forall a :: a in data ==> HasTextCategory(a)
    ensures !Filtering(category) ==> MockListed(data, category, limit) <= data
    ensures Filtering(category) ==> MockListed(data, category, limit) <= WithCategory(data, category.value)
    ensures limit >= 0 ==> |MockListed(data, category, limit)| <= limit
    ensures Filtering(category) ==>
      forall a :: a in MockListed(data, category, limit) ==> CategoryMatches(a, category.value)
  {
    if Filtering(category) {
      WithCategoryExact(data, category.value);
    }
  }

  /** Matching ignores the case of the argument: "Tech" and "tech" list the same items. */
  lemma CategoryCaseInsensitive(data: seq<Dict>, category: string, limit: int)
    requires forall a :: a in data ==> HasTextCategory(a)
    requires category != "" && Lower(category) != "all" && category != "all"
    ensures MockListed(data, Some(category), limit) == MockListed(data, Some(Lower(category)), limit)
  {
    LowerIdempotent(category);
    WithCategoryLower(data, category);
  }

  lemma {:induction false} WithCategoryLower(items: seq<Dict>, category: string)
    requires forall a :: a in items ==> HasTextCategory(a)
    requires Lower(Lower(category)) == Lower(category)
    ensures WithCategory(items, category) == WithCategory(items, Lower(category))
  {
    if items != [] {
      WithCategoryLower(items[..|items| - 1], category);
    }
  }

  /**
   * The base URL has no trailing '/', and the configured value is that
   * URL followed by slashes only; normalising again changes nothing.
   */
  lemma NormalizeBaseSpec(base: Option<string>)
    ensures var b := NormalizeBase(base);
      var raw := if base.Some? then base.value else "";
      && (b == [] || b[|b| - 1] != '/')
      && b <= raw
      && (forall i :: |b| <= i < |raw| ==> raw[i] == '/')
      && NormalizeBase(Some(b)) == b
  {
  }
}
