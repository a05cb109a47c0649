/**
 * The frontend's article record and `normalize_article`, which turns an
 * article dict from the API or the mock file into a record with defaults.
 */
module FrontendSchema {
  import opened Values
  import opened Text

  /** The frontend article record; `score` is not part of this model. */
  datatype Article = Article(
    title: string,
    summary: string,
    category: string,
    url: Option<string>,
    publishedAt: Option<string>,
    imageUrl: Option<string>)

  /**
   * The dict has the types `normalize_article` needs: title and summary
   * are strings when present (`.strip()` is called on them), category a
   * string when present, and the optional fields strings or None.
   */
  predicate Normalizable(d: Dict) {
    && Get(d, "title", Str("")).Str?
    && Get(d, "summary", Str("")).Str?
    && Get(d, "category", Str("general")).Str?
    && TextOrNull(Get(d, "url", Null))
    && TextOrNull(Get(d, "publishedAt", Null))
    && TextOrNull(Get(d, "imageUrl", Null))
  }

  /**
   * `normalize_article(d)`: a present category is kept as given; each
   * optional field is set exactly when the dict holds text under its key,
   * and then holds that text; title and summary lose their outer
   * whitespace.
   */
  function NormalizeArticle(d: Dict): (r: Article)
    requires Normalizable(d)
    ensures "category" in d ==> Str(r.category) == d["category"]
    ensures r.url.Some? <==> "url" in d && d["url"].Str?
    ensures r.url.Some? ==> d["url"] == Str(r.url.value)
    ensures r.publishedAt.Some? <==> "publishedAt" in d && d["publishedAt"].Str?
    ensures r.publishedAt.Some? ==> d["publishedAt"] == Str(r.publishedAt.value)
    ensures r.imageUrl.Some? <==> "imageUrl" in d && d["imageUrl"].Str?
    ensures r.imageUrl.Some? ==> d["imageUrl"] == Str(r.imageUrl.value)
    ensures r.title == [] || (!IsSpace(r.title[0]) && !IsSpace(r.title[|r.title| - 1]))
    ensures r.summary == [] || (!IsSpace(r.summary[0]) && !IsSpace(r.summary[|r.summary| - 1]))
  {
    Article(
      Strip(Get(d, "title", Str("")).s),
      Strip(Get(d, "summary", Str("")).s),
      Get(d, "category", Str("general")).s,
      AsOptText(Get(d, "url", Null)),
      AsOptText(Get(d, "publishedAt", Null)),
      AsOptText(Get(d, "imageUrl", Null)))
  }

  /** The record as a dict under the same keys. */
  function ArticleFields(a: Article): (d: Dict)
    ensures Normalizable(d)
  {
    map[
      "title" := Str(a.title),
      "summary" := Str(a.summary),
      "category" := Str(a.category),
      "url" := OptText(a.url),
      "publishedAt" := OptText(a.publishedAt),
      "imageUrl" := OptText(a.imageUrl)]
  }

  function OptText(o: Option<string>): (v: Value)
    ensures TextOrNull(v) && AsOptText(v) == o
  {
    if o.Some? then Str(o.value) else Null
  }

  /** Missing keys take the record's defaults. */
  lemma NormalizeDefaults(d: Dict)
    requires Normalizable(d)
    ensures var a := NormalizeArticle(d);
      && ("title" !in d ==> a.title == "")
      && ("summary" !in d ==> a.summary == "")
      && ("category" !in d ==> a.category == "general")
      && ("url" !in d ==> a.url == None)
      && ("publishedAt" !in d ==> a.publishedAt == None)
      && ("imageUrl" !in d ==> a.imageUrl == None)
  {
  }

  /** Normalising a normalised article changes nothing: strip is idempotent. */
  lemma NormalizeIdempotent(d: Dict)
    requires Normalizable(d)
    ensures NormalizeArticle(ArticleFields(NormalizeArticle(d))) == NormalizeArticle(d)
  {
    var a := NormalizeArticle(d);
    NormalizeFields(a);
    StripIdempotent(Get(d, "title", Str("")).s);
    StripIdempotent(Get(d, "summary", Str("")).s);
  }

  /** Normalising a record's own fields only strips its title and summary. */
  lemma NormalizeFields(a: Article)
    ensures NormalizeArticle(ArticleFields(a)) ==
      Article(Strip(a.title), Strip(a.summary), a.category, a.url, a.publishedAt, a.imageUrl)
  {
    var f := ArticleFields(a);
    assert Get(f, "title", Str("")) == Str(a.title);
    assert Get(f, "summary", Str("")) == Str(a.summary);
    assert Get(f, "category", Str("general")) == Str(a.category);
    assert Get(f, "url", Null) == OptText(a.url);
    assert Get(f, "publishedAt", Null) == OptText(a.publishedAt);
    assert Get(f, "imageUrl", Null) == OptText(a.imageUrl);
  }

  /** Title and summary come out with neither leading nor trailing whitespace, and no longer. */
  lemma NormalizeStrips(d: Dict)
    requires Normalizable(d)
    ensures var a := NormalizeArticle(d);
      && (a.title == [] || (!IsSpace(a.title[0]) && !IsSpace(a.title[|a.title| - 1])))
      && (a.summary == [] || (!IsSpace(a.summary[0]) && !IsSpace(a.summary[|a.summary| - 1])))
      && |a.title| <= |Get(d, "title", Str("")).s|
      && |a.summary| <= |Get(d, "summary", Str("")).s|
  {
    var a := NormalizeArticle(d);
    assert a.title == Strip(Get(d, "title", Str("")).s);
    assert a.summary == Strip(Get(d, "summary", Str("")).s);
  }
}
