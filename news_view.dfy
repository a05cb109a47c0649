/**
 * The backend's outbound view: a stored record's fields renamed to the
 * names the frontend reads, with defaults for missing ones.
 */
module NewsView {
  import opened Values
  import Schemas

  /** The keys of every rendered item. */
  const RenderedKeys: set<string> :=
    {"id", "title", "summary", "url", "publishedAt", "category", "entities", "score"}

  /** `render_news(item)`. The float default `0.0` of score is the integer 0 here. */
  function RenderNews(item: Dict): (r: Dict)
    ensures r.Keys == RenderedKeys
    ensures Truthy(r["publishedAt"]) <==> Truthy(Get(item, "published_at", Null))
    ensures Truthy(r["category"]) <==> Truthy(Get(item, "topic", Null))
  {
    map[
      "id" := Get(item, "id", Null),
      "title" := Get(item, "title", Str("")),
      "summary" := Get(item, "summary", Str("")),
      "url" := Get(item, "url", Str("")),
      "publishedAt" := Or(Get(item, "published_at", Null), Str("")),
      "category" := Or(Get(item, "topic", Null), Str("")),
      "entities" := Get(item, "entities", Arr([])),
      "score" := Get(item, "score", Int(0))]
  }

  /** `render_list(items)`: elementwise, same length and order. */
  function RenderList(items: seq<Dict>): (r: seq<Dict>)
    ensures |r| == |items|
    ensures forall i :: 0 <= i < |items| ==> r[i] == RenderNews(items[i])
  {
    seq(|items|, i requires 0 <= i < |items| => RenderNews(items[i]))
  }

  /** Missing fields take their defaults; id passes through and is None when absent. */
  lemma RenderDefaults(item: Dict)
    ensures "title" !in item ==> RenderNews(item)["title"] == Str("")
    ensures "summary" !in item ==> RenderNews(item)["summary"] == Str("")
    ensures "entities" !in item ==> RenderNews(item)["entities"] == Arr([])
    ensures "score" !in item ==> RenderNews(item)["score"] == Int(0)
    ensures RenderNews(item)["id"] == Get(item, "id", Null)
    ensures !Truthy(Get(item, "published_at", Null)) ==> RenderNews(item)["publishedAt"] == Str("")
    ensures !Truthy(Get(item, "topic", Null)) ==> RenderNews(item)["category"] == Str("")
  {
  }

  /**
   * Rendering the field dict of a stored record (what `model_dump()` would
   * give): its publication date and topic reach the frontend names, a
   * missing date or topic becomes "", and score (which a record does not
   * have) is 0. The backend routes pass the record object itself, which
   * has no `.get`; this lemma is about the dict form only.
   */
  lemma RenderRecordFields(n: Schemas.News)
    ensures var r := RenderNews(Schemas.NewsFields(n));
      && r["id"] == Str(n.id)
      && r["title"] == Str(n.title)
      && r["publishedAt"] == (if n.publishedAt.Some? && n.publishedAt.value != "" then Str(n.publishedAt.value) else Str(""))
      && r["category"] == (if n.topic.Some? && n.topic.value != "" then Str(n.topic.value) else Str(""))
      && r["score"] == Int(0)
      && r["entities"].Arr? && |r["entities"].items| == |n.entities|
  {
  }
}
