/**
 * The backend's record types: the fixed category set and the stored news
 * record (`News`).
 */
module Schemas {
  import opened Values

  /** The fixed category set; the classifier's default is its first member. */
  const Categories: seq<string> := ["Politics", "Finance", "Science", "Culture", "Sport"]

  /** A stored, enriched news record. `id` is its sole lookup key. */
  datatype News = News(
    id: string,
    title: string,
    summary: Option<string>,
    url: Option<string>,
    publishedAt: Option<string>,
    topic: Option<string>,
    entities: seq<string>,
    imageUrl: Option<string>)

  function OptToValue(o: Option<string>): Value {
    match o
    case Some(s) => Str(s)
    case None => Null
  }

  /** A record's fields as a dict, under the record's own field names. */
  function NewsFields(n: News): (d: Dict)
    ensures d.Keys == {"id", "title", "summary", "url", "published_at", "topic", "entities", "imageUrl"}
  {
    map[
      "id" := Str(n.id),
      "title" := Str(n.title),
      "summary" := OptToValue(n.summary),
      "url" := OptToValue(n.url),
      "published_at" := OptToValue(n.publishedAt),
      "topic" := OptToValue(n.topic),
      "entities" := Arr(seq(|n.entities|, i requires 0 <= i < |n.entities| => Str(n.entities[i]))),
      "imageUrl" := OptToValue(n.imageUrl)]
  }
}
