/**
 * The enrichment engine: topic classification and named-entity extraction
 * on top of two pre-trained pipelines. The pipelines are foreign models and
 * appear here as function parameters (oracles).
 */
module Nlp {
  import opened Values
  import Schemas

  /**
   * What the zero-shot pipeline returned: a dict whose `labels` entry is
   * absent or a list of labels ranked best first, or something that is not
   * a dict at all.
   */
  datatype ZeroShotResult = NotADict | Ranking(labels: Option<seq<string>>)

  /** One grouped entity from the NER pipeline; absent keys are `None`. */
  datatype NerEntity = NerEntity(word: Option<string>, entityGroup: Option<string>)

  /** `classify_topic`: the top-ranked label, or the first category when there is no usable ranking. */
  function ClassifyTopic(zeroShot: (string, seq<string>) -> ZeroShotResult, text: string): (topic: string)
    ensures var res := zeroShot(text, Schemas.Categories);
      topic == if res.Ranking? && res.labels.Some? && res.labels.value != []
               then res.labels.value[0] else "Politics"
  {
    var res := zeroShot(text, Schemas.Categories);
    if res.Ranking? && res.labels.Some? && res.labels.value != [] then res.labels.value[0]
    else Schemas.Categories[0]
  }

  /** When the pipeline ranks only candidate labels, the topic is a category. */
  lemma TopicIsCategory(zeroShot: (string, seq<string>) -> ZeroShotResult, text: string)
    requires var res := zeroShot(text, Schemas.Categories);
      res.Ranking? && res.labels.Some? ==>
        forall l :: l in res.labels.value ==> l in Schemas.Categories
    ensures ClassifyTopic(zeroShot, text) in Schemas.Categories
  {
  }

  /** `e.get("word") or e.get("entity_group") or ""`. */
  function Surface(e: NerEntity): string {
    if e.word.Some? && e.word.value != "" then e.word.value
    else if e.entityGroup.Some? && e.entityGroup.value != "" then e.entityGroup.value
    else ""
  }

  /** The non-empty surface forms, in tagger order, without deduplication. */
  function Surfaces(ents: seq<NerEntity>): (out: seq<string>)
    ensures |out| <= |ents|
    ensures forall i :: 0 <= i < |out| ==> out[i] != ""
  {
    if ents == [] then []
    else
      var w := Surface(ents[|ents| - 1]);
      Surfaces(ents[..|ents| - 1]) + (if w != "" then [w] else [])
  }

  /**
   * `extract_entities(text, max_chars=800)`: the tagger sees only
   * `text[:max_chars]`, and its entities are kept when their surface is non-empty.
   */
  method ExtractEntities(ner: string -> seq<NerEntity>, text: string, maxChars: int := 800)
    returns (out: seq<string>)
    ensures out == Surfaces(ner(PyPrefix(text, maxChars)))
  {
    var ents := ner(PyPrefix(text, maxChars));
    out := [];
    var i := 0;
    while i < |ents|
      invariant 0 <= i <= |ents|
      invariant out == Surfaces(ents[..i])
    {
      var w := Surface(ents[i]);
      if w != "" {
        out := out + [w];
      }
      assert ents[..i + 1][..i] == ents[..i];
      i := i + 1;
    }
    assert ents[..|ents|] == ents;
  }

  /** Extraction distributes over concatenation: repeated mentions are all kept, in order. */
  lemma {:induction false} SurfacesAppend(a: seq<NerEntity>, b: seq<NerEntity>)
    ensures Surfaces(a + b) == Surfaces(a) + Surfaces(b)
  {
    if b != [] {
      var ab := a + b;
      assert ab[..|ab| - 1] == a + b[..|b| - 1];
      assert ab[|ab| - 1] == b[|b| - 1];
      SurfacesAppend(a, b[..|b| - 1]);
    } else {
      assert a + b == a;
    }
  }

  /** Every output is the surface of some tagger entity, and order is kept. */
  lemma {:induction false} SurfacesAreSurfaces(ents: seq<NerEntity>, k: nat)
    requires k < |Surfaces(ents)|
    ensures exists i :: 0 <= i < |ents| && Surfaces(ents)[k] == Surface(ents[i])
  {
    var init := ents[..|ents| - 1];
    if k < |Surfaces(init)| {
      SurfacesAreSurfaces(init, k);
      var i :| 0 <= i < |init| && Surfaces(init)[k] == Surface(init[i]);
      assert ents[i] == init[i];
    } else {
      assert Surfaces(ents)[k] == Surface(ents[|ents| - 1]);
    }
  }

  /** Input no longer than `max_chars` reaches the tagger unchanged. */
  lemma ShortTextUntruncated(text: string, maxChars: int)
    requires |text| <= maxChars
    ensures PyPrefix(text, maxChars) == text
  {
  }
}
