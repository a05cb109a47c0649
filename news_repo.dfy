/**
 * The in-memory record store: a Python dict from id to record. A dict keeps
 * insertion order, and assigning to an existing key keeps that key's
 * original position, so the store is modelled as a map plus the key order.
 */
module NewsRepo {
  import opened Values
  import opened Schemas

  /** The store's contents: records by id, and the ids in insertion order. */
  datatype Store = Store(db: map<string, News>, order: seq<string>)

  /** The order lists each stored id exactly once. */
  ghost predicate Wf(s: Store) {
    && (forall i, j :: 0 <= i < j < |s.order| ==> s.order[i] != s.order[j])
    && (forall id :: id in s.db <==> id in s.order)
  }

  /** `self._db[item.id] = item`. */
  function Saved(s: Store, item: News): Store {
    Store(s.db[item.id := item], if item.id in s.db then s.order else s.order + [item.id])
  }

  /** `self._db.get(news_id)`. */
  function Lookup(s: Store, id: string): Option<News> {
    if id in s.db then Some(s.db[id]) else None
  }

  /** The records of `ids`, in that order. */
  function RecordsOf(db: map<string, News>, ids: seq<string>): (r: seq<News>)
    requires forall k :: k in ids ==> k in db
    ensures |r| == |ids|
    ensures forall i :: 0 <= i < |ids| ==> r[i] == db[ids[i]]
  {
    if ids == [] then [] else RecordsOf(db, ids[..|ids| - 1]) + [db[ids[|ids| - 1]]]
  }

  /** `list(self._db.values())`. */
  function ValuesOf(s: Store): seq<News>
    requires Wf(s)
  {
    RecordsOf(s.db, s.order)
  }

  /** `[n for n in values if n.topic == topic]`. */
  function WithTopic(values: seq<News>, topic: string): (r: seq<News>)
    ensures |r| <= |values|
  {
    if values == [] then []
    else
      var last := values[|values| - 1];
      WithTopic(values[..|values| - 1], topic) + (if last.topic == Some(topic) then [last] else [])
  }

  /** `list(topic, limit)`: a truthy topic filters; then the first `limit` records. */
  function Listed(s: Store, topic: Option<string>, limit: int): seq<News>
    requires Wf(s)
  {
    var values := ValuesOf(s);
    var filtered := if topic.Some? && topic.value != "" then WithTopic(values, topic.value) else values;
    PyPrefix(filtered, limit)
  }

  class InMemoryNewsRepository {
    var db: map<string, News>
    var order: seq<string>

    function State(): Store
      reads this
    {
      Store(db, order)
    }

    ghost predicate Valid()
      reads this
    {
      Wf(State())
    }

    constructor ()
      ensures Valid() && State() == Store(map[], [])
    {
      db := map[];
      order := [];
    }

    method Save(item: News)
      requires Valid()
      modifies this
      ensures Valid()
      ensures State() == Saved(old(State()), item)
    {
      if item.id !in db {
        order := order + [item.id];
      }
      db := db[item.id := item];
      SavedWf(old(State()), item);
    }

    method Get(newsId: string) returns (r: Option<News>)
      ensures r == Lookup(State(), newsId)
    {
      r := if newsId in db then Some(db[newsId]) else None;
    }

    method List(topic: Option<string>, limit: int) returns (r: seq<News>)
      requires Valid()
      ensures r == Listed(State(), topic, limit)
    {
      var values := RecordsOf(db, order);
      if topic.Some? && topic.value != "" {
        values := WithTopic(values, topic.value);
      }
      r := PyPrefix(values, limit);
    }
  }

  // ---------------------------------------------------------------------
  // Properties of the store

  lemma SavedWf(s: Store, item: News)
    requires Wf(s)
    ensures Wf(Saved(s, item))
  {
  }

  /** After `save(item)`, `get(item.id)` is `item`; every other id reads as before. */
  lemma SaveThenGet(s: Store, item: News)
    ensures Lookup(Saved(s, item), item.id) == Some(item)
    ensures forall id :: id != item.id ==> Lookup(Saved(s, item), id) == Lookup(s, id)
  {
  }

  /** Saving a new id appends its record at the end of the listing order. */
  lemma SaveNewAppends(s: Store, item: News)
    requires Wf(s) && item.id !in s.db
    ensures Wf(Saved(s, item))
    ensures ValuesOf(Saved(s, item)) == ValuesOf(s) + [item]
  {
    var s' := Saved(s, item);
    SavedWf(s, item);
    assert s'.order[..|s'.order| - 1] == s.order;
    RecordsOfFrame(s.db, s'.db, s.order);
  }

  /**
   * Saving an existing id overwrites in place: no second entry, and the
   * record keeps its original position.
   */
  lemma SaveExistingInPlace(s: Store, item: News)
    requires Wf(s) && item.id in s.db
    ensures Wf(Saved(s, item))
    ensures |ValuesOf(Saved(s, item))| == |ValuesOf(s)|
    ensures forall i :: 0 <= i < |s.order| ==>
      ValuesOf(Saved(s, item))[i] == if s.order[i] == item.id then item else ValuesOf(s)[i]
  {
    SavedWf(s, item);
  }

  lemma {:induction false} RecordsOfFrame(db: map<string, News>, db': map<string, News>, ids: seq<string>)
    requires forall k :: k in ids ==> k in db && k in db' && db[k] == db'[k]
    ensures RecordsOf(db, ids) == RecordsOf(db', ids)
  {
    if ids != [] {
      RecordsOfFrame(db, db', ids[..|ids| - 1]);
    }
  }

  /** Every record `WithTopic` keeps has that topic, and it keeps all such records in order. */
  lemma {:induction false} WithTopicExact(values: seq<News>, topic: string)
    ensures forall n :: n in WithTopic(values, topic) ==> n in values && n.topic == Some(topic)
    ensures forall n :: n in values && n.topic == Some(topic) ==> n in WithTopic(values, topic)
  {
    if values != [] {
      var init := values[..|values| - 1];
      WithTopicExact(init, topic);
      assert values == init + [values[|values| - 1]];
    }
  }

  /**
   * `list(topic, limit)` with a truthy topic returns only records of that
   * topic; with `limit >= 0` it holds at most `limit` records, a prefix of
   * the (filtered) values in insertion order.
   */
  lemma ListedSpec(s: Store, topic: Option<string>, limit: int)
    requires Wf(s)
    ensures topic.Some? && topic.value != "" ==>
      forall n :: n in Listed(s, topic, limit) ==> n.topic == topic
    ensures topic.Some? && topic.value != "" ==>
      Listed(s, topic, limit) <= WithTopic(ValuesOf(s), topic.value)
    ensures topic.None? || topic == Some("") ==> Listed(s, topic, limit) <= ValuesOf(s)
    ensures limit >= 0 ==> |Listed(s, topic, limit)| <= limit
  {
    if topic.Some? && topic.value != "" {
      WithTopicExact(ValuesOf(s), topic.value);
    }
  }
}
