/**
 * The stream consumer: decode each message value, skip the falsy ones and
 * make exactly one insert attempt with each other decoded object; an insert
 * failure is logged and the loop goes on.
 *
 * The stream is modelled as the finite sequence of message values read so
 * far (`None` for a message without a value), the UTF-8/JSON decoder as an
 * oracle, and the document collection as logs of insert attempts and
 * stored documents.
 */
module Consumer {
  import opened Values

  /** `safe_json_load`: `None` for a falsy message and for anything the decoder rejects. */
  function SafeJsonLoad(msg: Option<seq<Byte>>, decode: seq<Byte> -> Option<Value>): (v: Value)
    ensures msg.None? || msg.value == [] ==> v == Null
    ensures msg.Some? && decode(msg.value).None? ==> v == Null
    ensures msg.Some? && msg.value != [] && decode(msg.value).Some? ==> v == decode(msg.value).value
  {
    match msg
    case None => Null
    case Some(bytes) =>
      if bytes == [] then Null
      else match decode(bytes)
        case None => Null
        case Some(v) => v
  }

  /** The document collection: every `insert_one` call and every document it stored. */
  class Collection {
    ghost var attempts: seq<Value>
    ghost var stored: seq<Value>

    constructor ()
      ensures attempts == [] && stored == []
    {
      attempts := [];
      stored := [];
    }

    method InsertOne(doc: Value, fails: bool) returns (ok: bool)
      modifies this
      ensures ok == !fails
      ensures attempts == old(attempts) + [doc]
      ensures stored == if fails then old(stored) else old(stored) + [doc]
    {
      ok := !fails;
      attempts := attempts + [doc];
      if !fails {
        stored := stored + [doc];
      }
    }
  }

  /** The decoded values of a run of messages. */
  function Decoded(msgs: seq<Option<seq<Byte>>>, decode: seq<Byte> -> Option<Value>): (r: seq<Value>)
    ensures |r| == |msgs|
    ensures forall i :: 0 <= i < |msgs| ==> r[i] == SafeJsonLoad(msgs[i], decode)
  {
    seq(|msgs|, i requires 0 <= i < |msgs| => SafeJsonLoad(msgs[i], decode))
  }

  /** The insert attempts for a run of decoded values: the truthy ones, in order. */
  function Inserts(values: seq<Value>): (r: seq<Value>)
    ensures |r| <= |values|
  {
    if values == [] then []
    else
      var last := values[|values| - 1];
      Inserts(values[..|values| - 1]) + (if Truthy(last) then [last] else [])
  }

  /**
   * The documents that reach the collection for a run of decoded values:
   * the truthy ones whose insert does not raise, in order.
   */
  function Saves(values: seq<Value>, insertFails: nat -> bool): (r: seq<Value>)
    ensures |r| <= |Inserts(values)|
  {
    if values == [] then []
    else
      var i := |values| - 1;
      Saves(values[..i], insertFails) + (if Truthy(values[i]) && !insertFails(i) then [values[i]] else [])
  }

  /**
   * Where the loop stops: the first message whose decoded value is truthy
   * but not a dict, for `data.get` raises outside the try block there;
   * `|values|` when there is none.
   */
  function Stop(values: seq<Value>, from: nat := 0): (k: nat)
    requires from <= |values|
    ensures from <= k <= |values|
    ensures forall j :: from <= j < k ==> !Truthy(values[j]) || values[j].Obj?
    ensures k < |values| ==> Truthy(values[k]) && !values[k].Obj?
    decreases |values| - from
  {
    if from == |values| || (Truthy(values[from]) && !values[from].Obj?) then from
    else Stop(values, from + 1)
  }

  /**
   * The consume loop over the messages read so far. `insertFails(i)` says
   * whether the insert for message `i` raises. Returns the index of the
   * message at which the process died, if any.
   */
  method Consume(msgs: seq<Option<seq<Byte>>>, decode: seq<Byte> -> Option<Value>,
                 collection: Collection, insertFails: nat -> bool)
    returns (crashedAt: Option<nat>)
    modifies collection
    ensures var values := Decoded(msgs, decode);
      var k := Stop(values);
      && crashedAt == (if k < |msgs| then Some(k) else None)
      && collection.attempts == old(collection.attempts) + Inserts(values[..k])
      && collection.stored == old(collection.stored) + Saves(values[..k], insertFails)
  {
    ghost var values := Decoded(msgs, decode);
    var i := 0;
    while i < |msgs|
      invariant 0 <= i <= |msgs|
      invariant forall j :: 0 <= j < i ==> !Truthy(values[j]) || values[j].Obj?
      invariant collection.attempts == old(collection.attempts) + Inserts(values[..i])
      invariant collection.stored == old(collection.stored) + Saves(values[..i], insertFails)
    {
      var data := SafeJsonLoad(msgs[i], decode);
      assert values[..i + 1] == values[..i] + [data];
      assert values[..i + 1][..i] == values[..i];
      if !Truthy(data) {
        i := i + 1;
        continue;
      }
      if !data.Obj? {
        // `data.get("title", ...)` raises AttributeError outside the try block
        StopIsFirst(values, i);
        return Some(i);
      }
      var _ := collection.InsertOne(data, insertFails(i));
      i := i + 1;
    }
    assert values[..|msgs|] == values;
    StopNone(values);
    return None;
  }

  lemma StopIsFirst(values: seq<Value>, i: nat)
    requires i < |values| && Truthy(values[i]) && !values[i].Obj?
    requires forall j :: 0 <= j < i ==> !Truthy(values[j]) || values[j].Obj?
    ensures Stop(values) == i
  {
  }

  lemma StopNone(values: seq<Value>)
    requires forall j :: 0 <= j < |values| ==> !Truthy(values[j]) || values[j].Obj?
    ensures Stop(values) == |values|
  {
  }

  /** Only truthy decoded values are inserted, and only values that were decoded. */
  lemma {:induction false} InsertsTruthy(values: seq<Value>)
    ensures forall v :: v in Inserts(values) ==> Truthy(v) && v in values
  {
    if values != [] {
      var init := values[..|values| - 1];
      InsertsTruthy(init);
      assert forall v :: v in init ==> v in values;
    }
  }

  /** A message that decodes to a falsy value (None, {}, [], ...) causes no insert. */
  lemma {:induction false} FalsyCausesNoInsert(values: seq<Value>, v: Value)
    requires !Truthy(v)
    ensures Inserts(values + [v]) == Inserts(values)
  {
    assert (values + [v])[..|values|] == values;
  }

  /** No deduplication: the same object twice gives two insert attempts. */
  lemma {:induction false} DuplicatesInsertedTwice(values: seq<Value>, v: Value)
    requires Truthy(v)
    ensures Inserts(values + [v, v]) == Inserts(values) + [v, v]
  {
    var w := values + [v];
    assert (values + [v, v])[..|w|] == w;
    assert w[..|values|] == values;
  }

  /** Inserts over consecutive runs of the stream concatenate, so the stream order is kept. */
  lemma {:induction false} InsertsAppend(a: seq<Value>, b: seq<Value>)
    ensures Inserts(a + b) == Inserts(a) + Inserts(b)
  {
    if b == [] {
      assert a + b == a;
    } else {
      var ab := a + b;
      var init := b[..|b| - 1];
      var last := b[|b| - 1];
      var t := if Truthy(last) then [last] else [];
      assert ab[..|ab| - 1] == a + init && ab[|ab| - 1] == last;
      InsertsAppend(a, init);
      assert Inserts(ab) == Inserts(a) + Inserts(init) + t;
      assert Inserts(b) == Inserts(init) + t;
    }
  }

  /**
   * A failed insert costs only its own document: with no failures every
   * insert attempt is stored, and a failing message adds nothing while
   * the later ones are still stored.
   */
  lemma {:induction false} SavesWithoutFailures(values: seq<Value>, insertFails: nat -> bool)
    requires forall i :: 0 <= i < |values| ==> !insertFails(i)
    ensures Saves(values, insertFails) == Inserts(values)
  {
    if values != [] {
      SavesWithoutFailures(values[..|values| - 1], insertFails);
    }
  }

  /** A message whose insert raises stores nothing; the next message's document is still stored. */
  lemma FailedInsertSkipped(values: seq<Value>, v: Value, w: Value, insertFails: nat -> bool)
    requires Truthy(v) && insertFails(|values|)
    requires Truthy(w) && !insertFails(|values| + 1)
    ensures Saves(values + [v, w], insertFails) == Saves(values, insertFails) + [w]
  {
    var s1 := values + [v];
    var s2 := s1 + [w];
    assert values + [v, w] == s2;
    assert s2[..|s1|] == s1 && s2[|s1|] == w;
    assert Saves(s2, insertFails) == Saves(s1, insertFails) + [w];
    assert s1[..|values|] == values && s1[|values|] == v;
    assert Saves(s1, insertFails) == Saves(values, insertFails);
  }
}
