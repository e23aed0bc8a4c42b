/** The change-to-broadcast pipeline of the realtime server: the change
    stream's operation filter, the `change` handler that turns a change into
    one `newReading` broadcast, and that pipeline lifted over a sequence of
    changes. */
module ChangeRelay {
  import opened Values

  /** Event name under which every reading is broadcast. */
  const NEW_READING: string := "newReading"

  /** Operation types that the change stream's `$match` stage lets through. */
  const WATCHED_OPS: set<string> := {"insert", "update", "replace"}

  /** The four fields a broadcast payload is built from. */
  const READING_FIELDS: set<string> := {"frequency", "signalStrength", "classification", "timestamp"}

  /** A change notification: its operation type and the looked-up document,
      absent when the lookup found nothing (null or undefined). */
  datatype ChangeEvent = ChangeEvent(operationType: string, fullDocument: Option<Doc>)

  /** One `io.emit(event, payload)` call, with the payload as it goes over
      the wire. */
  datatype Emission = Emission(event: string, payload: map<string, Value>)

  /** The result of reading a property of a JavaScript object. */
  datatype Slot = Undefined | Defined(value: Value)

  /** The `$match` stage of the watch pipeline. */
  predicate Watched(e: ChangeEvent)
  {
    e.operationType in WATCHED_OPS
  }

  /** `doc.key`: a missing key reads as undefined. */
  function Property(doc: Doc, key: string): Slot
  {
    if key in doc then Defined(doc[key]) else Undefined
  }

  /** The object literal passed to `io.emit`: it always has all four keys,
      some of which may hold undefined. */
  function ReadingLiteral(doc: Doc): map<string, Slot>
  {
    map[
      "frequency" := Property(doc, "frequency"),
      "signalStrength" := Property(doc, "signalStrength"),
      "classification" := Property(doc, "classification"),
      "timestamp" := Property(doc, "timestamp")
    ]
  }

  /** JSON serialisation of a flat object: keys holding undefined are dropped,
      every other value is kept as it is. */
  function ToJson(obj: map<string, Slot>): map<string, Value>
  {
    map k | k in obj && obj[k].Defined? :: obj[k].value
  }

  /** The payload a stored document is broadcast as. */
  function Project(doc: Doc): (payload: map<string, Value>)
    ensures payload.Keys == doc.Keys * READING_FIELDS
    ensures forall k :: k in payload ==> payload[k] == doc[k]
  {
    ToJson(ReadingLiteral(doc))
  }

  /** What the `change` handler emits for one change it is given. */
  function HandlerOutput(e: ChangeEvent): (out: seq<Emission>)
    ensures |out| <= 1
    ensures out == [] <==> e.fullDocument.None?
    ensures forall m :: m in out ==> m == Emission(NEW_READING, Project(e.fullDocument.value))
  {
    match e.fullDocument
    case None => []
    case Some(doc) => [Emission(NEW_READING, Project(doc))]
  }

  /** What one change in the collection causes to be broadcast: the stream's
      filter, then the handler. */
  function Pipeline(e: ChangeEvent): (out: seq<Emission>)
    ensures |out| <= 1
    ensures out != [] <==> Watched(e) && e.fullDocument.Some?
    ensures forall m :: m in out ==>
      m.event == NEW_READING && m.payload.Keys <= READING_FIELDS &&
      forall k :: k in m.payload ==> k in e.fullDocument.value && m.payload[k] == e.fullDocument.value[k]
  {
    if Watched(e) then HandlerOutput(e) else []
  }

  /** Everything broadcast for a sequence of changes, in the order the
      changes arrived. */
  function Relay(es: seq<ChangeEvent>): (out: seq<Emission>)
    ensures |out| <= |es|
    ensures forall i :: 0 <= i < |out| ==> out[i].event == NEW_READING && out[i].payload.Keys <= READING_FIELDS
    decreases |es|
  {
    if es == [] then [] else Relay(es[..|es| - 1]) + Pipeline(es[|es| - 1])
  }

  /** The positions of the changes that were broadcast, oldest first. */
  ghost function Sources(es: seq<ChangeEvent>): (idx: seq<nat>)
    ensures |idx| == |Relay(es)|
    ensures forall j :: 0 <= j < |idx| ==> idx[j] < |es|
    decreases |es|
  {
    if es == [] then []
    else if Pipeline(es[|es| - 1]) == [] then Sources(es[..|es| - 1])
    else Sources(es[..|es| - 1]) + [|es| - 1]
  }

  /** Broadcasts keep the order of the changes they come from. */
  lemma {:induction false} SourcesIncreasing(es: seq<ChangeEvent>)
    ensures forall j, k :: 0 <= j < k < |Sources(es)| ==> Sources(es)[j] < Sources(es)[k]
    decreases |es|
  {
    if es != [] {
      var n := |es| - 1;
      var p := Sources(es[..n]);
      SourcesIncreasing(es[..n]);
      if Pipeline(es[n]) != [] {
        var q := Sources(es);
        assert q == p + [n];
        forall j, k | 0 <= j < k < |q| ensures q[j] < q[k] {
          if k == |p| {
            assert q[j] == p[j] < n;
          } else {
            assert q[j] == p[j] && q[k] == p[k];
          }
        }
      }
    }
  }

  /** A change is a source exactly when it passes the filter and carries a
      document: only those changes are skipped. */
  lemma {:induction false} SourcesAreBroadcastChanges(es: seq<ChangeEvent>)
    ensures forall i :: 0 <= i < |es| ==> (i in Sources(es) <==> Watched(es[i]) && es[i].fullDocument.Some?)
    decreases |es|
  {
    if es != [] {
      var n := |es| - 1;
      var prefix := es[..n];
      var p := Sources(prefix);
      SourcesAreBroadcastChanges(prefix);
      forall i | 0 <= i < |es| ensures i in Sources(es) <==> Watched(es[i]) && es[i].fullDocument.Some? {
        if i < n {
          assert prefix[i] == es[i];
          assert n !in p;
          assert i in p + [n] <==> i in p;
        } else {
          assert n !in p;
        }
      }
    }
  }

  /** Each broadcast is exactly the output of its source change. */
  lemma {:induction false} SourcesProduceBroadcasts(es: seq<ChangeEvent>)
    ensures forall j :: 0 <= j < |Sources(es)| ==> Pipeline(es[Sources(es)[j]]) == [Relay(es)[j]]
    decreases |es|
  {
    if es != [] {
      var n := |es| - 1;
      var prefix := es[..n];
      var p, r := Sources(prefix), Relay(prefix);
      SourcesProduceBroadcasts(prefix);
      assert Relay(es) == r + Pipeline(es[n]);
      forall j | 0 <= j < |Sources(es)| ensures Pipeline(es[Sources(es)[j]]) == [Relay(es)[j]] {
        if j < |p| {
          assert Sources(es)[j] == p[j];
          assert Relay(es)[j] == r[j];
          assert prefix[p[j]] == es[p[j]];
        } else {
          assert Sources(es)[j] == n;
          assert Relay(es) == r + [Relay(es)[j]];
        }
      }
    }
  }

  /** An inserted reading that also carries an `_id` is broadcast as exactly
      its four reading fields, values unchanged. */
  lemma InsertedReadingPayload()
    ensures Pipeline(ChangeEvent("insert", Some(map[
              "_id" := Str("r1"), "frequency" := Num(101.1), "signalStrength" := Num(-42.0),
              "classification" := Str("FM"), "timestamp" := Date(1700000000000)])))
         == [Emission(NEW_READING, map[
              "frequency" := Num(101.1), "signalStrength" := Num(-42.0),
              "classification" := Str("FM"), "timestamp" := Date(1700000000000)])]
  {
    var doc: Doc := map[
      "_id" := Str("r1"), "frequency" := Num(101.1), "signalStrength" := Num(-42.0),
      "classification" := Str("FM"), "timestamp" := Date(1700000000000)];
    var expected := map[
      "frequency" := Num(101.1), "signalStrength" := Num(-42.0),
      "classification" := Str("FM"), "timestamp" := Date(1700000000000)];
    assert doc.Keys * READING_FIELDS == expected.Keys;
    assert Project(doc) == expected;
  }

  lemma {:induction false} RelayAppend(a: seq<ChangeEvent>, b: seq<ChangeEvent>)
    ensures Relay(a + b) == Relay(a) + Relay(b)
    decreases |b|
  {
    if b == [] {
      assert a + b == a;
    } else {
      var b' := b[..|b| - 1];
      assert (a + b)[..|a + b| - 1] == a + b';
      assert (a + b)[|a + b| - 1] == b[|b| - 1];
      RelayAppend(a, b');
    }
  }

  /** A change that broadcasts nothing (filtered out, or without a document)
      does not stop or alter what is broadcast for the changes after it. */
  lemma SkippedChangeIsTransparent(before: seq<ChangeEvent>, e: ChangeEvent, after: seq<ChangeEvent>)
    requires !Watched(e) || e.fullDocument.None?
    ensures Relay(before + [e] + after) == Relay(before) + Relay(after)
  {
    RelayAppend(before + [e], after);
    RelayAppend(before, [e]);
    assert [e][..0] == [];
    assert Relay([e]) == Relay([]) + Pipeline(e) == [];
    assert Relay(before + [e]) == Relay(before);
  }

  /** A change that reaches the handler with a document is broadcast once,
      right after everything broadcast for the changes before it. */
  lemma {:induction false} BroadcastChangeAppends(before: seq<ChangeEvent>, e: ChangeEvent)
    requires Watched(e) && e.fullDocument.Some?
    ensures Relay(before + [e]) == Relay(before) + [Emission(NEW_READING, Project(e.fullDocument.value))]
  {
    assert (before + [e])[..|before|] == before;
  }
}
