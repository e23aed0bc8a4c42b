/** The realtime server's mutable state: the module-level `mongoClient`,
    whether the change stream's handler is registered, and the broadcasts made
    so far; plus the `/getRF` route's guard and response mapping. */
module RealtimeServer {
  import opened Values
  import opened ChangeRelay
  import Snapshot

  /** Error text `/getRF` answers with when `mongoClient` is unset. */
  const NOT_CONNECTED: string := "Mongo not connected"

  /** How `connectMongo` gets on: the `MongoClient` constructor throws, the
      constructor succeeds but `connect()` rejects, or it connects. Either
      failure is caught and only logged. */
  datatype ConnectOutcome = ConstructorThrows | ConnectRejects | Connected

  /** What the driver's `find().sort().limit().toArray()` settles to: the
      documents, or a thrown error with its message. */
  datatype QueryResult = QueryOk(docs: seq<Doc>) | QueryErr(message: string)

  /** The JSON bodies `/getRF` sends: `{success: true, data}` or
      `{success: false, error}`. */
  datatype Body = Success(data: seq<Doc>) | Failure(error: string)

  datatype Response = Response(status: nat, body: Body)

  /** The response `/getRF` sends, given whether `mongoClient` is set and
      what the query settled to. */
  function GetRFResponse(clientSet: bool, query: QueryResult): (res: Response)
    ensures res.status == (if res.body.Success? then 200 else 500)
    ensures res.body == Failure(NOT_CONNECTED) <==> !clientSet || query == QueryErr(NOT_CONNECTED)
    ensures clientSet ==> (res.body.Success? <==> query.QueryOk?)
    ensures clientSet && query.QueryOk? ==> res.body.data == query.docs
    ensures clientSet && query.QueryErr? ==> res.body.error == query.message
  {
    if !clientSet then Response(500, Failure(NOT_CONNECTED))
    else match query
      case QueryOk(docs) => Response(200, Success(docs))
      case QueryErr(message) => Response(500, Failure(message))
  }

  /** When the query meets its contract, a successful `/getRF` returns at most
      50 readings, newest first, and exactly 50 when the collection holds at
      least that many. */
  lemma GetRFServesLatestPage(store: seq<Doc>, page: seq<Doc>)
    requires Snapshot.IsLatestPage(store, page)
    ensures GetRFResponse(true, QueryOk(page)) == Response(200, Success(page))
    ensures |page| <= Snapshot.LIMIT && Snapshot.NewestFirst(page)
    ensures |store| >= Snapshot.LIMIT ==> |page| == Snapshot.LIMIT
  {
  }

  class Server {
    /** `mongoClient` has been assigned. */
    var clientSet: bool
    /** The change stream is open and its `change` handler registered. */
    var watching: bool
    /** Every `io.emit` call so far, oldest first. */
    var emitted: seq<Emission>
    /** The changes the collection has seen since the change stream opened. */
    ghost var history: seq<ChangeEvent>

    /** What has been broadcast is exactly the relay of the changes seen. */
    ghost predicate Valid()
      reads this
    {
      && (watching ==> clientSet)
      && (!watching ==> history == [])
      && emitted == Relay(history)
    }

    /** The module's state before `connectMongo()` runs: `mongoClient` is
        undefined and nothing is registered. */
    constructor ()
      ensures Valid()
      ensures !clientSet && !watching && emitted == []
    {
      clientSet, watching, emitted := false, false, [];
      history := [];
    }

    /** `connectMongo()`. The client is assigned before `connect()` is
        awaited, so a rejected connect still leaves it set; the change stream
        is opened only once `connect()` has resolved. */
    method ConnectMongo(outcome: ConnectOutcome)
      requires Valid() && !watching
      modifies this
      ensures Valid()
      ensures clientSet == (old(clientSet) || !outcome.ConstructorThrows?)
      ensures watching == outcome.Connected?
      ensures emitted == old(emitted) && history == []
    {
      if outcome.ConstructorThrows? {
        return;
      }
      clientSet := true;
      if outcome.ConnectRejects? {
        return;
      }
      watching := true;
    }

    /** The change stream's `change` handler. Only `Change` calls it, as the
        open stream does: a direct call would append to `emitted` without
        recording the change in `history`, and so would not keep `Valid()`. */
    method OnChange(change: ChangeEvent)
      modifies this`emitted
      ensures emitted == old(emitted) + HandlerOutput(change)
    {
      var doc := change.fullDocument;
      if doc.None? {
        return;
      }
      emitted := emitted + [Emission(NEW_READING, Project(doc.value))];
    }

    /** A change is applied to the collection. When the stream is open it
        sees the change, and passes it to the handler if it matches. */
    method Change(e: ChangeEvent)
      requires Valid()
      modifies this
      ensures Valid()
      ensures clientSet == old(clientSet) && watching == old(watching)
      ensures history == if watching then old(history) + [e] else old(history)
      ensures emitted == old(emitted) + if watching then Pipeline(e) else []
    {
      if watching {
        history := history + [e];
        assert history[..|history| - 1] == old(history);
        if Watched(e) {
          OnChange(e);
        }
      }
    }

    /** The `/getRF` route, given what the query settles to. */
    method GetRF(query: QueryResult) returns (res: Response)
      ensures res == GetRFResponse(clientSet, query)
    {
      if !clientSet {
        return Response(500, Failure(NOT_CONNECTED));
      }
      match query
      case QueryOk(docs) =>
        res := Response(200, Success(docs));
      case QueryErr(message) =>
        res := Response(500, Failure(message));
    }
  }

  /** Start-up where `connect()` rejects: the guard still passes, and a failing
      query is reported with its own message. */
  method ConnectRejectedThenQuery(message: string) returns (res: Response)
    ensures res == Response(500, Failure(message))
  {
    var server := new Server();
    server.ConnectMongo(ConnectRejects);
    res := server.GetRF(QueryErr(message));
  }

  /** Start-up where the client cannot even be constructed: `/getRF` fails
      fast whatever the query would have done, and nothing is ever
      broadcast. */
  method ClientNeverConstructed(query: QueryResult, e: ChangeEvent) returns (res: Response, out: seq<Emission>)
    ensures res == Response(500, Failure(NOT_CONNECTED))
    ensures out == []
  {
    var server := new Server();
    server.ConnectMongo(ConstructorThrows);
    server.Change(e);
    res := server.GetRF(query);
    out := server.emitted;
  }

  /** Start-up where `connect()` rejects: the client is set, but the change
      stream was never opened, so later changes broadcast nothing. */
  method ConnectRejectedNeverBroadcasts(e: ChangeEvent, f: ChangeEvent) returns (out: seq<Emission>)
    ensures out == []
  {
    var server := new Server();
    server.ConnectMongo(ConnectRejects);
    server.Change(e);
    server.Change(f);
    out := server.emitted;
  }

  /** A connected server: a delete and an update whose lookup found nothing
      broadcast nothing, and a later insert is still broadcast, once. */
  method InsertAfterSkippedChanges(doc: Doc) returns (out: seq<Emission>)
    ensures out == [Emission(NEW_READING, Project(doc))]
  {
    var server := new Server();
    server.ConnectMongo(Connected);
    server.Change(ChangeEvent("delete", None));
    server.Change(ChangeEvent("update", None));
    server.Change(ChangeEvent("insert", Some(doc)));
    out := server.emitted;
  }
}
