# rf-realtime-server, modelled in Dafny

The realtime server watches the `rf_data` collection of the `radiationDB`
MongoDB database through a change stream. It lets through only `insert`,
`update` and `replace` changes, with the full document looked up. Each change
whose document was found is broadcast to every connected socket.io client as a
`newReading` event, whose payload holds the document's `frequency`,
`signalStrength`, `classification` and `timestamp` fields. A separate HTTP
route, `/getRF`, returns the 50 newest readings, or a failure with status 500.

This project models that logic and proves its properties:

- `values.dfy` (module `Values`): document values and the order MongoDB sorts
  them in (type rank first, then the value; strings by code point). The lemmas
  prove that this order is a total preorder.
- `relay.dfy` (module `ChangeRelay`): the path from a change to a broadcast, as
  pure functions. `Watched` is the `$match` filter. `Property`,
  `ReadingLiteral` and `ToJson` follow the handler's JavaScript: it builds a
  four-key object, and JSON serialisation drops the keys that read as
  `undefined`. `Project` is the payload that results. `HandlerOutput` is the
  `change` handler and `Pipeline` is filter plus handler. `Relay` lifts the
  pipeline over a sequence of changes, and `Sources` maps each broadcast back
  to the change it came from.
- `snapshot.dfy` (module `Snapshot`): the query `find({}).sort({timestamp:
  -1}).limit(50)`. MongoDB runs this query, so it is stated as a contract,
  `IsLatestPage`. `LatestPage` is one result that satisfies the contract
  (insertion sort, then take the first 50). It shows that the contract can be
  met for every collection.
- `server.dfy` (module `RealtimeServer`): the class `Server` holds the
  module's mutable state:
  - `clientSet`: `mongoClient` has been assigned.
  - `watching`: the change handler is registered.
  - `emitted`: the `io.emit` calls made so far.
  - A ghost history of the changes seen.

  Its methods are `ConnectMongo`, the `change` handler `OnChange`, a collection
  change `Change`, and the route `GetRF`. `GetRFResponse` is the route's guard
  and response mapping as a function. Four small client methods give
  end-to-end start-up scenarios.

The external calls are parameters:
- `ConnectOutcome` says whether `new MongoClient(...)` threw, `connect()`
  rejected, or the connection succeeded.
- `QueryResult` is what `find().sort().limit().toArray()` settled to.
- A `ChangeEvent` is what the change stream delivers.

`MongoClient` is constructed at `index.js:26`, inside `connectMongo`, before
`connect()` is awaited. `connectMongo()` is called at `index.js:64` while the
module loads, so that assignment runs before the server listens. The guard
`!mongoClient` at `index.js:85` is therefore true only when the `MongoClient`
constructor itself threw. After a rejected `connect()` the guard passes, and
`/getRF` reports the query's own error (`ConnectRejectedThenQuery`). The change
handler is registered only after `connect()` resolves. After either failure,
nothing is ever broadcast (`ClientNeverConstructed` for a throwing constructor,
`ConnectRejectedNeverBroadcasts` for a rejected `connect()`).

## Model

| member | source | states |
|---|---|---|
| `Values.TypeRank` | index.js:92 | each modelled BSON type's place in MongoDB's cross-type comparison order: null before numbers before strings before booleans before dates |
| `Values.StrLe` | index.js:92 | strings compare by code point, lexicographically, a prefix sorting first, as a sort without collation does |
| `Values.ValueLe` | index.js:92 | the ascending sort order: by type rank first, and within one type numerically, by code point, false before true, or by instant |
| `Values.ValueLeReflexive` | index.js:92 | every value sorts no later than itself |
| `Values.ValueLeTotal` | index.js:92 | any two timestamp values are comparable, so the sort order is total |
| `Values.ValueLeTransitive` | index.js:92 | the sort order is transitive |
| `Values.StrLeReflexive` | index.js:92 | every string sorts no later than itself |
| `Values.StrLeTotal` | index.js:92 | code-point string order is total |
| `Values.StrLeTransitive` | index.js:92 | code-point string order is transitive |
| `ChangeRelay.Watched` | index.js:33-38 | the change stream's `$match` stage: a change passes exactly when its operation type is `insert`, `update` or `replace` |
| `ChangeRelay.Property` | index.js:48-51 | definition of `doc.key`: the stored value when the key is present, undefined otherwise |
| `ChangeRelay.ReadingLiteral` | index.js:47-52 | definition of the object literal handed to `io.emit`: the four reading keys, each bound to the document's property, possibly undefined |
| `ChangeRelay.ToJson` | index.js:47-52 | definition of the JSON serialisation of a flat object: keys holding undefined are dropped, other values are kept |
| `ChangeRelay.Project` | index.js:47-52 | payload keys are the four reading names that the document has; all other fields are dropped; each value equals the document's value, with no coercion or defaulting |
| `ChangeRelay.HandlerOutput` | index.js:40-53 | an absent document yields no emission; a present one yields exactly one `newReading` emission carrying its projection |
| `ChangeRelay.Pipeline` | index.js:33-53 | a change is broadcast (at most once) exactly when its operation is insert, update or replace and it carries a document; the payload is a sub-map of the document over the four reading keys |
| `ChangeRelay.Relay` | index.js:40-53 | over a sequence of changes there are at most as many broadcasts as changes, and every one is a `newReading` with only reading keys |
| `ChangeRelay.Sources` | index.js:40-53 | there is one source position per broadcast, and each is the position of a change in the sequence |
| `ChangeRelay.SourcesIncreasing` | index.js:40-53 | broadcasts appear in the same order as the changes they come from |
| `ChangeRelay.SourcesAreBroadcastChanges` | index.js:33-53 | a change produces a broadcast exactly when it passes the filter and carries a document; only those changes are skipped |
| `ChangeRelay.SourcesProduceBroadcasts` | index.js:40-53 | each broadcast is exactly the one output of its source change |
| `ChangeRelay.InsertedReadingPayload` | index.js:47-52 | an inserted reading with an extra `_id` is broadcast as exactly its four reading fields |
| `ChangeRelay.RelayAppend` | index.js:40-53 | the relay of two concatenated change sequences is the concatenation of their relays |
| `ChangeRelay.SkippedChangeIsTransparent` | index.js:41-42 | a filtered-out or document-less change leaves the broadcasts for the changes around it untouched, and later changes are still processed |
| `ChangeRelay.BroadcastChangeAppends` | index.js:47-52 | a matching change with a document appends exactly its one broadcast after the earlier ones |
| `Snapshot.Timestamp` | index.js:92 | the sort key is the `timestamp` field, and a document without one sorts as null |
| `Snapshot.NotNewer` | index.js:92 | one document's timestamp sorts no later than another's, in the value order |
| `Snapshot.NewestFirst` | index.js:92 | `sort({timestamp: -1})` order: no later document has a newer timestamp than an earlier one |
| `Snapshot.IsLatestPage` | index.js:90-94 | the query's contract: min(50, n) documents taken from the collection (as a sub-multiset), newest first, and no document left out is newer than one returned |
| `Snapshot.Insert` | index.js:92 | inserting into the sorted list adds exactly that document |
| `Snapshot.SortNewestFirst` | index.js:92 | sorting is a permutation |
| `Snapshot.InsertKeepsOrder` | index.js:92 | insertion keeps the list ordered newest first |
| `Snapshot.SortIsNewestFirst` | index.js:92 | the sorted list has non-increasing timestamps |
| `Snapshot.LatestPage` | index.js:90-94 | definition of the reference query result: sort the collection newest first, then take the first min(50, n) documents |
| `Snapshot.LatestPageMeetsContract` | index.js:90-94 | sort by timestamp descending, then limit 50, satisfies the query contract: min(50, n) documents from the collection, newest first, and none left out is newer than one returned |
| `RealtimeServer.GetRFResponse` | index.js:83-101 | status 500 exactly on failure and 200 on success; "Mongo not connected" is returned exactly when the client is unset (or the query's own error has that text); otherwise success with the query's documents, or failure with the query's error message |
| `RealtimeServer.GetRFServesLatestPage` | index.js:90-96 | a successful response carries the query result: at most 50 readings, newest first, and exactly 50 when the collection holds at least 50 |
| `RealtimeServer.Server.Valid` | index.js:22-53 | the server's invariant: the handler is registered only once the client is set, no change is recorded before the stream opens, and what has been emitted is exactly the relay of the changes the stream has seen |
| `RealtimeServer.Server.constructor` | index.js:22 | before `connectMongo` runs, `mongoClient` is unset, nothing is registered and nothing has been emitted |
| `RealtimeServer.Server.ConnectMongo` | index.js:24-62 | the client is set unless its constructor threw, even when `connect()` rejects; the change stream is opened only on a successful connect; nothing is emitted |
| `RealtimeServer.Server.OnChange` | index.js:40-53 | the handler appends exactly the change's handler output to the emitted sequence |
| `RealtimeServer.Server.Change` | index.js:33-53 | while the stream is open, a change is recorded and its pipeline output is appended; otherwise nothing happens; the emitted sequence always equals the relay of the changes seen |
| `RealtimeServer.Server.GetRF` | index.js:83-101 | the route answers with the response mapping for the current client state |
| `RealtimeServer.ConnectRejectedThenQuery` | index.js:26-99 | after a rejected connect, a failing query is reported as status 500 with its own message, not "Mongo not connected" |
| `RealtimeServer.ClientNeverConstructed` | index.js:24-86 | when the client constructor throws, `/getRF` always answers 500 "Mongo not connected", and a change broadcasts nothing |
| `RealtimeServer.ConnectRejectedNeverBroadcasts` | index.js:24-62 | after a rejected connect the change stream was never opened, so changes broadcast nothing |
| `RealtimeServer.InsertAfterSkippedChanges` | index.js:33-53 | a delete and an update with no document broadcast nothing, and a later insert is broadcast exactly once |

## Left out

- Express, CORS and HTTP server setup, the `listen` call and the `/` liveness route (index.js:8-15, 74-81): framework wiring, with no logic of this server's own.
- The socket.io `connection` and `disconnect` handlers (index.js:66-72): they only log. Subscriber membership lives inside socket.io, so no registry is modelled, and `io.emit` is modelled as appending to `emitted`. Fan-out to clients, framing and delivery concurrency are library behaviour.
- The MongoDB driver is represented only by inputs: connecting, change-stream mechanics, the `updateLookup` resolution, and the actual execution of sort and limit. These are foreign calls.
- The change stream's `error` handler (index.js:55-57) only logs. Whether the driver ends the stream after an error is not visible in this file, so `watching` never goes back to false.
- Console logging, `MONGO_URI` and `PORT`: I/O and configuration.
- JSON serialisation is modelled only as dropping `undefined` keys; the payload is the serialised object, without its `undefined` keys, as a map. Not modelled: a `Date` value turning into an ISO string on the wire; the fixed key order of the serialised object (frequency, signalStrength, classification, timestamp), which a map cannot show; and NaN and ±Infinity turning into `null`. `Num(x: real)` cannot hold NaN or the infinities at all, so MongoDB's placing of NaN below every other number in a sort is not modelled either.
- `Value` covers null, numbers, strings, booleans and dates. Arrays, nested objects, ObjectId and other BSON types, and MongoDB's rules for sorting on array-valued fields, are not modelled. Numbers are reals, because the server never computes with them.
- `RealtimeServer.Server.ConnectMongo`: requires that no change stream is registered yet. Calling it again after a successful connect would register a second stream, and with it duplicate broadcasts, which the model does not represent. `index.js:64` calls it exactly once.
- `Snapshot.IsLatestPage` is the query's contract. `LatestPage` is only one result that satisfies it, not MongoDB's tie-breaking order, so `/getRF` is proved against the contract and not against `LatestPage`.
