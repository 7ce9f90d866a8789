# Campaign ingestion and filtered search: a Dafny model

This project models the two pieces of sequential logic in the Express server
`index.js`, which loads marketing-campaign CSV files into an Elasticsearch
index called `campaigns` and serves filtered searches over it.

- **The filter builder of `GET /campaigns`** (module `CampaignQuery`).
  `mustQueriesBuilder` checks sixteen campaign fields of the request body in a
  fixed order. For each field whose value is truthy it pushes one
  `{ match: { field: value } }` clause. The handler then sends
  `{ query: { bool: { must: clauses } } }`, or `{ query: { match_all: {} } }`
  when there are no clauses. The sixteen identical conditionals become one
  loop over the declared field list `Fields` (same fields, same order). The
  method is proved equal to the reference function `MustQueries`. Lemmas then
  show: one clause per truthy field, none for any other field, clauses in
  declared order, and match-all exactly when no field is truthy.
- **The batch accumulator of `POST /upload-data`** (modules `Bulk` and
  `Upload`). Each CSV row adds one to `rowCount` and appends two entries to
  `bulkData`: a `{ index: { _index: "campaigns" } }` directive, then the row.
  When `bulkData` reaches `2 * BATCH_SIZE` entries (`BATCH_SIZE` = 1000) it is
  sent as one bulk call and replaced by an empty list. At end of stream a
  non-empty remainder is sent once. The handler's closure state is the class
  `Upload.Uploader`. Its stream event handlers are the methods `OnRow` and
  `OnEnd`, and the bulk calls made so far are recorded in a ghost log `sent`.
  The invariant `Valid()` ties that log to the reference batching
  `Bulk.Batches` of the rows seen so far. Lemmas about `Batches` give the
  rest: the batches concatenated in order are the interleaved directive/row
  sequence, there are ceil(N/1000) of them, each holds at most 2000 entries,
  and each row sits in exactly one batch at a known position.
- **The response projections.** `Bulk.ErroredDocuments` filters a bulk
  response down to the items whose `index` entry carries an `error`.
  `Search.Campaigns` and `Search.Total` read the hit sources and the
  server-reported total out of a search response, including the
  optional-chaining defaults `|| []` and `|| 0`.

Modelling choices:
- The request body is a map from property name to string. JavaScript
  truthiness of `body.F` is modelled as "key present and value not the empty
  string". Numbers, booleans and `null` in a JSON body are not modelled.
- A CSV row is a map from header name to raw field text. The CSV decoder
  itself is not part of this model; rows are an input sequence.
- The Elasticsearch client is a parameter: a function from bulk-request body
  to `BulkResponse`. A search response is an input value.
- Stream events are handled one after another: `OnRow` once per row, then
  `OnEnd` once. `Upload.UploadData` drives a whole upload this way.
- The source's `end` handler does not clear `bulkData` after the final send.
  The model keeps it too: `OnEnd` leaves `bulkData` unchanged.

Notes on the code:
- A transport failure during a flush has no handler: the rejected `await`
  escapes the async `data`/`end` event handler as an unhandled rejection.
  That path is left out (see below).
- Each filter clause is an Elasticsearch `match` clause. The model records
  the clause built, not how the backend evaluates it.

## Model

| member | source | states |
|---|---|---|
| `CampaignQuery.MustQueriesBuilder` | index.js:19-89 | returns exactly the reference clause list `MustQueries(body)`; at most 16 clauses; every clause is on a declared field whose value is truthy and carries exactly that value |
| `CampaignQuery.FieldsDistinct` | index.js:21-37 | the sixteen declared filter fields are pairwise distinct |
| `CampaignQuery.ClausesSound` | index.js:40-87 | for any list of tested fields, every clause is on one of them, that field is truthy in the body, the clause value is the body's value, and there are no more clauses than fields |
| `CampaignQuery.ClauseCount` | index.js:40-87 | for distinct tested fields, a field gets exactly one clause if it is tested and truthy, and zero clauses otherwise |
| `CampaignQuery.ClausesOrdered` | index.js:40-88 | for distinct tested fields, clause i comes before clause j only if clause i's field is tested before clause j's field |
| `CampaignQuery.OneClausePerTruthyField` | index.js:40-87 | the builder emits exactly one clause for each truthy declared field, and none for an absent, empty or undeclared one |
| `CampaignQuery.MustQueriesInFieldOrder` | index.js:21-88 | the builder's clauses are on declared fields, follow the declared order strictly, and number at most 16 |
| `CampaignQuery.Truthy` | index.js:40-85 | the `if (F)` test on a body field: the key is present and its value is not the empty string |
| `CampaignQuery.BuildQuery` | index.js:164-169 | the handler's query for a body: match-all exactly when the builder returns no clauses, otherwise a `bool.must` holding exactly the builder's clauses |
| `CampaignQuery.SelectQuery` | index.js:166-169 | match-all exactly when the clause list is empty; otherwise a `bool.must` holding exactly that list |
| `CampaignQuery.MatchAllIffNoFilter` | index.js:164-169 | the handler sends match-all if and only if no declared field is truthy; otherwise `bool.must` holds the builder's non-empty clause list |
| `CampaignQuery.LocationOnly` | index.js:64-66 | a body with only `Location = "US"` gives the single-clause query `bool.must [match Location "US"]`, not match-all |
| `Bulk.IsErrored` | index.js:119 | the filter test `item.index && item.index.error`: the item has an `index` entry and that entry carries an error object |
| `Bulk.ErroredDocuments` | index.js:118-120 | an item is in the result if and only if it is in the response and its `index` entry carries an `error`; the result is no longer than the input |
| `Bulk.ErroredDocumentsAppend` | index.js:118-120 | the filter distributes over concatenation, so it keeps the items' original order |
| `Bulk.ErroredDocumentsExtremes` | index.js:118-120 | every item is kept when all carry an error, and none is kept when none does |
| `Bulk.ReportedErrors` | index.js:117-122 | no errored items are reported unless the response's `errors` flag is set; when it is set, an item is reported if and only if it is in the response and `IsErrored` holds of it (the result is `ErroredDocuments` of the items, so in order) |
| `Bulk.Pair` | index.js:127-128 | the two entries one row pushes: the index directive to `campaigns`, then the row itself |
| `Bulk.Interleave` | index.js:126-128 | a row sequence yields two bulk entries per row |
| `Bulk.InterleaveAt` | index.js:127-128 | row k becomes entry 2k (its index directive to `campaigns`) and entry 2k+1 (its payload) |
| `Bulk.BatchesFlatten` | index.js:125-143 | the bulk calls, concatenated in call order, are the interleaved directive/row sequence of the input rows |
| `Bulk.BatchesCount` | index.js:125-143 | N rows give ceil(N/1000) bulk calls, and no call when N = 0 |
| `Bulk.BatchesSizes` | index.js:131-143 | each bulk call has between 1 and 2000 entries, and every call but the last has exactly 2000 |
| `Bulk.RowPlacement` | index.js:125-143 | row k is the payload at entry 2(k mod 1000)+1 of call k div 1000, right after its directive, so no row is in two calls |
| `Bulk.BatchesSnoc` | index.js:131-134 | after whole batches, up to 1000 further rows add exactly one more bulk call holding their entries |
| `Bulk.TwentyFiveHundredRows` | index.js:101 | 2500 rows give three bulk calls of 1000, 1000 and 500 rows (2000, 2000 and 1000 entries) |
| `Upload.Whole` | index.js:131 | the rows that fill whole batches: a multiple of 1000, at most N, and fewer than 1000 short of N |
| `Upload.AppendRow` | index.js:126-134 | one more row either completes a batch, so the calls become the reference batching of all rows, or adds its two entries to the pending body and leaves the calls alone |
| `Upload.Uploader.constructor` | index.js:107-108 | the handler starts with an empty body, a zero row count and no bulk calls |
| `Upload.Uploader.SendBulkData` | index.js:111-123 | logs exactly one bulk call with the given body and returns the errored items of the backend's response |
| `Upload.Uploader.OnRow` | index.js:125-137 | adds one to the row count and appends the directive, then the row; at 2000 entries it sends the body as one call and empties it, otherwise it sends nothing; afterwards fewer than 2000 entries are pending |
| `Upload.Uploader.OnEnd` | index.js:139-147 | sends a non-empty pending body exactly once and an empty one not at all; reports the row count; all calls concatenated equal the interleaved input, and there are ceil(N/1000) of them |
| `Upload.UploadData` | index.js:102-149 | over any row stream, reports `rowsProcessed` equal to the number of rows, and the bulk calls made are exactly the reference batching of the input |
| `Search.SourceOf` | index.js:178 | `hit?._source`: missing for a null hit, otherwise the hit's stored source (itself possibly missing) |
| `Search.ProjectHits` | index.js:178 | the projection has one entry per hit, in hit order, each the hit's `_source` (missing for a null hit or a hit without a source) |
| `Search.ProjectHitsAppend` | index.js:178 | the projection distributes over concatenation of hit lists |
| `Search.Campaigns` | index.js:177-178 | an empty list when the response has no `hits` or no hit list; otherwise one projected source per hit, in order |
| `Search.Total` | index.js:183 | the server-reported `hits.total.value` when present, otherwise 0; a non-zero result always comes from that field |

## Left out

- HTTP routing, the listener, response framing and status codes (index.js:8, 18, 90-99, 144-147, 163, 180-194): transport plumbing.
- Multer upload handling and deleting the temporary file with `fs.unlinkSync` (index.js:10, 103, 148, 153, 159): filesystem I/O.
- CSV decoding by `csv-parser` over `fs.createReadStream` (index.js:106): a foreign library; rows are an input sequence.
- The stream `error` handler and the outer `catch` (index.js:151-160): they only write an HTTP 500 response and delete the file.
- The Elasticsearch client, its connection settings and its `bulk`/`search` calls (index.js:11-17, 112-115, 172-175): network calls. The bulk call is a function parameter, the search response an input value, and the `refresh: true` option of the bulk request is not recorded.
- A rejected bulk or search call: the bulk rejection escapes the async event handler unhandled, and the search rejection only produces an HTTP 500. The model assumes every bulk call returns a response.
- `stream.pause()` / `stream.resume()` and the interleaving of async event handlers (index.js:125, 132, 135, 139): event-loop concurrency. Events are handled one at a time and in full.
- The response shape of the client: the bulk handler reads the response under `body` while the search handler reads `hits` directly. Which client version is in use is not part of this model, so each shape is taken as written.
- Environment loading with dotenv and all `console` logging (index.js:6, 9, 91-98, 121, 165, 170, 176, 186). The errored items that `sendBulkData` logs are returned by `SendBulkData`, `OnRow` and `OnEnd` instead.
- Request-body values that are not strings (numbers, booleans, `null`, objects): truthiness is modelled for strings only.
- Search.Total: a `NaN` total, which `|| 0` would turn into 0, is not modelled; totals are integers.
