# kubeslo-telemetry: query templates and result aggregation

This project models the core of a small telemetry service. The service has two
read-only HTTP endpoints. Each one builds a query from its parameters, sends it
to a Prometheus-style metrics backend, and folds the flat vector of labelled
samples it gets back into a lookup map keyed by application or node name.

- `GET /metrics/apps/rps` (parameters `app-group`, `app`, `range-width`).
  - With `app` given, it returns a flat map from each peer of that
    application to the request rate.
  - Without `app`, it returns a nested map of every application pair in the
    group. The map is filled in both directions, so it is symmetric.
- `GET /metrics/nodes/latencies` (parameters `node`, `range-width`).
  - With `node` given, it returns a flat map keyed by destination node.
  - Without `node`, it returns a nested map keyed by origin node, then
    destination node. It is filled in one direction only.

The model has four modules, one file each:

- `wrappers.dfy` (`Wrappers`): `Option` and `Result`.
- `metrics.dfy` (`Metrics`) models `metrics/metrics.go`.
  - A sample is a label map plus a value of an arbitrary type `V`. Values are
    only copied, never computed on. Reading a missing label gives `""`, like
    Go's zero-value map read.
  - The four query templates are string functions built from named fixed
    pieces. Together, the pieces are exactly the source's literals, including
    the leading newline and tabs of the raw strings.
  - Each template has a parser that reads the parameters back out. The parsers
    invert the templates exactly when the quoted parameters contain no `"`
    (and, for the single-node query, when the range width contains no `]`).
  - A lemma shows that the templates do no escaping: a group name carrying
    `", app="` gives the same pair query as a different group and application.
  - The backend is a parameter `backend: string -> Answer<V>`. Client
    construction is a parameter `ClientStatus`. `RunQuery` turns them into a
    vector or one of three errors: client creation failed, execution failed,
    or the answer was not a vector.
- `aggregation.dfy` (`Aggregation`) models the four loops of `main.go`.
  - Each loop is a method with a `for` loop over `seq<Sample<V>>` that
    updates a map. The loop invariant relates the map to the processed prefix.
  - The specification is `LastValue(samples, entry)`: the value of the last
    sample that writes that entry. It is computed from the end of the
    sequence, independently of the forward loops.
- `handlers.dfy` (`Handlers`) models the two handlers.
  - An empty range width becomes `"5m"`.
  - An empty `app` or `node` selects the all-pairs branch.
  - A failed query gives status 500 with the error. A successful one gives
    status 200 with the folded map, never a partial one. The reply is the
    handler's decision before JSON encoding; what the encoding does to it is
    listed under "Left out".

A self-loop sample, whose source and destination are both the focal app, is
stored under the focal app's own name (main.go:33-34): the source test comes
first, so its destination, the focal app itself, becomes the key.
`FocalAppKey` proves that the focal app is a key of its own result exactly when
such a sample exists.

## Model

| member | source | states |
|---|---|---|
| `Metrics.AppRequestsPerSecondQuery` | metrics/metrics.go:35 | the pair query starts with the fixed head and ends with `])` plus trailing whitespace; group, app and range width each appear verbatim at fixed offsets; the length is the fixed text plus the three parameters |
| `Metrics.AppsRequestsPerSecondQuery` | metrics/metrics.go:60 | the within-group query has the fixed head, then the group verbatim, then the range width verbatim at fixed offsets, and nothing else varies |
| `Metrics.NodeLatenciesQuery` | metrics/metrics.go:85 | the node name appears verbatim in both the latency-sum and latency-count selectors; the range width appears verbatim in both brackets; the query ends with the `* 1000` scaling |
| `Metrics.NodesLatenciesQuery` | metrics/metrics.go:110 | the all-nodes query starts with the selector-free sum head; the range width appears verbatim in both brackets; the query ends with the `* 1000` scaling |
| `Metrics.UpTo` | metrics/metrics.go:35 | reading a quoted value stops at the first stop character: the result is a stop-free prefix followed by the stop or by the end |
| `Metrics.ParseAppRequestsPerSecondQuery` | metrics/metrics.go:35 | a parsed pair query yields a quote-free group and app |
| `Metrics.ParseAppsRequestsPerSecondQuery` | metrics/metrics.go:60 | a parsed within-group query yields a quote-free group |
| `Metrics.ParseNodeLatenciesQuery` | metrics/metrics.go:85 | a parsed single-node query yields a quote-free node and a bracket-free range width |
| `Metrics.ParseAppRequestsPerSecondQuerySound` | metrics/metrics.go:35 | whatever the pair parser accepts is the pair template applied to what it read |
| `Metrics.AppRequestsPerSecondQueryRoundTrip` | metrics/metrics.go:35 | a pair query built from quote-free group and app names parses back to exactly its three parameters |
| `Metrics.AppRequestsPerSecondQueryParse` | metrics/metrics.go:35 | parsing gives (group, app, width) if and only if the query is the template applied to them and the names are quote-free |
| `Metrics.ParseAppsRequestsPerSecondQuerySound` | metrics/metrics.go:60 | whatever the within-group parser accepts is the template applied to what it read |
| `Metrics.AppsRequestsPerSecondQueryRoundTrip` | metrics/metrics.go:60 | a within-group query built from a quote-free group parses back to its parameters |
| `Metrics.AppsRequestsPerSecondQueryParse` | metrics/metrics.go:60 | parsing gives (group, width) if and only if the query is the template applied to them and the group is quote-free |
| `Metrics.ParseNodeLatenciesQuerySound` | metrics/metrics.go:85 | whatever the single-node parser accepts is the template applied to what it read |
| `Metrics.NodeLatenciesQueryRoundTrip` | metrics/metrics.go:85 | a single-node query built from a quote-free node and a bracket-free width parses back to its parameters |
| `Metrics.NodeLatenciesQueryParse` | metrics/metrics.go:85 | parsing gives (node, width) if and only if the query is the template applied to them under those conditions |
| `Metrics.NodesLatenciesQueryNoSelector` | metrics/metrics.go:110 | a `{` occurs in the all-nodes query if and only if it occurs in the range width: the fixed text carries no label selector on either the sum or the count side |
| `Metrics.AppsRequestsPerSecondQueryIsNotPairQuery` | metrics/metrics.go:35-60 | a within-group query never starts with the pair query's head, so the two request-rate templates cannot be confused |
| `Metrics.NodesLatenciesQueryIsNotNodeQuery` | metrics/metrics.go:85-110 | an all-nodes query never starts with the single-node query's head, so the two latency templates cannot be confused |
| `Metrics.NodesLatenciesQueryInjective` | metrics/metrics.go:110 | two all-nodes queries are equal if and only if their range widths are equal |
| `Metrics.AppRequestsPerSecondQueryAmbiguous` | metrics/metrics.go:35 | no escaping: two different (group, app) pairs can give the same pair query, because the group can close its own quote and add an `app` matcher |
| `Metrics.AppRequestsPerSecondQueryExcludesUnknown` | metrics/metrics.go:35 | every pair query contains the `source_app!="unknown", destination_app!="unknown"` matchers |
| `Metrics.AppsRequestsPerSecondQueryExcludesUnknown` | metrics/metrics.go:60 | every within-group query contains the `source_app!="unknown", destination_app!="unknown"` matchers |
| `Metrics.AppsRequestsPerSecondQueryReporterSource` | metrics/metrics.go:60 | every within-group query contains the `reporter="source"` matcher |
| `Metrics.RunQuery` | metrics/metrics.go:27-48 | success if and only if the client was built and the backend answered this exact query with a vector, and then the samples are that vector; a client failure, an execution failure and a non-vector answer each give their own error and no samples |
| `Metrics.GetAppRequestsPerSecond` | metrics/metrics.go:26-49 | succeeds exactly when the backend answers the pair query for these parameters with a vector, and returns that vector |
| `Metrics.GetAppsRequestsPerSecond` | metrics/metrics.go:51-74 | succeeds exactly when the backend answers the within-group query with a vector, and returns that vector |
| `Metrics.GetNodeLatencies` | metrics/metrics.go:76-99 | succeeds exactly when the backend answers the single-node query with a vector, and returns that vector |
| `Metrics.GetNodesLatencies` | metrics/metrics.go:101-124 | succeeds exactly when the backend answers the all-nodes query with a vector, and returns that vector |
| `Aggregation.LastValueAppend` | main.go:32 | one more sample overwrites exactly the entries it writes and leaves every other entry as it was |
| `Aggregation.LastWriteWins` | main.go:32-38 | an entry is set if and only if some sample writes it, and then it holds the value of the last such sample |
| `Aggregation.SameWritersSameValue` | main.go:54-60 | two entries written by the same samples hold the same value |
| `Aggregation.CollectAppNeighbours` | main.go:31-38 | for every key, the flat map holds the value of the last sample that is keyed there under the focal-app rules, and the key is absent if no sample is |
| `Aggregation.CollectAppPairs` | main.go:48-61 | every cell [a][b] holds the value of the last sample naming the pair {a, b}; no inner map is empty; the map is symmetric; the outer keys are exactly the applications the samples name on either side |
| `Aggregation.CollectDestinations` | main.go:84-86 | for every destination node, the map holds the value of the last sample with that destination, and the key is absent if there is none |
| `Aggregation.CollectNodeEdges` | main.go:97-103 | every cell [o][d] holds the value of the last sample from o to d; no inner map is empty; the outer keys are exactly the origin nodes seen |
| `Aggregation.NeighbourStep` | main.go:33-37 | a sample from the focal app writes its destination key (a self-loop writes the focal app's own key); otherwise a sample to the focal app writes its source key; any other sample changes nothing |
| `Aggregation.FocalAppKey` | main.go:33-34 | the focal app is a key of its own result if and only if some sample goes from it to itself |
| `Aggregation.AppPairStep` | main.go:54-60 | a sample sets [src][dst] and [dst][src] to its value and no other cell |
| `Aggregation.AppPairMapSymmetric` | main.go:54-60 | in the pair map, [a][b] and [b][a] are both absent or both present with equal values |
| `Aggregation.AppPairMapKeys` | main.go:50-58 | the pair map's outer keys are exactly the source and destination applications the samples name |
| `Aggregation.AppPairMapLastWrite` | main.go:54-60 | [a][b] holds the value of the last sample naming {a, b}; a pair that no sample names has no cell |
| `Aggregation.DestinationMapLastWrite` | main.go:84-86 | the keys are exactly the destinations seen, and each holds the value of the last sample with that destination |
| `Aggregation.NodeEdgeMapKeys` | main.go:98-102 | the node map's outer keys are exactly the origin nodes the samples name |
| `Aggregation.NodeEdgeStep` | main.go:102 | a sample sets [origin][destination] and no other cell; when origin and destination differ, the reverse cell is left as it was |
| `Aggregation.NeighbourExample` | main.go:31-38 | focal app A and one sample A to B with value 2 give exactly {B: 2} |
| `Aggregation.AppPairExample` | main.go:48-61 | samples A to B (2) and C to A (3) give exactly {A: {B: 2, C: 3}, B: {A: 2}, C: {A: 3}} |
| `Aggregation.NodeEdgeExample` | main.go:97-103 | one sample n1 to n2 with value 5 gives exactly {n1: {n2: 5}}, with no n2 row |
| `Handlers.EffectiveRangeWidth` | main.go:15-19 | the range width is "5m" when the parameter is empty and the parameter unchanged otherwise |
| `Handlers.EffectiveRangeWidthSettled` | main.go:70-74 | the defaulted range width is never empty, and defaulting it again changes nothing |
| `Handlers.AppsQuery` | main.go:17-42 | the query carries the pair head exactly when `app` is non-empty; quote-free names read back from it with the defaulted range width, as the pair query's three parameters or the within-group query's two |
| `Handlers.NodesQuery` | main.go:72-91 | the query carries the single-node head exactly when `node` is non-empty; a quote-free node and a bracket-free width read back from it with the defaulted range width; without a node the defaulted width stands in the all-nodes query's first bracket |
| `Handlers.AppsRequestsPerSecond` | main.go:12-65 | status is 200 or 500; 200 exactly when the backend answered the branch's query, built with the defaulted width, with a vector; on failure 500 with the error and no map; on success a flat neighbour map when `app` is non-empty and a symmetric pair map when it is empty |
| `Handlers.NodesLatencies` | main.go:67-107 | status is 200 or 500; 200 exactly when the backend answered the branch's query, built with the defaulted width, with a vector; on failure 500 with the error and no map; on success a destination map when `node` is non-empty and a directed origin/destination map when it is empty |

## Left out

- Prometheus client construction, the network `Query` call, its 10-second timeout and the evaluation instant `time.Now()`: these are network I/O and a foreign library. They appear only as the `ClientStatus` and `backend` parameters.
- The `PROMETHEUS_ADDRESS` environment read: it is process configuration. It only influences whether the client can be built, which is the `ClientStatus` parameter.
- The gin router, `c.Query` parsing, `IndentedJSON` serialisation and `router.Run` on `0.0.0.0:8080`: HTTP and JSON plumbing. Handler inputs are plain strings (a missing parameter is `""`). Outputs are a status plus a body variant.
- What the JSON encoding does to a reply. `IndentedJSON` receives the Go error value on the 500 path. The value `fmt.Errorf` returns has no exported fields, so it encodes as `{}`, and the client sees neither the kind nor the reason that `ErrorBody` carries. On the 200 path, a NaN or infinite value in the map makes the encoding fail, so the reply does not carry the map. Both follow from the `encoding/json` library, which is not part of this model.
- Floating point: rates, the latency ratio and the `* 1000` scaling are computed by the backend. Sample values are an opaque type parameter, so the model does not see NaN or Inf. The node ratio at metrics/metrics.go:85 and :110 is NaN for a pair without traffic (zero over zero).
- Prometheus warnings: the handlers discard them.
- Error message texts: errors are tagged by kind with the underlying reason in `ErrorBody`. The not-a-vector error's text formats an error value that is always nil at that point; that text is not reproduced.
- Timestamps of samples: the handlers never read them.
- Concurrency between requests: the handlers share no mutable state.
- Metrics.AppsRequestsPerSecondQuery: the absence of an `app` matcher from the within-group query is visible in its fixed text (`WithinGroupHead`, `AppTail`, `AppEnd`) but is not proved as a fact about substrings.
