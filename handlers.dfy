/**
 * The two HTTP handlers: default the range width, choose the single-entity
 * or all-pairs branch, run the query, and reply 500 with the error or 200
 * with the folded samples.
 */
module Handlers {
  import opened Wrappers
  import opened Metrics
  import opened Aggregation

  const DefaultRangeWidth: string := "5m"
  const StatusOK: int := 200
  const StatusInternalServerError: int := 500

  /** The body of a reply: the error, a flat map, or a nested map. */
  datatype Body<V> =
    | ErrorBody(error: Error)
    | FlatBody(flat: map<string, V>)
    | NestedBody(nested: map<string, map<string, V>>)

  datatype Reply<V> = Reply(status: int, body: Body<V>)

  /** The range width a handler queries with: the parameter, or five minutes when it is empty. */
  function EffectiveRangeWidth(rangeWidth: string): (r: string)
    ensures rangeWidth == "" ==> r == DefaultRangeWidth
    ensures rangeWidth != "" ==> r == rangeWidth
  {
    if rangeWidth == "" then DefaultRangeWidth else rangeWidth
  }

  /** Defaulting never leaves the range width empty, and applying it twice changes nothing. */
  lemma EffectiveRangeWidthSettled(rangeWidth: string)
    ensures EffectiveRangeWidth(rangeWidth) != ""
    ensures EffectiveRangeWidth(EffectiveRangeWidth(rangeWidth)) == EffectiveRangeWidth(rangeWidth)
  {
    assert |DefaultRangeWidth| == 2;
  }

  /**
   * The query the request-rate handler sends: the pair query when an
   * application is given, else the within-group query, both with the
   * defaulted range width. The branch taken shows in the query's head, and
   * quote-free names can be read back out of it.
   */
  function AppsQuery(appGroupName: string, appName: string, rangeWidth: string): (q: string)
    ensures AppPairHead <= q <==> appName != ""
    ensures appName != "" && '"' !in appGroupName && '"' !in appName ==>
              ParseAppRequestsPerSecondQuery(q) == Some((appGroupName, appName, EffectiveRangeWidth(rangeWidth)))
    ensures appName == "" && '"' !in appGroupName ==>
              ParseAppsRequestsPerSecondQuery(q) == Some((appGroupName, EffectiveRangeWidth(rangeWidth)))
  {
    var width := EffectiveRangeWidth(rangeWidth);
    if appName != "" then
      PairQueryReadsBack(appGroupName, appName, width);
      AppRequestsPerSecondQuery(appGroupName, appName, width)
    else
      AppsRequestsPerSecondQueryIsNotPairQuery(appGroupName, width);
      GroupQueryReadsBack(appGroupName, width);
      AppsRequestsPerSecondQuery(appGroupName, width)
  }

  /**
   * The query the latency handler sends: the single-node query when a node
   * is given, else the all-nodes query, both with the defaulted range width.
   */
  function NodesQuery(nodeName: string, rangeWidth: string): (q: string)
    ensures NodeSumHead <= q <==> nodeName != ""
    ensures nodeName != "" && '"' !in nodeName && ']' !in rangeWidth ==>
              ParseNodeLatenciesQuery(q) == Some((nodeName, EffectiveRangeWidth(rangeWidth)))
    ensures nodeName == "" ==> FieldAt(q, |AllSumHead|, EffectiveRangeWidth(rangeWidth))
  {
    var width := EffectiveRangeWidth(rangeWidth);
    if nodeName != "" then
      NodeQueryReadsBack(nodeName, width);
      NodeLatenciesQuery(nodeName, width)
    else
      NodesLatenciesQueryIsNotNodeQuery(width);
      NodesLatenciesQuery(width)
  }

  lemma PairQueryReadsBack(appGroupName: string, appName: string, width: string)
    ensures '"' !in appGroupName && '"' !in appName ==>
              ParseAppRequestsPerSecondQuery(AppRequestsPerSecondQuery(appGroupName, appName, width))
              == Some((appGroupName, appName, width))
  {
    if '"' !in appGroupName && '"' !in appName {
      AppRequestsPerSecondQueryRoundTrip(appGroupName, appName, width);
    }
  }

  lemma GroupQueryReadsBack(appGroupName: string, width: string)
    ensures '"' !in appGroupName ==>
              ParseAppsRequestsPerSecondQuery(AppsRequestsPerSecondQuery(appGroupName, width)) == Some((appGroupName, width))
  {
    if '"' !in appGroupName {
      AppsRequestsPerSecondQueryRoundTrip(appGroupName, width);
    }
  }

  lemma NodeQueryReadsBack(nodeName: string, width: string)
    ensures '"' !in nodeName && ']' !in width ==>
              ParseNodeLatenciesQuery(NodeLatenciesQuery(nodeName, width)) == Some((nodeName, width))
  {
    if '"' !in nodeName && ']' !in width {
      NodeLatenciesQueryRoundTrip(nodeName, width);
    }
  }

  /** What the request-rate handler fetches: its query, run against the backend. */
  function AppsFetch<V>(client: ClientStatus, backend: string -> Answer<V>,
                        appGroupName: string, appName: string, rangeWidth: string): Result<seq<Sample<V>>, Error>
  {
    RunQuery(client, backend, AppsQuery(appGroupName, appName, rangeWidth))
  }

  /** What the latency handler fetches: its query, run against the backend. */
  function NodesFetch<V>(client: ClientStatus, backend: string -> Answer<V>,
                         nodeName: string, rangeWidth: string): Result<seq<Sample<V>>, Error>
  {
    RunQuery(client, backend, NodesQuery(nodeName, rangeWidth))
  }

  /**
   * GET /metrics/apps/rps with parameters `app-group`, `app` and
   * `range-width` (missing parameters arrive as empty strings).
   */
  method AppsRequestsPerSecond<V>(client: ClientStatus, backend: string -> Answer<V>,
                                  appGroupName: string, appName: string, rangeWidth: string) returns (reply: Reply<V>)
    ensures reply.status == StatusOK || reply.status == StatusInternalServerError
    ensures reply.status == StatusOK <==> ServedVector(client, backend, AppsQuery(appGroupName, appName, rangeWidth))
    ensures var fetched := AppsFetch(client, backend, appGroupName, appName, rangeWidth);
            && (fetched.Failure? ==> reply == Reply(StatusInternalServerError, ErrorBody(fetched.error)))
            && (fetched.Success? ==> reply.status == StatusOK)
            && (fetched.Success? && appName != "" ==>
                  reply.body.FlatBody? && IsNeighbourMap(reply.body.flat, fetched.value, appName))
            && (fetched.Success? && appName == "" ==>
                  reply.body.NestedBody? && IsAppPairMap(reply.body.nested, fetched.value) && IsSymmetric(reply.body.nested))
  {
    var width := EffectiveRangeWidth(rangeWidth);
    if appName != "" {
      var results := GetAppRequestsPerSecond(client, backend, appGroupName, appName, width);
      if results.Failure? {
        reply := Reply(StatusInternalServerError, ErrorBody(results.error));
      } else {
        var rpsValues := CollectAppNeighbours(results.value, appName);
        reply := Reply(StatusOK, FlatBody(rpsValues));
      }
    } else {
      var results := GetAppsRequestsPerSecond(client, backend, appGroupName, width);
      if results.Failure? {
        reply := Reply(StatusInternalServerError, ErrorBody(results.error));
      } else {
        var rpsValues := CollectAppPairs(results.value);
        reply := Reply(StatusOK, NestedBody(rpsValues));
      }
    }
  }

  /**
   * GET /metrics/nodes/latencies with parameters `node` and `range-width`
   * (missing parameters arrive as empty strings).
   */
  method NodesLatencies<V>(client: ClientStatus, backend: string -> Answer<V>,
                           nodeName: string, rangeWidth: string) returns (reply: Reply<V>)
    ensures reply.status == StatusOK || reply.status == StatusInternalServerError
    ensures reply.status == StatusOK <==> ServedVector(client, backend, NodesQuery(nodeName, rangeWidth))
    ensures var fetched := NodesFetch(client, backend, nodeName, rangeWidth);
            && (fetched.Failure? ==> reply == Reply(StatusInternalServerError, ErrorBody(fetched.error)))
            && (fetched.Success? ==> reply.status == StatusOK)
            && (fetched.Success? && nodeName != "" ==>
                  reply.body.FlatBody? && IsDestinationMap(reply.body.flat, fetched.value))
            && (fetched.Success? && nodeName == "" ==>
                  reply.body.NestedBody? && IsNodeEdgeMap(reply.body.nested, fetched.value))
  {
    var width := EffectiveRangeWidth(rangeWidth);
    if nodeName != "" {
      var results := GetNodeLatencies(client, backend, nodeName, width);
      if results.Failure? {
        reply := Reply(StatusInternalServerError, ErrorBody(results.error));
      } else {
        var latencyValues := CollectDestinations(results.value);
        reply := Reply(StatusOK, FlatBody(latencyValues));
      }
    } else {
      var results := GetNodesLatencies(client, backend, width);
      if results.Failure? {
        reply := Reply(StatusInternalServerError, ErrorBody(results.error));
      } else {
        var latencyValues := CollectNodeEdges(results.value);
        reply := Reply(StatusOK, NestedBody(latencyValues));
      }
    }
  }
}
