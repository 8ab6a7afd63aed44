/**
 * The folds the HTTP handlers apply to a query's samples. Each one walks the
 * samples in order and writes into a map, so a later sample overwrites an
 * earlier one that lands on the same entry.
 *
 * What a fold computes is specified by LastValue: the value of the last
 * sample that writes a given entry. It is defined by looking at the samples
 * from the end, independently of the forward loops that build the maps.
 */
module Aggregation {
  import opened Wrappers
  import opened Metrics

  /** The entry of a result map a sample may write. */
  datatype Entry =
    | Neighbour(app: string, peer: string)      // flat map of one application's peers, key `peer`
    | AppPair(app: string, peer: string)        // nested map of application pairs, cell [app][peer]
    | Destination(node: string)                 // flat map of one node's destinations, key `node`
    | NodeEdge(origin: string, destination: string)  // nested map of node pairs, cell [origin][destination]

  /** Sample `s` writes entry `e` in the fold that entry belongs to. */
  predicate Writes<V>(s: Sample<V>, e: Entry)
  {
    match e
    case Neighbour(app, peer) =>
      if Label(s, SourceApp) == app then Label(s, DestinationApp) == peer
      else Label(s, DestinationApp) == app && Label(s, SourceApp) == peer
    case AppPair(app, peer) =>
      (Label(s, SourceApp) == app && Label(s, DestinationApp) == peer)
      || (Label(s, DestinationApp) == app && Label(s, SourceApp) == peer)
    case Destination(node) =>
      Label(s, DestinationNode) == node
    case NodeEdge(origin, destination) =>
      Label(s, OriginNode) == origin && Label(s, DestinationNode) == destination
  }

  /** The value of the last sample that writes `e`, if any does. */
  function LastValue<V>(samples: seq<Sample<V>>, e: Entry): Option<V>
  {
    if samples == [] then None
    else if Writes(samples[|samples| - 1], e) then Some(samples[|samples| - 1].value)
    else LastValue(samples[..|samples| - 1], e)
  }

  /** Sample `i` is the last one that writes `e`. */
  ghost predicate IsLastWriter<V>(samples: seq<Sample<V>>, e: Entry, i: int)
  {
    0 <= i < |samples| && Writes(samples[i], e)
    && forall j :: i < j < |samples| ==> !Writes(samples[j], e)
  }

  /** Looking a key up in a flat map. */
  function Lookup<V>(m: map<string, V>, k: string): Option<V>
  {
    if k in m then Some(m[k]) else None
  }

  /** Looking a cell up in a nested map. */
  function Lookup2<V>(m: map<string, map<string, V>>, a: string, b: string): Option<V>
  {
    if a in m && b in m[a] then Some(m[a][b]) else None
  }

  // ---------------------------------------------------------------------
  // Last write wins
  // ---------------------------------------------------------------------

  /** Appending a sample: it overwrites the entries it writes and leaves every other entry alone. */
  lemma LastValueAppend<V>(samples: seq<Sample<V>>, s: Sample<V>, e: Entry)
    ensures LastValue(samples + [s], e) == if Writes(s, e) then Some(s.value) else LastValue(samples, e)
  {
    assert (samples + [s])[..|samples|] == samples;
  }

  /**
   * An entry is set exactly when some sample writes it, and then it holds the
   * value of the last such sample.
   */
  lemma {:induction false} LastWriteWins<V>(samples: seq<Sample<V>>, e: Entry)
    ensures LastValue(samples, e).Some? <==> exists i :: 0 <= i < |samples| && Writes(samples[i], e)
    ensures forall i :: IsLastWriter(samples, e, i) ==> LastValue(samples, e) == Some(samples[i].value)
  {
    if samples != [] {
      var n := |samples| - 1;
      var prefix := samples[..n];
      LastWriteWins(prefix, e);
      assert samples == prefix + [samples[n]];
      LastValueAppend(prefix, samples[n], e);
      forall i | IsLastWriter(samples, e, i)
        ensures LastValue(samples, e) == Some(samples[i].value)
      {
        if i < n {
          assert IsLastWriter(prefix, e, i);
        }
      }
      if !Writes(samples[n], e) && exists i :: 0 <= i < |samples| && Writes(samples[i], e) {
        var i :| 0 <= i < |samples| && Writes(samples[i], e);
        assert prefix[i] == samples[i];
      }
    }
  }

  /** Two entries written by the same samples hold the same value. */
  lemma {:induction false} SameWritersSameValue<V>(samples: seq<Sample<V>>, e: Entry, e': Entry)
    requires forall i :: 0 <= i < |samples| ==> Writes(samples[i], e) == Writes(samples[i], e')
    ensures LastValue(samples, e) == LastValue(samples, e')
  {
    if samples != [] {
      var prefix := samples[..|samples| - 1];
      assert forall i :: 0 <= i < |prefix| ==> prefix[i] == samples[i];
      SameWritersSameValue(prefix, e, e');
    }
  }

  // ---------------------------------------------------------------------
  // What each fold builds
  // ---------------------------------------------------------------------

  /** A flat map from each peer of `app` to the value of the last sample between them. */
  ghost predicate IsNeighbourMap<V>(m: map<string, V>, samples: seq<Sample<V>>, app: string)
  {
    forall peer :: Lookup(m, peer) == LastValue(samples, Neighbour(app, peer))
  }

  /** A nested map of application pairs, filled in both directions, with no empty inner map. */
  ghost predicate IsAppPairMap<V>(m: map<string, map<string, V>>, samples: seq<Sample<V>>)
  {
    && (forall a, b :: Lookup2(m, a, b) == LastValue(samples, AppPair(a, b)))
    && (forall a :: a in m ==> m[a] != map[])
  }

  /** A flat map from each destination node to the value of the last sample reaching it. */
  ghost predicate IsDestinationMap<V>(m: map<string, V>, samples: seq<Sample<V>>)
  {
    forall node :: Lookup(m, node) == LastValue(samples, Destination(node))
  }

  /** A nested map of node pairs, origin first, with no empty inner map. */
  ghost predicate IsNodeEdgeMap<V>(m: map<string, map<string, V>>, samples: seq<Sample<V>>)
  {
    && (forall o, d :: Lookup2(m, o, d) == LastValue(samples, NodeEdge(o, d)))
    && (forall o :: o in m ==> m[o] != map[])
  }

  /** `m[a][b]` and `m[b][a]` are both absent or both present and equal. */
  ghost predicate IsSymmetric<V>(m: map<string, map<string, V>>)
  {
    forall a, b :: Lookup2(m, a, b) == Lookup2(m, b, a)
  }

  /** Some sample names `app` as its source or destination application. */
  ghost predicate MentionsApp<V>(samples: seq<Sample<V>>, app: string)
  {
    exists i :: 0 <= i < |samples| && (Label(samples[i], SourceApp) == app || Label(samples[i], DestinationApp) == app)
  }

  /** Some sample has `node` as its origin node. */
  ghost predicate HasOrigin<V>(samples: seq<Sample<V>>, node: string)
  {
    exists i :: 0 <= i < |samples| && Label(samples[i], OriginNode) == node
  }

  // ---------------------------------------------------------------------
  // The folds
  // ---------------------------------------------------------------------

  /**
   * Single application: a sample whose source is `appName` is stored under
   * its destination; otherwise one whose destination is `appName` is stored
   * under its source; any other sample is skipped.
   */
  method CollectAppNeighbours<V>(samples: seq<Sample<V>>, appName: string) returns (rpsValues: map<string, V>)
    ensures IsNeighbourMap(rpsValues, samples, appName)
  {
    rpsValues := map[];
    for i := 0 to |samples|
      invariant IsNeighbourMap(rpsValues, samples[..i], appName)
    {
      var s := samples[i];
      if Label(s, SourceApp) == appName {
        rpsValues := rpsValues[Label(s, DestinationApp) := s.value];
      } else if Label(s, DestinationApp) == appName {
        rpsValues := rpsValues[Label(s, SourceApp) := s.value];
      }
      assert samples[..i + 1] == samples[..i] + [s];
      forall peer ensures Lookup(rpsValues, peer) == LastValue(samples[..i + 1], Neighbour(appName, peer)) {
        LastValueAppend(samples[..i], s, Neighbour(appName, peer));
      }
    }
    assert samples[..|samples|] == samples;
  }

  /**
   * All application pairs: every sample is stored at [source][destination]
   * and at [destination][source], creating the inner maps on demand.
   */
  method CollectAppPairs<V>(samples: seq<Sample<V>>) returns (rpsValues: map<string, map<string, V>>)
    ensures IsAppPairMap(rpsValues, samples)
    ensures IsSymmetric(rpsValues)
    ensures forall app :: app in rpsValues <==> MentionsApp(samples, app)
  {
    rpsValues := map[];
    for i := 0 to |samples|
      invariant IsAppPairMap(rpsValues, samples[..i])
    {
      var s := samples[i];
      var src, dst := Label(s, SourceApp), Label(s, DestinationApp);
      ghost var before := rpsValues;
      if src !in rpsValues {
        rpsValues := rpsValues[src := map[]];
      }
      rpsValues := rpsValues[src := rpsValues[src][dst := s.value]];
      SetCell(before, rpsValues, src, dst, s.value);
      ghost var middle := rpsValues;
      if dst !in rpsValues {
        rpsValues := rpsValues[dst := map[]];
      }
      rpsValues := rpsValues[dst := rpsValues[dst][src := s.value]];
      SetCell(middle, rpsValues, dst, src, s.value);
      assert samples[..i + 1] == samples[..i] + [s];
      AppPairStep(samples[..i], s);
    }
    assert samples[..|samples|] == samples;
    AppPairMapSymmetric(rpsValues, samples);
    AppPairMapKeys(rpsValues, samples);
  }

  /** Single node: every sample is stored under its destination node. */
  method CollectDestinations<V>(samples: seq<Sample<V>>) returns (latencyValues: map<string, V>)
    ensures IsDestinationMap(latencyValues, samples)
  {
    latencyValues := map[];
    for i := 0 to |samples|
      invariant IsDestinationMap(latencyValues, samples[..i])
    {
      var s := samples[i];
      latencyValues := latencyValues[Label(s, DestinationNode) := s.value];
      assert samples[..i + 1] == samples[..i] + [s];
      forall node ensures Lookup(latencyValues, node) == LastValue(samples[..i + 1], Destination(node)) {
        LastValueAppend(samples[..i], s, Destination(node));
      }
    }
    assert samples[..|samples|] == samples;
  }

  /**
   * All node pairs: every sample is stored at [origin][destination] only,
   * creating the inner map on demand.
   */
  method CollectNodeEdges<V>(samples: seq<Sample<V>>) returns (latencyValues: map<string, map<string, V>>)
    ensures IsNodeEdgeMap(latencyValues, samples)
    ensures forall node :: node in latencyValues <==> HasOrigin(samples, node)
  {
    latencyValues := map[];
    for i := 0 to |samples|
      invariant IsNodeEdgeMap(latencyValues, samples[..i])
    {
      var s := samples[i];
      var origin, destination := Label(s, OriginNode), Label(s, DestinationNode);
      ghost var before := latencyValues;
      if origin !in latencyValues {
        latencyValues := latencyValues[origin := map[]];
      }
      latencyValues := latencyValues[origin := latencyValues[origin][destination := s.value]];
      SetCell(before, latencyValues, origin, destination, s.value);
      assert samples[..i + 1] == samples[..i] + [s];
      NodeEdgeStep(samples[..i], s);
    }
    assert samples[..|samples|] == samples;
    NodeEdgeMapKeys(latencyValues, samples);
  }

  /**
   * Writing one cell of a nested map, creating its inner map when missing,
   * changes that cell only and leaves no inner map empty.
   */
  lemma SetCell<V>(before: map<string, map<string, V>>, after: map<string, map<string, V>>, a: string, b: string, v: V)
    requires after == before[a := (if a in before then before[a] else map[])[b := v]]
    requires forall k :: k in before ==> before[k] != map[]
    ensures forall x, y :: Lookup2(after, x, y) == if x == a && y == b then Some(v) else Lookup2(before, x, y)
    ensures forall k :: k in after ==> after[k] != map[]
  {
    assert b in after[a];
  }

  // ---------------------------------------------------------------------
  // Properties of the folds
  // ---------------------------------------------------------------------

  /** The pair map is symmetric: each sample names an unordered pair. */
  lemma AppPairMapSymmetric<V>(m: map<string, map<string, V>>, samples: seq<Sample<V>>)
    requires IsAppPairMap(m, samples)
    ensures IsSymmetric(m)
  {
    forall a, b ensures Lookup2(m, a, b) == Lookup2(m, b, a) {
      SameWritersSameValue(samples, AppPair(a, b), AppPair(b, a));
    }
  }

  /** The pair map's outer keys are exactly the applications the samples name, on either side. */
  lemma AppPairMapKeys<V>(m: map<string, map<string, V>>, samples: seq<Sample<V>>)
    requires IsAppPairMap(m, samples)
    ensures forall app :: app in m <==> MentionsApp(samples, app)
  {
    forall app ensures app in m <==> MentionsApp(samples, app) {
      if app in m {
        var peer :| peer in m[app];
        assert Lookup2(m, app, peer).Some?;
        LastWriteWins(samples, AppPair(app, peer));
      }
      if MentionsApp(samples, app) {
        var i :| 0 <= i < |samples| && (Label(samples[i], SourceApp) == app || Label(samples[i], DestinationApp) == app);
        var peer := if Label(samples[i], SourceApp) == app then Label(samples[i], DestinationApp) else Label(samples[i], SourceApp);
        assert Writes(samples[i], AppPair(app, peer));
        LastWriteWins(samples, AppPair(app, peer));
        assert Lookup2(m, app, peer).Some?;
      }
    }
  }

  /** The node map's outer keys are exactly the origin nodes the samples name. */
  lemma NodeEdgeMapKeys<V>(m: map<string, map<string, V>>, samples: seq<Sample<V>>)
    requires IsNodeEdgeMap(m, samples)
    ensures forall node :: node in m <==> HasOrigin(samples, node)
  {
    forall node ensures node in m <==> HasOrigin(samples, node) {
      if node in m {
        var d :| d in m[node];
        assert Lookup2(m, node, d).Some?;
        LastWriteWins(samples, NodeEdge(node, d));
      }
      if HasOrigin(samples, node) {
        var i :| 0 <= i < |samples| && Label(samples[i], OriginNode) == node;
        var d := Label(samples[i], DestinationNode);
        assert Writes(samples[i], NodeEdge(node, d));
        LastWriteWins(samples, NodeEdge(node, d));
        assert Lookup2(m, node, d).Some?;
      }
    }
  }

  /**
   * One more sample in the single-application fold: a source match is stored
   * under the destination (so a self-loop lands under `app` itself), else a
   * destination match under the source, else nothing changes.
   */
  lemma NeighbourStep<V>(samples: seq<Sample<V>>, s: Sample<V>, app: string)
    ensures Label(s, SourceApp) == app ==>
              forall peer :: LastValue(samples + [s], Neighbour(app, peer))
                             == if peer == Label(s, DestinationApp) then Some(s.value) else LastValue(samples, Neighbour(app, peer))
    ensures Label(s, SourceApp) != app && Label(s, DestinationApp) == app ==>
              forall peer :: LastValue(samples + [s], Neighbour(app, peer))
                             == if peer == Label(s, SourceApp) then Some(s.value) else LastValue(samples, Neighbour(app, peer))
    ensures Label(s, SourceApp) != app && Label(s, DestinationApp) != app ==>
              forall peer :: LastValue(samples + [s], Neighbour(app, peer)) == LastValue(samples, Neighbour(app, peer))
  {
    forall peer ensures LastValue(samples + [s], Neighbour(app, peer))
                        == if Writes(s, Neighbour(app, peer)) then Some(s.value) else LastValue(samples, Neighbour(app, peer))
    {
      LastValueAppend(samples, s, Neighbour(app, peer));
    }
  }

  /**
   * The focal application is a key of its own neighbour map exactly when
   * some sample goes from it to itself.
   */
  lemma FocalAppKey<V>(m: map<string, V>, samples: seq<Sample<V>>, app: string)
    requires IsNeighbourMap(m, samples, app)
    ensures app in m <==> exists i :: 0 <= i < |samples| && Label(samples[i], SourceApp) == app && Label(samples[i], DestinationApp) == app
  {
    assert Lookup(m, app) == LastValue(samples, Neighbour(app, app));
    LastWriteWins(samples, Neighbour(app, app));
  }

  /** One more sample in the pair fold sets both cells of its pair and no other cell. */
  lemma AppPairStep<V>(samples: seq<Sample<V>>, s: Sample<V>)
    ensures var src, dst := Label(s, SourceApp), Label(s, DestinationApp);
            forall a, b :: LastValue(samples + [s], AppPair(a, b))
                           == if (a == src && b == dst) || (a == dst && b == src) then Some(s.value)
                              else LastValue(samples, AppPair(a, b))
  {
    forall a, b ensures LastValue(samples + [s], AppPair(a, b))
                        == if Writes(s, AppPair(a, b)) then Some(s.value) else LastValue(samples, AppPair(a, b))
    {
      LastValueAppend(samples, s, AppPair(a, b));
    }
  }

  /** In the pair map, each cell holds the value of the last sample naming that pair, in either order. */
  lemma AppPairMapLastWrite<V>(m: map<string, map<string, V>>, samples: seq<Sample<V>>)
    requires IsAppPairMap(m, samples)
    ensures forall a, b, i {:trigger IsLastWriter(samples, AppPair(a, b), i)} ::
              IsLastWriter(samples, AppPair(a, b), i) ==> a in m && b in m[a] && m[a][b] == samples[i].value
    ensures forall a, b :: (forall i :: 0 <= i < |samples| ==> !Writes(samples[i], AppPair(a, b))) ==> !(a in m && b in m[a])
  {
    forall a, b, i ensures IsLastWriter(samples, AppPair(a, b), i) ==> a in m && b in m[a] && m[a][b] == samples[i].value {
      LastWriteWins(samples, AppPair(a, b));
      assert Lookup2(m, a, b) == LastValue(samples, AppPair(a, b));
    }
    forall a, b | forall i :: 0 <= i < |samples| ==> !Writes(samples[i], AppPair(a, b))
      ensures !(a in m && b in m[a])
    {
      LastWriteWins(samples, AppPair(a, b));
      assert Lookup2(m, a, b) == LastValue(samples, AppPair(a, b));
    }
  }

  /** The destination map's keys are the destinations seen, each holding its last sample's value. */
  lemma DestinationMapLastWrite<V>(m: map<string, V>, samples: seq<Sample<V>>)
    requires IsDestinationMap(m, samples)
    ensures forall node :: node in m <==> exists i :: 0 <= i < |samples| && Label(samples[i], DestinationNode) == node
    ensures forall node, i {:trigger IsLastWriter(samples, Destination(node), i)} ::
              IsLastWriter(samples, Destination(node), i) ==> node in m && m[node] == samples[i].value
  {
    forall node ensures node in m <==> exists i :: 0 <= i < |samples| && Label(samples[i], DestinationNode) == node {
      LastWriteWins(samples, Destination(node));
      assert Lookup(m, node) == LastValue(samples, Destination(node));
    }
    forall node, i ensures IsLastWriter(samples, Destination(node), i) ==> node in m && m[node] == samples[i].value {
      LastWriteWins(samples, Destination(node));
      assert Lookup(m, node) == LastValue(samples, Destination(node));
    }
  }

  /**
   * One more sample in the node-pair fold sets [origin][destination] and no
   * other cell; in particular not the reverse cell.
   */
  lemma NodeEdgeStep<V>(samples: seq<Sample<V>>, s: Sample<V>)
    ensures var origin, destination := Label(s, OriginNode), Label(s, DestinationNode);
            forall o, d :: LastValue(samples + [s], NodeEdge(o, d))
                           == if o == origin && d == destination then Some(s.value) else LastValue(samples, NodeEdge(o, d))
    ensures var origin, destination := Label(s, OriginNode), Label(s, DestinationNode);
            origin != destination ==>
              LastValue(samples + [s], NodeEdge(destination, origin)) == LastValue(samples, NodeEdge(destination, origin))
  {
    forall o, d ensures LastValue(samples + [s], NodeEdge(o, d))
                        == if Writes(s, NodeEdge(o, d)) then Some(s.value) else LastValue(samples, NodeEdge(o, d))
    {
      LastValueAppend(samples, s, NodeEdge(o, d));
    }
  }

  // ---------------------------------------------------------------------
  // Worked examples
  // ---------------------------------------------------------------------

  /** Two flat maps that agree on every lookup are equal. */
  lemma FlatMapsEqual<V>(m: map<string, V>, m': map<string, V>)
    requires forall k :: Lookup(m, k) == Lookup(m', k)
    ensures m == m'
  {
    assert forall k :: k in m <==> Lookup(m, k).Some?;
    assert m.Keys == m'.Keys;
  }

  /** Two nested maps without empty inner maps that agree on every cell are equal. */
  lemma NestedMapsEqual<V>(m: map<string, map<string, V>>, m': map<string, map<string, V>>)
    requires forall a, b :: Lookup2(m, a, b) == Lookup2(m', a, b)
    requires forall a :: a in m ==> m[a] != map[]
    requires forall a :: a in m' ==> m'[a] != map[]
    ensures m == m'
  {
    forall a | a in m ensures a in m' {
      var b :| b in m[a];
      assert Lookup2(m, a, b).Some?;
    }
    forall a | a in m' ensures a in m {
      var b :| b in m'[a];
      assert Lookup2(m', a, b).Some?;
    }
    forall a | a in m ensures m[a] == m'[a] {
      forall b ensures Lookup(m[a], b) == Lookup(m'[a], b) {
        assert Lookup2(m, a, b) == Lookup2(m', a, b);
      }
      FlatMapsEqual(m[a], m'[a]);
    }
  }

  function AppSample(src: string, dst: string, value: int): Sample<int>
  {
    Sample(map[SourceApp := src, DestinationApp := dst], value)
  }

  /** Focal app A and one sample A to B with value 2: the result is {B: 2}. */
  lemma NeighbourExample(m: map<string, int>)
    requires IsNeighbourMap(m, [AppSample("A", "B", 2)], "A")
    ensures m == map["B" := 2]
  {
    var s := AppSample("A", "B", 2);
    var samples := [s];
    assert Label(s, SourceApp) == "A" && Label(s, DestinationApp) == "B";
    assert [] + [s] == samples;
    forall peer ensures Lookup(m, peer) == Lookup(map["B" := 2], peer) {
      LastValueAppend([], s, Neighbour("A", peer));
      assert Lookup(m, peer) == LastValue(samples, Neighbour("A", peer));
    }
    FlatMapsEqual(m, map["B" := 2]);
  }

  /**
   * No focal app, samples A to B (2) and C to A (3): the result is
   * {A: {B: 2, C: 3}, B: {A: 2}, C: {A: 3}}.
   */
  lemma AppPairExample(m: map<string, map<string, int>>)
    requires IsAppPairMap(m, [AppSample("A", "B", 2), AppSample("C", "A", 3)])
    ensures m == map["A" := map["B" := 2, "C" := 3], "B" := map["A" := 2], "C" := map["A" := 3]]
  {
    var s1, s2 := AppSample("A", "B", 2), AppSample("C", "A", 3);
    var samples := [s1, s2];
    var expected := map["A" := map["B" := 2, "C" := 3], "B" := map["A" := 2], "C" := map["A" := 3]];
    assert Label(s1, SourceApp) == "A" && Label(s1, DestinationApp) == "B";
    assert Label(s2, SourceApp) == "C" && Label(s2, DestinationApp) == "A";
    assert [] + [s1] == [s1] && [s1] + [s2] == samples;
    forall a, b ensures Lookup2(m, a, b) == Lookup2(expected, a, b) {
      LastValueAppend([], s1, AppPair(a, b));
      LastValueAppend([s1], s2, AppPair(a, b));
      assert Lookup2(m, a, b) == LastValue(samples, AppPair(a, b));
    }
    assert "B" in expected["A"] && "A" in expected["B"] && "A" in expected["C"];
    NestedMapsEqual(m, expected);
  }

  /** No focal node, one sample n1 to n2 with value 5: the result is {n1: {n2: 5}} and has no n2 row. */
  lemma NodeEdgeExample(m: map<string, map<string, int>>)
    requires IsNodeEdgeMap(m, [Sample(map[OriginNode := "n1", DestinationNode := "n2"], 5)])
    ensures m == map["n1" := map["n2" := 5]]
    ensures "n2" !in m
  {
    var s := Sample(map[OriginNode := "n1", DestinationNode := "n2"], 5);
    var samples := [s];
    var expected := map["n1" := map["n2" := 5]];
    assert Label(s, OriginNode) == "n1" && Label(s, DestinationNode) == "n2";
    assert [] + [s] == samples;
    forall o, d ensures Lookup2(m, o, d) == Lookup2(expected, o, d) {
      LastValueAppend([], s, NodeEdge(o, d));
      assert Lookup2(m, o, d) == LastValue(samples, NodeEdge(o, d));
    }
    assert "n2" in expected["n1"];
    NestedMapsEqual(m, expected);
  }
}
