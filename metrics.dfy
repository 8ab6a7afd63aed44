/**
 * The metrics package: the four fixed query templates sent to the metrics
 * backend, and the instant query that turns the backend's answer into a
 * vector of labelled samples or an error.
 *
 * Each query is one concatenation of a fixed text with the caller's
 * parameters. The fixed pieces are named below; every template is exactly
 * the concatenation shown in its function. Nothing is escaped, so a
 * parameter holding a double quote (or, for a range width, a closing
 * bracket) can change the structure of the query; the parsers in this
 * module recover the parameters exactly when that does not happen.
 */
module Metrics {
  import opened Wrappers

  /** Label names read by the aggregation in the HTTP handlers. */
  const SourceApp: string := "source_app"
  const DestinationApp: string := "destination_app"
  const OriginNode: string := "origin_node"
  const DestinationNode: string := "destination_node"

  /** A label set: label name to label value. */
  type LabelSet = map<string, string>

  /** One sample of an instant vector. The value is never computed on, only copied. */
  datatype Sample<V> = Sample(metric: LabelSet, value: V)

  /** Reading a label that the sample does not carry gives the empty string. */
  function Label<V>(s: Sample<V>, name: string): string
  {
    if name in s.metric then s.metric[name] else ""
  }

  // ---------------------------------------------------------------------
  // Fixed pieces of the query templates
  // ---------------------------------------------------------------------

  /** The two matchers that drop samples whose peer application is unknown. */
  const ExcludeUnknown: string := "source_app!=\"unknown\", destination_app!=\"unknown\""
  /** The matcher that keeps only samples reported by the calling side. */
  const ReporterSource: string := "reporter=\"source\""

  const AppPairHead: string := "\n\t\trate(istio_requests_total{app_group=\""
  const AppPairMid: string := "\", app=\""
  const WithinGroupHead: string := "\n\t\trate(istio_requests_total{" + ReporterSource + ", app_group=\""
  /** Closes the group (or app) matcher, adds the exclusions and opens the range. */
  const AppTail: string := "\", " + ExcludeUnknown + "}["
  const AppEnd: string := "])\n\t"

  const NodeSumHead: string := "\n\t\t(rate(node_latency_sum{origin_node=\""
  const NodeRange: string := "\"}["
  const NodeCountHead: string := "]) / rate(node_latency_count{origin_node=\""
  const AllSumHead: string := "\n\t\t(rate(node_latency_sum["
  const AllCountHead: string := "]) / rate(node_latency_count["
  /** Closes the ratio and scales it from seconds to milliseconds. */
  const LatencyEnd: string := "])) * 1000\n\t"

  // ---------------------------------------------------------------------
  // Sequence helpers
  // ---------------------------------------------------------------------

  /** `suffix` ends `s`. */
  predicate EndsWith(s: string, suffix: string)
  {
    |suffix| <= |s| && s[|s| - |suffix|..] == suffix
  }

  /** The longest prefix of `s` in which `stop` does not occur. */
  function UpTo(s: string, stop: char): (p: string)
    ensures p <= s && stop !in p
    ensures |p| < |s| ==> s[|p|] == stop
  {
    if s == [] || s[0] == stop then [] else [s[0]] + UpTo(s[1..], stop)
  }

  /** A field free of `stop` and followed by `stop` is exactly what UpTo reads. */
  lemma UpToField(field: string, rest: string, stop: char)
    requires stop !in field && rest != [] && rest[0] == stop
    ensures UpTo(field + rest, stop) == field
  {
    var p := UpTo(field + rest, stop);
    assert (field + rest)[|field|] == stop;
    assert forall i :: 0 <= i < |field| ==> (field + rest)[i] == field[i];
    assert p == (field + rest)[..|field|] == field;
  }

  // ---------------------------------------------------------------------
  // The four query templates
  // ---------------------------------------------------------------------

  /** The text `x` stands in `q` from position `i` on. */
  predicate FieldAt(q: string, i: int, x: string)
  {
    0 <= i && i + |x| <= |q| && q[i..i + |x|] == x
  }

  lemma FieldAtEnd(p: string, x: string)
    ensures FieldAt(p + x, |p|, x)
  {
    assert (p + x)[|p|..|p| + |x|] == x;
  }

  lemma FieldExtend(q: string, i: int, x: string, s: string)
    requires FieldAt(q, i, x)
    ensures FieldAt(q + s, i, x)
  {
    assert (q + s)[i..i + |x|] == q[i..i + |x|];
  }

  /** Where the even-numbered pieces of a five-piece concatenation stand. */
  lemma FieldsOf5(a: string, b: string, c: string, d: string, e: string)
    ensures var q := a + b + c + d + e;
            && FieldAt(q, |a|, b)
            && FieldAt(q, |a| + |b| + |c|, d)
  {
    FieldAtEnd(a, b);
    FieldExtend(a + b, |a|, b, c);
    FieldExtend(a + b + c, |a|, b, d);
    FieldExtend(a + b + c + d, |a|, b, e);
    FieldAtEnd(a + b + c, d);
    FieldExtend(a + b + c + d, |a + b + c|, d, e);
  }

  /** Where the even-numbered pieces of a seven-piece concatenation stand. */
  lemma FieldsOf7(a: string, b: string, c: string, d: string, e: string, f: string, g: string)
    ensures var q := a + b + c + d + e + f + g;
            && FieldAt(q, |a|, b)
            && FieldAt(q, |a| + |b| + |c|, d)
            && FieldAt(q, |a| + |b| + |c| + |d| + |e|, f)
  {
    FieldAtEnd(a, b);
    FieldExtend(a + b, |a|, b, c);
    FieldExtend(a + b + c, |a|, b, d);
    FieldExtend(a + b + c + d, |a|, b, e);
    FieldExtend(a + b + c + d + e, |a|, b, f);
    FieldExtend(a + b + c + d + e + f, |a|, b, g);
    FieldAtEnd(a + b + c, d);
    FieldExtend(a + b + c + d, |a + b + c|, d, e);
    FieldExtend(a + b + c + d + e, |a + b + c|, d, f);
    FieldExtend(a + b + c + d + e + f, |a + b + c|, d, g);
    FieldAtEnd(a + b + c + d + e, f);
    FieldExtend(a + b + c + d + e + f, |a + b + c + d + e|, f, g);
  }

  /** Where the even-numbered pieces of a nine-piece concatenation stand. */
  lemma FieldsOf9(a: string, b: string, c: string, d: string, e: string, f: string, g: string, h: string, i: string)
    ensures var q := a + b + c + d + e + f + g + h + i;
            && FieldAt(q, |a|, b)
            && FieldAt(q, |a| + |b| + |c|, d)
            && FieldAt(q, |a| + |b| + |c| + |d| + |e|, f)
            && FieldAt(q, |a| + |b| + |c| + |d| + |e| + |f| + |g|, h)
  {
    FieldAtEnd(a, b);
    FieldExtend(a + b, |a|, b, c);
    FieldExtend(a + b + c, |a|, b, d);
    FieldExtend(a + b + c + d, |a|, b, e);
    FieldExtend(a + b + c + d + e, |a|, b, f);
    FieldExtend(a + b + c + d + e + f, |a|, b, g);
    FieldExtend(a + b + c + d + e + f + g, |a|, b, h);
    FieldExtend(a + b + c + d + e + f + g + h, |a|, b, i);
    FieldAtEnd(a + b + c, d);
    FieldExtend(a + b + c + d, |a + b + c|, d, e);
    FieldExtend(a + b + c + d + e, |a + b + c|, d, f);
    FieldExtend(a + b + c + d + e + f, |a + b + c|, d, g);
    FieldExtend(a + b + c + d + e + f + g, |a + b + c|, d, h);
    FieldExtend(a + b + c + d + e + f + g + h, |a + b + c|, d, i);
    FieldAtEnd(a + b + c + d + e, f);
    FieldExtend(a + b + c + d + e + f, |a + b + c + d + e|, f, g);
    FieldExtend(a + b + c + d + e + f + g, |a + b + c + d + e|, f, h);
    FieldExtend(a + b + c + d + e + f + g + h, |a + b + c + d + e|, f, i);
    FieldAtEnd(a + b + c + d + e + f + g, h);
    FieldExtend(a + b + c + d + e + f + g + h, |a + b + c + d + e + f + g|, h, i);
  }

  /** Request rate between one application and its peers inside a group. */
  function AppRequestsPerSecondQuery(appGroupName: string, appName: string, rangeWidth: string): (q: string)
    ensures |q| == |AppPairHead| + |appGroupName| + |AppPairMid| + |appName| + |AppTail| + |rangeWidth| + |AppEnd|
    ensures AppPairHead <= q && EndsWith(q, AppEnd)
    ensures FieldAt(q, |AppPairHead|, appGroupName)
    ensures FieldAt(q, |AppPairHead| + |appGroupName| + |AppPairMid|, appName)
    ensures FieldAt(q, |AppPairHead| + |appGroupName| + |AppPairMid| + |appName| + |AppTail|, rangeWidth)
  {
    FieldsOf7(AppPairHead, appGroupName, AppPairMid, appName, AppTail, rangeWidth, AppEnd);
    AppPairHead + appGroupName + AppPairMid + appName + AppTail + rangeWidth + AppEnd
  }

  /** Request rate of every application pair inside a group, counted at the calling side only. */
  function AppsRequestsPerSecondQuery(appGroupName: string, rangeWidth: string): (q: string)
    ensures |q| == |WithinGroupHead| + |appGroupName| + |AppTail| + |rangeWidth| + |AppEnd|
    ensures WithinGroupHead <= q && EndsWith(q, AppEnd)
    ensures FieldAt(q, |WithinGroupHead|, appGroupName)
    ensures FieldAt(q, |WithinGroupHead| + |appGroupName| + |AppTail|, rangeWidth)
  {
    FieldsOf5(WithinGroupHead, appGroupName, AppTail, rangeWidth, AppEnd);
    WithinGroupHead + appGroupName + AppTail + rangeWidth + AppEnd
  }

  /** Mean latency, in milliseconds, from one node to each destination node. */
  function NodeLatenciesQuery(nodeName: string, rangeWidth: string): (q: string)
    ensures |q| == |NodeSumHead| + 2 * |nodeName| + 2 * |NodeRange| + 2 * |rangeWidth| + |NodeCountHead| + |LatencyEnd|
    ensures NodeSumHead <= q && EndsWith(q, LatencyEnd)
    ensures FieldAt(q, |NodeSumHead|, nodeName)
    ensures FieldAt(q, |NodeSumHead| + |nodeName| + |NodeRange|, rangeWidth)
    ensures FieldAt(q, |NodeSumHead| + |nodeName| + |NodeRange| + |rangeWidth| + |NodeCountHead|, nodeName)
    ensures FieldAt(q, |NodeSumHead| + 2 * |nodeName| + 2 * |NodeRange| + |rangeWidth| + |NodeCountHead|, rangeWidth)
  {
    FieldsOf9(NodeSumHead, nodeName, NodeRange, rangeWidth, NodeCountHead, nodeName, NodeRange, rangeWidth, LatencyEnd);
    NodeSumHead + nodeName + NodeRange + rangeWidth + NodeCountHead + nodeName + NodeRange + rangeWidth + LatencyEnd
  }

  /** Mean latency, in milliseconds, between every pair of nodes. */
  function NodesLatenciesQuery(rangeWidth: string): (q: string)
    ensures |q| == |AllSumHead| + 2 * |rangeWidth| + |AllCountHead| + |LatencyEnd|
    ensures AllSumHead <= q && EndsWith(q, LatencyEnd)
    ensures FieldAt(q, |AllSumHead|, rangeWidth)
    ensures FieldAt(q, |AllSumHead| + |rangeWidth| + |AllCountHead|, rangeWidth)
  {
    FieldsOf5(AllSumHead, rangeWidth, AllCountHead, rangeWidth, LatencyEnd);
    AllSumHead + rangeWidth + AllCountHead + rangeWidth + LatencyEnd
  }

  // ---------------------------------------------------------------------
  // Reading the parameters back out of a query
  // ---------------------------------------------------------------------

  /**
   * Recovers group, application and range width from a pair query, reading
   * each quoted value up to the next double quote.
   */
  function ParseAppRequestsPerSecondQuery(q: string): (r: Option<(string, string, string)>)
    ensures r.Some? ==> '"' !in r.value.0 && '"' !in r.value.1
  {
    if !(AppPairHead <= q) then None
    else
      var afterHead := q[|AppPairHead|..];
      var group := UpTo(afterHead, '"');
      var afterGroup := afterHead[|group|..];
      if !(AppPairMid <= afterGroup) then None
      else
        var afterMid := afterGroup[|AppPairMid|..];
        var app := UpTo(afterMid, '"');
        var afterApp := afterMid[|app|..];
        if !(AppTail <= afterApp) then None
        else
          var range := afterApp[|AppTail|..];
          if !EndsWith(range, AppEnd) then None
          else Some((group, app, range[..|range| - |AppEnd|]))
  }

  /** Recovers group and range width from a within-group query. */
  function ParseAppsRequestsPerSecondQuery(q: string): (r: Option<(string, string)>)
    ensures r.Some? ==> '"' !in r.value.0
  {
    if !(WithinGroupHead <= q) then None
    else
      var afterHead := q[|WithinGroupHead|..];
      var group := UpTo(afterHead, '"');
      var afterGroup := afterHead[|group|..];
      if !(AppTail <= afterGroup) then None
      else
        var range := afterGroup[|AppTail|..];
        if !EndsWith(range, AppEnd) then None
        else Some((group, range[..|range| - |AppEnd|]))
  }

  /**
   * Recovers node name and range width from a single-node latency query:
   * both are read from the latency-sum selector, and the latency-count
   * selector must repeat them.
   */
  function ParseNodeLatenciesQuery(q: string): (r: Option<(string, string)>)
    ensures r.Some? ==> '"' !in r.value.0 && ']' !in r.value.1
  {
    if !(NodeSumHead <= q) then None
    else
      var afterHead := q[|NodeSumHead|..];
      var node := UpTo(afterHead, '"');
      var afterNode := afterHead[|node|..];
      if !(NodeRange <= afterNode) then None
      else
        var afterOpen := afterNode[|NodeRange|..];
        var range := UpTo(afterOpen, ']');
        if afterOpen[|range|..] == NodeCountHead + node + NodeRange + range + LatencyEnd
        then Some((node, range))
        else None
  }

  /** Dropping a prefix that is there and putting it back gives the original text. */
  lemma SplitAtPrefix(s: string, prefix: string)
    requires prefix <= s
    ensures s == prefix + s[|prefix|..]
  {
  }

  /** Dropping a suffix that is there and putting it back gives the original text. */
  lemma SplitAtSuffix(s: string, suffix: string)
    requires EndsWith(s, suffix)
    ensures s == s[..|s| - |suffix|] + suffix
  {
  }

  /** Reading past a fixed text: what follows it is what was appended. */
  lemma SkipPrefix(prefix: string, rest: string)
    ensures prefix <= prefix + rest && (prefix + rest)[|prefix|..] == rest
  {
  }

  /** Reading up to a fixed suffix: what precedes it is what it was appended to. */
  lemma SkipSuffix(rest: string, suffix: string)
    ensures EndsWith(rest + suffix, suffix) && (rest + suffix)[..|rest|] == rest
  {
  }

  /** Reading a stop-free field: UpTo returns it and leaves exactly what followed. */
  lemma ReadField(field: string, rest: string, stop: char)
    requires stop !in field && rest != [] && rest[0] == stop
    ensures UpTo(field + rest, stop) == field && (field + rest)[|field|..] == rest
  {
    UpToField(field, rest, stop);
  }

  /** Concatenation regrouped: used to match a text read piece by piece against a template. */
  lemma Regroup(a: string, b: string, c: string, d: string, e: string, f: string, g: string)
    ensures a + (b + (c + (d + (e + (f + g))))) == a + b + c + d + e + f + g
    ensures a + (b + (c + (d + e))) == a + b + c + d + e
  {
  }

  lemma RegroupTail(a: string, b: string, c: string, d: string, e: string, f: string, g: string, h: string, i: string)
    ensures a + (b + (c + (d + (e + f + g + h + i)))) == a + b + c + d + e + f + g + h + i
  {
    assert e + f + g + h + i == e + (f + (g + (h + i)));
    assert a + b + c + d + e + f + g + h + i == a + (b + (c + (d + (e + (f + (g + (h + i)))))));
  }

  /** A pair query that parses is the template applied to what was read. */
  lemma {:induction false} ParseAppRequestsPerSecondQuerySound(q: string)
    ensures ParseAppRequestsPerSecondQuery(q).Some? ==>
              var (group, app, range) := ParseAppRequestsPerSecondQuery(q).value;
              q == AppRequestsPerSecondQuery(group, app, range)
  {
    if ParseAppRequestsPerSecondQuery(q).Some? {
      var afterHead := q[|AppPairHead|..];
      var group := UpTo(afterHead, '"');
      var afterGroup := afterHead[|group|..];
      var afterMid := afterGroup[|AppPairMid|..];
      var app := UpTo(afterMid, '"');
      var afterApp := afterMid[|app|..];
      var range := afterApp[|AppTail|..];
      var width := range[..|range| - |AppEnd|];
      SplitAtSuffix(range, AppEnd);
      SplitAtPrefix(afterApp, AppTail);
      SplitAtPrefix(afterMid, app);
      SplitAtPrefix(afterGroup, AppPairMid);
      SplitAtPrefix(afterHead, group);
      SplitAtPrefix(q, AppPairHead);
      Regroup(AppPairHead, group, AppPairMid, app, AppTail, width, AppEnd);
    }
  }

  /** A pair query built from quote-free names parses back into its parameters. */
  lemma {:induction false} AppRequestsPerSecondQueryRoundTrip(appGroupName: string, appName: string, rangeWidth: string)
    requires '"' !in appGroupName && '"' !in appName
    ensures ParseAppRequestsPerSecondQuery(AppRequestsPerSecondQuery(appGroupName, appName, rangeWidth))
            == Some((appGroupName, appName, rangeWidth))
  {
    var q := AppRequestsPerSecondQuery(appGroupName, appName, rangeWidth);
    var range := rangeWidth + AppEnd;
    var afterApp := AppTail + range;
    var afterMid := appName + afterApp;
    var afterGroup := AppPairMid + afterMid;
    var afterHead := appGroupName + afterGroup;
    Regroup(AppPairHead, appGroupName, AppPairMid, appName, AppTail, rangeWidth, AppEnd);
    assert q == AppPairHead + afterHead;
    SkipPrefix(AppPairHead, afterHead);
    assert q[|AppPairHead|..] == afterHead;
    ReadField(appGroupName, afterGroup, '"');
    assert UpTo(afterHead, '"') == appGroupName && afterHead[|appGroupName|..] == afterGroup;
    SkipPrefix(AppPairMid, afterMid);
    assert AppPairMid <= afterGroup && afterGroup[|AppPairMid|..] == afterMid;
    ReadField(appName, afterApp, '"');
    assert UpTo(afterMid, '"') == appName && afterMid[|appName|..] == afterApp;
    SkipPrefix(AppTail, range);
    assert AppTail <= afterApp && afterApp[|AppTail|..] == range;
    SkipSuffix(rangeWidth, AppEnd);
    assert EndsWith(range, AppEnd) && range[..|range| - |AppEnd|] == rangeWidth;
  }

  /** A within-group query that parses is the template applied to what was read. */
  lemma {:induction false} ParseAppsRequestsPerSecondQuerySound(q: string)
    ensures ParseAppsRequestsPerSecondQuery(q).Some? ==>
              var (group, range) := ParseAppsRequestsPerSecondQuery(q).value;
              q == AppsRequestsPerSecondQuery(group, range)
  {
    if ParseAppsRequestsPerSecondQuery(q).Some? {
      var afterHead := q[|WithinGroupHead|..];
      var group := UpTo(afterHead, '"');
      var afterGroup := afterHead[|group|..];
      var range := afterGroup[|AppTail|..];
      var width := range[..|range| - |AppEnd|];
      SplitAtSuffix(range, AppEnd);
      SplitAtPrefix(afterGroup, AppTail);
      SplitAtPrefix(afterHead, group);
      SplitAtPrefix(q, WithinGroupHead);
      Regroup(WithinGroupHead, group, AppTail, width, AppEnd, [], []);
    }
  }

  /** A within-group query built from a quote-free group parses back into its parameters. */
  lemma {:induction false} AppsRequestsPerSecondQueryRoundTrip(appGroupName: string, rangeWidth: string)
    requires '"' !in appGroupName
    ensures ParseAppsRequestsPerSecondQuery(AppsRequestsPerSecondQuery(appGroupName, rangeWidth))
            == Some((appGroupName, rangeWidth))
  {
    var q := AppsRequestsPerSecondQuery(appGroupName, rangeWidth);
    var range := rangeWidth + AppEnd;
    var afterGroup := AppTail + range;
    var afterHead := appGroupName + afterGroup;
    Regroup(WithinGroupHead, appGroupName, AppTail, rangeWidth, AppEnd, [], []);
    assert q == WithinGroupHead + afterHead;
    SkipPrefix(WithinGroupHead, afterHead);
    assert q[|WithinGroupHead|..] == afterHead;
    ReadField(appGroupName, afterGroup, '"');
    assert UpTo(afterHead, '"') == appGroupName && afterHead[|appGroupName|..] == afterGroup;
    SkipPrefix(AppTail, range);
    assert AppTail <= afterGroup && afterGroup[|AppTail|..] == range;
    SkipSuffix(rangeWidth, AppEnd);
    assert EndsWith(range, AppEnd) && range[..|range| - |AppEnd|] == rangeWidth;
  }

  /** A single-node query that parses is the template applied to what was read. */
  lemma {:induction false} ParseNodeLatenciesQuerySound(q: string)
    ensures ParseNodeLatenciesQuery(q).Some? ==>
              var (node, range) := ParseNodeLatenciesQuery(q).value;
              q == NodeLatenciesQuery(node, range)
  {
    if ParseNodeLatenciesQuery(q).Some? {
      var afterHead := q[|NodeSumHead|..];
      var node := UpTo(afterHead, '"');
      var afterNode := afterHead[|node|..];
      var afterOpen := afterNode[|NodeRange|..];
      var range := UpTo(afterOpen, ']');
      var afterRange := afterOpen[|range|..];
      SplitAtPrefix(afterOpen, range);
      SplitAtPrefix(afterNode, NodeRange);
      SplitAtPrefix(afterHead, node);
      SplitAtPrefix(q, NodeSumHead);
      RegroupTail(NodeSumHead, node, NodeRange, range, NodeCountHead, node, NodeRange, range, LatencyEnd);
    }
  }

  /** A single-node query built from a quote-free node and a bracket-free range width parses back. */
  lemma {:induction false} NodeLatenciesQueryRoundTrip(nodeName: string, rangeWidth: string)
    requires '"' !in nodeName && ']' !in rangeWidth
    ensures ParseNodeLatenciesQuery(NodeLatenciesQuery(nodeName, rangeWidth)) == Some((nodeName, rangeWidth))
  {
    var afterRange := NodeCountHead + nodeName + NodeRange + rangeWidth + LatencyEnd;
    var afterOpen := rangeWidth + afterRange;
    var afterNode := NodeRange + afterOpen;
    var afterHead := nodeName + afterNode;
    RegroupTail(NodeSumHead, nodeName, NodeRange, rangeWidth, NodeCountHead, nodeName, NodeRange, rangeWidth, LatencyEnd);
    SkipPrefix(NodeSumHead, afterHead);
    ReadField(nodeName, afterNode, '"');
    SkipPrefix(NodeRange, afterOpen);
    assert afterRange[0] == NodeCountHead[0] == ']';
    ReadField(rangeWidth, afterRange, ']');
  }

  /** The all-nodes query determines its range width: the template has no quoted field to break out of. */
  lemma {:induction false} NodesLatenciesQueryInjective(rangeWidth: string, rangeWidth': string)
    ensures NodesLatenciesQuery(rangeWidth) == NodesLatenciesQuery(rangeWidth') <==> rangeWidth == rangeWidth'
  {
    if NodesLatenciesQuery(rangeWidth) == NodesLatenciesQuery(rangeWidth') {
      var q := NodesLatenciesQuery(rangeWidth);
      assert |rangeWidth| == |rangeWidth'|;
      assert rangeWidth == q[|AllSumHead|..|AllSumHead| + |rangeWidth|] == rangeWidth';
    }
  }

  /** A brace can enter the all-nodes query only through the range width: its fixed text has no label selector. */
  lemma NodesLatenciesQueryNoSelector(rangeWidth: string)
    ensures '{' in NodesLatenciesQuery(rangeWidth) <==> '{' in rangeWidth
  {
    assert '{' !in AllSumHead && '{' !in AllCountHead && '{' !in LatencyEnd;
  }

  /** A within-group query never starts like a pair query, so the two request-rate templates cannot be confused. */
  lemma AppsRequestsPerSecondQueryIsNotPairQuery(appGroupName: string, rangeWidth: string)
    ensures !(AppPairHead <= AppsRequestsPerSecondQuery(appGroupName, rangeWidth))
  {
    var q := AppsRequestsPerSecondQuery(appGroupName, rangeWidth);
    assert q[29] == WithinGroupHead[29] == 'r';
    assert AppPairHead[29] == 'a';
  }

  /** An all-nodes query never starts like a single-node query, so the two latency templates cannot be confused. */
  lemma NodesLatenciesQueryIsNotNodeQuery(rangeWidth: string)
    ensures !(NodeSumHead <= NodesLatenciesQuery(rangeWidth))
  {
    var q := NodesLatenciesQuery(rangeWidth);
    assert q[25] == AllSumHead[25] == '[';
    assert NodeSumHead[25] == '{';
  }

  /**
   * No escaping: a group name that carries the closing quote and the `app`
   * matcher yields the same pair query as a different group and application.
   */
  lemma {:induction false} AppRequestsPerSecondQueryAmbiguous(appGroupName: string, x: string, appName: string, rangeWidth: string)
    ensures (appGroupName + AppPairMid + x, appName) != (appGroupName, x + AppPairMid + appName)
    ensures AppRequestsPerSecondQuery(appGroupName + AppPairMid + x, appName, rangeWidth)
            == AppRequestsPerSecondQuery(appGroupName, x + AppPairMid + appName, rangeWidth)
  {
    assert |appGroupName + AppPairMid + x| > |appGroupName|;
    ShiftSeparator(AppPairHead, appGroupName, AppPairMid, x, appName, AppTail + rangeWidth + AppEnd);
    assert AppPairHead + (appGroupName + AppPairMid + x) + AppPairMid + appName + AppTail + rangeWidth + AppEnd
        == AppPairHead + (appGroupName + AppPairMid + x) + AppPairMid + appName + (AppTail + rangeWidth + AppEnd);
    assert AppPairHead + appGroupName + AppPairMid + (x + AppPairMid + appName) + AppTail + rangeWidth + AppEnd
        == AppPairHead + appGroupName + AppPairMid + (x + AppPairMid + appName) + (AppTail + rangeWidth + AppEnd);
  }

  /** Moving a separator-delimited piece from one field to the next leaves the text unchanged. */
  lemma ShiftSeparator(h: string, g: string, m: string, x: string, a: string, t: string)
    ensures h + (g + m + x) + m + a + t == h + g + m + (x + m + a) + t
  {
    assert h + (g + m + x) + m + a + t == h + (g + (m + (x + (m + (a + t)))));
    assert h + g + m + (x + m + a) + t == h + (g + (m + (x + (m + (a + t)))));
  }

  /** Parsing inverts the pair template exactly on quote-free names. */
  lemma AppRequestsPerSecondQueryParse(q: string, appGroupName: string, appName: string, rangeWidth: string)
    ensures ParseAppRequestsPerSecondQuery(q) == Some((appGroupName, appName, rangeWidth))
            <==> '"' !in appGroupName && '"' !in appName && q == AppRequestsPerSecondQuery(appGroupName, appName, rangeWidth)
  {
    ParseAppRequestsPerSecondQuerySound(q);
    if '"' !in appGroupName && '"' !in appName && q == AppRequestsPerSecondQuery(appGroupName, appName, rangeWidth) {
      AppRequestsPerSecondQueryRoundTrip(appGroupName, appName, rangeWidth);
    }
  }

  /** Parsing inverts the within-group template exactly on quote-free group names. */
  lemma AppsRequestsPerSecondQueryParse(q: string, appGroupName: string, rangeWidth: string)
    ensures ParseAppsRequestsPerSecondQuery(q) == Some((appGroupName, rangeWidth))
            <==> '"' !in appGroupName && q == AppsRequestsPerSecondQuery(appGroupName, rangeWidth)
  {
    ParseAppsRequestsPerSecondQuerySound(q);
    if '"' !in appGroupName && q == AppsRequestsPerSecondQuery(appGroupName, rangeWidth) {
      AppsRequestsPerSecondQueryRoundTrip(appGroupName, rangeWidth);
    }
  }

  /** Parsing inverts the single-node template exactly on quote-free nodes and bracket-free widths. */
  lemma NodeLatenciesQueryParse(q: string, nodeName: string, rangeWidth: string)
    ensures ParseNodeLatenciesQuery(q) == Some((nodeName, rangeWidth))
            <==> '"' !in nodeName && ']' !in rangeWidth && q == NodeLatenciesQuery(nodeName, rangeWidth)
  {
    ParseNodeLatenciesQuerySound(q);
    if '"' !in nodeName && ']' !in rangeWidth && q == NodeLatenciesQuery(nodeName, rangeWidth) {
      NodeLatenciesQueryRoundTrip(nodeName, rangeWidth);
    }
  }

  /** `t` occurs in `s` starting at index `i`. */
  predicate OccursAt(t: string, s: string, i: int)
  {
    0 <= i <= |s| - |t| && s[i..i + |t|] == t
  }

  /** `t` occurs somewhere in `s`. */
  ghost predicate Occurs(t: string, s: string)
  {
    exists i :: OccursAt(t, s, i)
  }

  /** A text inside a middle piece of a concatenation occurs at the offset where it was placed. */
  lemma OccursInPiece(before: string, p: string, t: string, s: string, x: string, y: string)
    ensures OccursAt(t, before + (p + t + s) + x + y, |before| + |p|)
  {
    var w := before + (p + t + s) + x + y;
    assert w == (before + p) + t + (s + x + y);
    assert w[|before + p|..|before + p| + |t|] == t;
  }

  /** A text inside the first piece of a concatenation occurs at the offset where it was placed. */
  lemma OccursInHead(p: string, t: string, s: string, b: string, c: string, d: string, e: string)
    ensures OccursAt(t, (p + t + s) + b + c + d + e, |p|)
  {
    var w := (p + t + s) + b + c + d + e;
    assert w == p + t + (s + b + c + d + e);
    assert w[|p|..|p| + |t|] == t;
  }

  /** The pair query carries the two `!= "unknown"` matchers, whatever the parameters. */
  lemma {:induction false} AppRequestsPerSecondQueryExcludesUnknown(appGroupName: string, appName: string, rangeWidth: string)
    ensures Occurs(ExcludeUnknown, AppRequestsPerSecondQuery(appGroupName, appName, rangeWidth))
  {
    OccursInPiece(AppPairHead + appGroupName + AppPairMid + appName, "\", ", ExcludeUnknown, "}[", rangeWidth, AppEnd);
  }

  /** The within-group query carries the two `!= "unknown"` matchers, whatever the parameters. */
  lemma {:induction false} AppsRequestsPerSecondQueryExcludesUnknown(appGroupName: string, rangeWidth: string)
    ensures Occurs(ExcludeUnknown, AppsRequestsPerSecondQuery(appGroupName, rangeWidth))
  {
    OccursInPiece(WithinGroupHead + appGroupName, "\", ", ExcludeUnknown, "}[", rangeWidth, AppEnd);
  }

  /** The within-group query counts only what the calling side reported, whatever the parameters. */
  lemma {:induction false} AppsRequestsPerSecondQueryReporterSource(appGroupName: string, rangeWidth: string)
    ensures Occurs(ReporterSource, AppsRequestsPerSecondQuery(appGroupName, rangeWidth))
  {
    OccursInHead("\n\t\trate(istio_requests_total{", ReporterSource, ", app_group=\"", appGroupName, AppTail, rangeWidth, AppEnd);
  }

  // ---------------------------------------------------------------------
  // Running a query
  // ---------------------------------------------------------------------

  /** The shapes an instant query can answer with; only a vector is accepted. */
  datatype QueryValue<V> =
    | VectorValue(samples: seq<Sample<V>>)
    | ScalarValue(scalar: V)
    | MatrixValue(series: seq<(LabelSet, seq<V>)>)
    | StringValue(text: string)

  /** Whether a client for the configured backend address could be built. */
  datatype ClientStatus = Connected | ClientFailed(reason: string)

  /** What the backend does with one query: answer it, or fail (network, timeout, bad query). */
  datatype Answer<V> = Answered(value: QueryValue<V>) | QueryFailed(reason: string)

  /** The three failures a query can end in. */
  datatype Error =
    | ClientCreationFailed(reason: string)
    | ExecutionFailed(reason: string)
    | NotAVector

  /** The backend answered `query` with a vector over a working client. */
  predicate ServedVector<V>(client: ClientStatus, backend: string -> Answer<V>, query: string)
  {
    client.Connected? && backend(query).Answered? && backend(query).value.VectorValue?
  }

  /**
   * One instant query: fails when the client cannot be built (the backend is
   * then never asked), when the backend fails, or when its answer is not a
   * vector; otherwise yields the vector's samples.
   */
  function RunQuery<V>(client: ClientStatus, backend: string -> Answer<V>, query: string): (r: Result<seq<Sample<V>>, Error>)
    ensures r.Success? <==> ServedVector(client, backend, query)
    ensures r.Success? ==> backend(query) == Answered(VectorValue(r.value))
    ensures client.ClientFailed? ==> r == Failure(ClientCreationFailed(client.reason))
    ensures client.Connected? && backend(query).QueryFailed? ==> r == Failure(ExecutionFailed(backend(query).reason))
    ensures client.Connected? && backend(query).Answered? && !backend(query).value.VectorValue? ==> r == Failure(NotAVector)
  {
    match client
    case ClientFailed(reason) => Failure(ClientCreationFailed(reason))
    case Connected =>
      match backend(query)
      case QueryFailed(reason) => Failure(ExecutionFailed(reason))
      case Answered(VectorValue(samples)) => Success(samples)
      case Answered(_) => Failure(NotAVector)
  }

  /** Samples of request rate between one application and its peers. */
  function GetAppRequestsPerSecond<V>(client: ClientStatus, backend: string -> Answer<V>,
                                      appGroupName: string, appName: string, rangeWidth: string): (r: Result<seq<Sample<V>>, Error>)
    ensures r.Success? <==> ServedVector(client, backend, AppRequestsPerSecondQuery(appGroupName, appName, rangeWidth))
    ensures r.Success? ==> backend(AppRequestsPerSecondQuery(appGroupName, appName, rangeWidth)) == Answered(VectorValue(r.value))
  {
    RunQuery(client, backend, AppRequestsPerSecondQuery(appGroupName, appName, rangeWidth))
  }

  /** Samples of request rate between every pair of applications in a group. */
  function GetAppsRequestsPerSecond<V>(client: ClientStatus, backend: string -> Answer<V>,
                                       appGroupName: string, rangeWidth: string): (r: Result<seq<Sample<V>>, Error>)
    ensures r.Success? <==> ServedVector(client, backend, AppsRequestsPerSecondQuery(appGroupName, rangeWidth))
    ensures r.Success? ==> backend(AppsRequestsPerSecondQuery(appGroupName, rangeWidth)) == Answered(VectorValue(r.value))
  {
    RunQuery(client, backend, AppsRequestsPerSecondQuery(appGroupName, rangeWidth))
  }

  /** Samples of latency from one node to each destination. */
  function GetNodeLatencies<V>(client: ClientStatus, backend: string -> Answer<V>,
                               nodeName: string, rangeWidth: string): (r: Result<seq<Sample<V>>, Error>)
    ensures r.Success? <==> ServedVector(client, backend, NodeLatenciesQuery(nodeName, rangeWidth))
    ensures r.Success? ==> backend(NodeLatenciesQuery(nodeName, rangeWidth)) == Answered(VectorValue(r.value))
  {
    RunQuery(client, backend, NodeLatenciesQuery(nodeName, rangeWidth))
  }

  /** Samples of latency between every pair of nodes. */
  function GetNodesLatencies<V>(client: ClientStatus, backend: string -> Answer<V>,
                                rangeWidth: string): (r: Result<seq<Sample<V>>, Error>)
    ensures r.Success? <==> ServedVector(client, backend, NodesLatenciesQuery(rangeWidth))
    ensures r.Success? ==> backend(NodesLatenciesQuery(rangeWidth)) == Answered(VectorValue(r.value))
  {
    RunQuery(client, backend, NodesLatenciesQuery(rangeWidth))
  }
}
