/** The cluster figures of `compute_platform_metrics` (platform_core/metrics.py). */
module PlatformMetrics {
  import opened Ordering
  import opened Clustering
  import opened ClusteringLaws
  import opened ClusteringWindow

  const METRICS_WINDOW := 7200

  /** The endpoints named by the events that take part in clustering. */
  function EndpointsHit(events: seq<Event>): (s: set<string>)
  {
    set e | e in events && e.id != "" && e.endpoint != "" :: e.endpoint
  }

  ghost predicate Reported(clusters: seq<Cluster>, ep: string)
  {
    exists c :: c in clusters && ep in c.endpointIds
  }

  lemma {:induction false} RowEvents(events: seq<Event>, clock: nat -> int, n: nat, e: Event)
    requires n <= |events|
    ensures (exists r :: r in RowsUpTo(events, clock, n) && r.ev == e) <==> e in events[..n] && e.id != ""
  {
    if n > 0 {
      RowEvents(events, clock, n - 1, e);
      assert events[..n] == events[..n - 1] + [events[n - 1]];
      var before, all := RowsUpTo(events, clock, n - 1), RowsUpTo(events, clock, n);
      if r :| r in before && r.ev == e { assert r in all; }
      if e == events[n - 1] && e.id != "" { assert RowOf(e, clock(n - 1)) in all; }
    }
  }

  lemma BucketRows(lib: Library, rows: seq<Row>, window: int, r: Row)
    ensures r in rows <==> exists k :: 0 <= k < |Buckets(lib, rows, window)| && r in Buckets(lib, rows, window)[k]
  {
    BucketsConserve(lib, rows, window);
    MultisetMembers(Concat(Buckets(lib, rows, window)), rows);
  }

  lemma EndpointsOfCluster(lib: Library, b: Bucket, ep: string)
    ensures ep in Maker(lib)(b).endpointIds <==> ep != "" && exists r :: r in b && r.ev.endpoint == ep
  {
  }

  lemma ReportedHasRow(lib: Library, rows: seq<Row>, window: int, ep: string) returns (r: Row)
    requires Reported(ClustersOfRows(lib, rows, window), ep)
    ensures r in rows && r.ev.endpoint == ep && ep != ""
  {
    var c :| c in ClustersOfRows(lib, rows, window) && ep in c.endpointIds;
    ClusterMembers(lib, rows, window, c);
    var k :| 0 <= k < |Buckets(lib, rows, window)| && c == Maker(lib)(Buckets(lib, rows, window)[k]);
    var b := Buckets(lib, rows, window)[k];
    EndpointsOfCluster(lib, b, ep);
    r :| r in b && r.ev.endpoint == ep;
    BucketRows(lib, rows, window, r);
  }

  lemma RowReported(lib: Library, rows: seq<Row>, window: int, r: Row)
    requires r in rows && r.ev.endpoint != ""
    ensures Reported(ClustersOfRows(lib, rows, window), r.ev.endpoint)
  {
    BucketRows(lib, rows, window, r);
    var k :| 0 <= k < |Buckets(lib, rows, window)| && r in Buckets(lib, rows, window)[k];
    var b := Buckets(lib, rows, window)[k];
    EndpointsOfCluster(lib, b, r.ev.endpoint);
    ClusterMembers(lib, rows, window, Maker(lib)(b));
  }

  lemma RowHits(events: seq<Event>, clock: nat -> int, r: Row)
    requires r in Rows(events, clock) && r.ev.endpoint != ""
    ensures r.ev.endpoint in EndpointsHit(events)
  {
    RowEvents(events, clock, |events|, r.ev);
    assert events[..|events|] == events;
  }

  lemma HitHasRow(events: seq<Event>, clock: nat -> int, ep: string) returns (r: Row)
    requires ep in EndpointsHit(events)
    ensures r in Rows(events, clock) && r.ev.endpoint == ep != ""
  {
    var e :| e in events && e.id != "" && e.endpoint != "" && e.endpoint == ep;
    assert events[..|events|] == events;
    RowEvents(events, clock, |events|, e);
    r :| r in Rows(events, clock) && r.ev == e;
  }

  /** An endpoint is reported by some cluster exactly when a clustered event names it, whatever the window. */
  lemma ReportedExactly(lib: Library, events: seq<Event>, clock: nat -> int, window: int, ep: string)
    ensures Reported(Clusters(lib, events, clock, window), ep) <==> ep in EndpointsHit(events)
  {
    if Reported(ClustersOfRows(lib, Rows(events, clock), window), ep) {
      var r := ReportedHasRow(lib, Rows(events, clock), window, ep);
      RowHits(events, clock, r);
    }
    if ep in EndpointsHit(events) {
      var r := HitHasRow(events, clock, ep);
      RowReported(lib, Rows(events, clock), window, r);
    }
  }

  /** The set the metrics loop accumulates over the clusters. */
  method AffectedEndpoints(clusters: seq<Cluster>) returns (affected: set<string>)
    ensures forall ep :: ep in affected <==> Reported(clusters, ep)
  {
    affected := {};
    for i := 0 to |clusters|
      invariant forall ep :: ep in affected <==> Reported(clusters[..i], ep)
    {
      assert clusters[..i + 1] == clusters[..i] + [clusters[i]];
      affected := affected + SetOf(clusters[i].endpointIds);
    }
    assert clusters[..|clusters|] == clusters;
  }

  /** `incident_cluster_count` and `affected_endpoint_count`. */
  method ClusterMetrics(lib: Library, events: seq<Event>, clock: nat -> int)
    returns (clusterCount: nat, affectedCount: nat)
    ensures clusterCount == |Clusters(lib, events, clock, 7200)|
    ensures affectedCount == |EndpointsHit(events)|
  {
    var clusters := ClusterFailureEvents(lib, events, clock, METRICS_WINDOW);
    var affected := AffectedEndpoints(clusters);
    forall ep ensures ep in affected <==> ep in EndpointsHit(events) {
      ReportedExactly(lib, events, clock, METRICS_WINDOW, ep);
    }
    assert affected == EndpointsHit(events);
    return |clusters|, |affected|;
  }
}
