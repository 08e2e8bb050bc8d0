/**
 Incident clustering (platform_core/incidents.py): failure events are grouped by
 fingerprint, sorted by last-seen time and split greedily at gaps wider than a
 window.  This file holds the data model and the pass itself; ClusteringLaws.dfy
 says what the pass means.
 */
module Clustering {
  import opened Logs
  import opened Ordering
  import opened Text

  /**
   A failure event row.  The empty string stands for a missing text field; the two
   time stamps are what `_parse_iso` made of them, in microseconds.
   */
  datatype Event = Event(
    id: string,
    category: string,
    action: string,
    summary: string,
    endpoint: string,
    severity: string,
    firstSeen: Option<int>,
    lastSeen: Option<int>)

  datatype Severity = Low | Medium | High

  datatype Cluster = Cluster(
    id: string,
    category: string,
    patternKey: string,
    eventIds: seq<string>,
    endpointIds: seq<string>,
    firstSeen: string,
    lastSeen: string,
    severity: Severity,
    affectedEndpointCount: nat,
    eventCount: nat)

  /** An event with its two resolved times. */
  datatype Row = Row(ev: Event, fs: int, ls: int)

  /** A non-empty run of rows that becomes one cluster. */
  type Bucket = b: seq<Row> | b != [] witness [Row(Event("", "", "", "", "", "", None, None), 0, 0)]

  /** The library calls the pass makes: SHA-256 in hex, UUID5 and ISO formatting. */
  datatype Library = Library(
    sha256: string -> string,
    uuid5: string -> string,
    iso: int -> string)

  /** A SHA-256 hex digest has 64 characters. */
  ghost predicate WellFormed(lib: Library)
  {
    forall s :: |lib.sha256(s)| == 64
  }

  const MICROS_PER_SECOND := 1_000_000

  // ----- rows -----

  predicate Parsable(e: Event)
  {
    e.firstSeen.Some? || e.lastSeen.Some?
  }

  /** The row of an event, with `now` the clock reading used when no time parses. */
  function RowOf(e: Event, now: int): (r: Row)
  {
    if !Parsable(e) then Row(e, now, now)
    else
      var fs := if e.firstSeen.Some? then e.firstSeen.value else e.lastSeen.value;
      Row(e, fs, if e.lastSeen.Some? then e.lastSeen.value else fs)
  }

  /** The rows of the events that carry an id, in input order; `clock(i)` is read at event `i`. */
  function RowsUpTo(events: seq<Event>, clock: nat -> int, n: nat): (r: seq<Row>)
    requires n <= |events|
  {
    if n == 0 then []
    else if events[n - 1].id == "" then RowsUpTo(events, clock, n - 1)
    else RowsUpTo(events, clock, n - 1) + [RowOf(events[n - 1], clock(n - 1))]
  }

  function Rows(events: seq<Event>, clock: nat -> int): (r: seq<Row>)
  {
    RowsUpTo(events, clock, |events|)
  }

  // ----- fingerprints and groups -----

  function Category(e: Event): (c: string)
  {
    if e.category == "" then "unknown" else e.category
  }

  function Take(s: string, n: nat): (r: string)
    ensures |r| <= n && r <= s
  {
    if |s| <= n then s else s[..n]
  }

  function Fingerprint(lib: Library, e: Event): (f: string)
  {
    Take(lib.sha256(Category(e) + "|" + e.action + "|" + Take(e.summary, 48)), 16)
  }

  function GroupKey(lib: Library, e: Event): (k: string)
  {
    Category(e) + "|" + Fingerprint(lib, e)
  }

  function KeysOf(lib: Library, rows: seq<Row>): (r: set<string>)
  {
    set row | row in rows :: GroupKey(lib, row.ev)
  }

  function Group(lib: Library, rows: seq<Row>, key: string): (r: seq<Row>)
  {
    Filter(rows, (row: Row) => GroupKey(lib, row.ev) == key)
  }

  predicate RowLe(a: Row, b: Row)
  {
    a.ls < b.ls || (a.ls == b.ls && StrLe(a.ev.id, b.ev.id))
  }

  // ----- the greedy split -----

  /** Python's `max` and `min` over numbers. */
  function MaxOf(s: seq<int>): (m: int)
    requires s != []
    ensures m in s && forall i :: 0 <= i < |s| ==> s[i] <= m
  {
    if |s| == 1 then s[0]
    else
      var m := MaxOf(s[1..]);
      if s[0] > m then s[0] else m
  }

  function MinOf(s: seq<int>): (m: int)
    requires s != []
    ensures m in s && forall i :: 0 <= i < |s| ==> m <= s[i]
  {
    if |s| == 1 then s[0]
    else
      var m := MinOf(s[1..]);
      if s[0] < m then s[0] else m
  }

  function RankOf(r: Row): (n: int) { Rank(r.ev.severity) }

  function FirstTime(r: Row): (t: int) { r.fs }

  function LastTime(r: Row): (t: int) { r.ls }

  function MaxLast(bucket: Bucket): (m: int)
    ensures forall r :: r in bucket ==> r.ls <= m
    ensures exists r :: r in bucket && r.ls == m
  {
    MaxAttained(bucket, LastTime);
    MaxOf(Map(bucket, LastTime))
  }

  function MinFirst(bucket: Bucket): (m: int)
    ensures forall r :: r in bucket ==> m <= r.fs
    ensures exists r :: r in bucket && r.fs == m
  {
    MinAttained(bucket, FirstTime);
    MinOf(Map(bucket, FirstTime))
  }

  lemma MaxAttained(bucket: Bucket, f: Row -> int)
    ensures forall r :: r in bucket ==> f(r) <= MaxOf(Map(bucket, f))
    ensures exists r :: r in bucket && f(r) == MaxOf(Map(bucket, f))
  {
    var s, m := Map(bucket, f), MaxOf(Map(bucket, f));
    var k :| 0 <= k < |s| && s[k] == m;
    assert bucket[k] in bucket && f(bucket[k]) == m;
    forall r | r in bucket ensures f(r) <= m {
      var i :| 0 <= i < |bucket| && bucket[i] == r;
      assert s[i] == f(r);
    }
  }

  lemma MinAttained(bucket: Bucket, f: Row -> int)
    ensures forall r :: r in bucket ==> MinOf(Map(bucket, f)) <= f(r)
    ensures exists r :: r in bucket && f(r) == MinOf(Map(bucket, f))
  {
    var s, m := Map(bucket, f), MinOf(Map(bucket, f));
    var k :| 0 <= k < |s| && s[k] == m;
    assert bucket[k] in bucket && f(bucket[k]) == m;
    forall r | r in bucket ensures m <= f(r) {
      var i :| 0 <= i < |bucket| && bucket[i] == r;
      assert s[i] == f(r);
    }
  }

  /** The pass over sorted rows, with `bucket` open; `limit` is the window in microseconds. */
  function SplitFrom(bucket: Bucket, rest: seq<Row>, limit: int): (bs: seq<Bucket>)
    decreases rest
  {
    if rest == [] then [bucket]
    else if rest[0].ls - MaxLast(bucket) > limit then
      [bucket] + SplitFrom([rest[0]], rest[1..], limit)
    else SplitFrom(bucket + [rest[0]], rest[1..], limit)
  }

  function Split(rows: seq<Row>, limit: int): (bs: seq<Bucket>)
  {
    if rows == [] then [] else SplitFrom([rows[0]], rows[1..], limit)
  }

  /** The buckets of one fingerprint group. */
  function GroupBuckets(lib: Library, rows: seq<Row>, key: string, limit: int): (bs: seq<Bucket>)
  {
    Split(Sort(Group(lib, rows, key), RowLe), limit)
  }

  /** The buckets of all groups, group keys in order. */
  function BucketsOf(lib: Library, rows: seq<Row>, keys: seq<string>, limit: int): (bs: seq<Bucket>)
  {
    if keys == [] then []
    else GroupBuckets(lib, rows, keys[0], limit) + BucketsOf(lib, rows, keys[1..], limit)
  }

  function Buckets(lib: Library, rows: seq<Row>, window: int): (bs: seq<Bucket>)
  {
    BucketsOf(lib, rows, SortedSet(KeysOf(lib, rows)), window * MICROS_PER_SECOND)
  }

  // ----- clusters -----

  function Rank(severity: string): (r: nat)
    ensures 1 <= r <= 3
  {
    var s := Lower(severity);
    if s == "high" then 3 else if s == "medium" then 2 else 1
  }

  function Label(rank: int): (s: Severity)
  {
    if rank >= 3 then High else if rank == 2 then Medium else Low
  }

  function MaxRank(bucket: Bucket): (m: nat)
    ensures forall r :: r in bucket ==> Rank(r.ev.severity) <= m
    ensures exists r :: r in bucket && Rank(r.ev.severity) == m
  {
    MaxAttained(bucket, RankOf);
    MaxOf(Map(bucket, RankOf))
  }

  function EventIds(bucket: seq<Row>): (r: set<string>)
  {
    set row | row in bucket && row.ev.id != "" :: row.ev.id
  }

  function EndpointIds(bucket: seq<Row>): (r: set<string>)
  {
    set row | row in bucket && row.ev.endpoint != "" :: row.ev.endpoint
  }

  function Join(parts: seq<string>): (r: string)
  {
    if parts == [] then "" else if |parts| == 1 then parts[0] else parts[0] + "|" + Join(parts[1..])
  }

  /** Severity of a cluster: the worst event, raised one step when two endpoints are hit. */
  function ClusterRank(bucket: Bucket): (r: nat)
    ensures 1 <= r <= 3
  {
    var mx := MaxRank(bucket);
    if |EndpointIds(bucket)| >= 2 && mx < 3 then mx + 1 else mx
  }

  function MakeCluster(lib: Library, bucket: Bucket): (c: Cluster)
  {
    var first := MinFirst(bucket);
    var last := MaxLast(bucket);
    var e := bucket[0].ev;
    var eids := SortedSet(EventIds(bucket));
    var eps := SortedSet(EndpointIds(bucket));
    Cluster(
      lib.uuid5(Join(eids + [lib.iso(first), lib.iso(last)])),
      Category(e),
      Category(e) + ":" + Fingerprint(lib, e),
      eids,
      eps,
      lib.iso(first),
      lib.iso(last),
      Label(ClusterRank(bucket)),
      |eps|,
      |bucket|)
  }

  function Maker(lib: Library): (f: Bucket -> Cluster)
  {
    (bucket: Bucket) => MakeCluster(lib, bucket)
  }

  predicate ClusterLe(a: Cluster, b: Cluster)
  {
    if a.lastSeen != b.lastSeen then StrLe(a.lastSeen, b.lastSeen) else StrLe(a.id, b.id)
  }

  /** The whole pass as a function of the rows. */
  function ClustersOfRows(lib: Library, rows: seq<Row>, window: int): (cs: seq<Cluster>)
  {
    Sort(Map(Buckets(lib, rows, window), Maker(lib)), ClusterLe)
  }

  function Clusters(lib: Library, events: seq<Event>, clock: nat -> int, window: int): (cs: seq<Cluster>)
  {
    ClustersOfRows(lib, Rows(events, clock), window)
  }

  // ----- the loops of the source -----

  lemma GroupSnoc(lib: Library, rows: seq<Row>, row: Row, key: string)
    ensures Group(lib, rows + [row], key)
            == Group(lib, rows, key) + (if GroupKey(lib, row.ev) == key then [row] else [])
  {
    FilterSnoc(rows, row, (r: Row) => GroupKey(lib, r.ev) == key);
  }

  lemma KeysSnoc(lib: Library, rows: seq<Row>, row: Row)
    ensures KeysOf(lib, rows + [row]) == KeysOf(lib, rows) + {GroupKey(lib, row.ev)}
  {
  }

  lemma EmptyGroup(lib: Library, rows: seq<Row>, key: string)
    requires key !in KeysOf(lib, rows)
    ensures Group(lib, rows, key) == []
  {
    assert forall r :: r in rows ==> GroupKey(lib, r.ev) in KeysOf(lib, rows);
    FilterNone(rows, (row: Row) => GroupKey(lib, row.ev) == key);
  }

  ghost predicate Grouped(lib: Library, groups: map<string, seq<Row>>, rows: seq<Row>)
  {
    && groups.Keys == KeysOf(lib, rows)
    && forall k :: k in groups ==> groups[k] == Group(lib, rows, k)
  }

  /** `groups[key].append(row)` on a dictionary of lists. */
  function WithRow(groups: map<string, seq<Row>>, key: string, row: Row): (g: map<string, seq<Row>>)
  {
    groups[key := (if key in groups then groups[key] else []) + [row]]
  }

  lemma GroupedSnoc(lib: Library, groups: map<string, seq<Row>>, rows: seq<Row>, row: Row)
    requires Grouped(lib, groups, rows)
    ensures Grouped(lib, WithRow(groups, GroupKey(lib, row.ev), row), rows + [row])
  {
    var groups' := WithRow(groups, GroupKey(lib, row.ev), row);
    KeysSnoc(lib, rows, row);
    forall k | k in groups' ensures groups'[k] == Group(lib, rows + [row], k) {
      if k !in groups { EmptyGroup(lib, rows, k); }
      GroupSnoc(lib, rows, row, k);
    }
  }

  /** What one more event does to the dictionary. */
  lemma NextEvent(lib: Library, groups: map<string, seq<Row>>, events: seq<Event>, clock: nat -> int, i: nat)
    requires i < |events| && Grouped(lib, groups, RowsUpTo(events, clock, i))
    ensures var ev := events[i];
            Grouped(lib, if ev.id == "" then groups else WithRow(groups, GroupKey(lib, ev), RowOf(ev, clock(i))),
                    RowsUpTo(events, clock, i + 1))
  {
    if events[i].id != "" { GroupedSnoc(lib, groups, RowsUpTo(events, clock, i), RowOf(events[i], clock(i))); }
  }

  /** Fills the `groups` dictionary in one pass over the events. */
  method GroupEvents(lib: Library, events: seq<Event>, clock: nat -> int)
    returns (groups: map<string, seq<Row>>)
    ensures Grouped(lib, groups, Rows(events, clock))
  {
    groups := map[];
    for i := 0 to |events|
      invariant Grouped(lib, groups, RowsUpTo(events, clock, i))
    {
      NextEvent(lib, groups, events, clock, i);
      var ev := events[i];
      if ev.id == "" { continue; }
      var row := RowOf(ev, clock(i));
      var key := GroupKey(lib, ev);
      groups := WithRow(groups, key, row);
    }
  }

  /** What one more row does to the split: it closes the open bucket or joins it. */
  lemma SplitNext(done: seq<Bucket>, bucket: Bucket, rows: seq<Row>, i: nat, limit: int)
    requires i < |rows|
    ensures done + SplitFrom(bucket, rows[i..], limit)
            == if rows[i].ls - MaxLast(bucket) > limit then done + [bucket] + SplitFrom([rows[i]], rows[i + 1..], limit)
               else done + SplitFrom(bucket + [rows[i]], rows[i + 1..], limit)
  {
    assert rows[i..][0] == rows[i] && rows[i..][1..] == rows[i + 1..];
    if rows[i].ls - MaxLast(bucket) > limit {
      AppendAssociative<Bucket>(done, [bucket], SplitFrom([rows[i]], rows[i + 1..], limit));
    }
  }

  /** Splits one sorted group, closing a bucket at every gap wider than the limit. */
  method SplitGroup(make: Bucket -> Cluster, rows: seq<Row>, limit: int) returns (out: seq<Cluster>)
    ensures out == Map(Split(rows, limit), make)
  {
    out := [];
    ghost var done: seq<Bucket> := [];
    var bucket: seq<Row> := [];
    for i := 0 to |rows|
      invariant out == Map(done, make)
      invariant i == 0 ==> bucket == [] && done == []
      invariant i > 0 ==> bucket != [] && done + SplitFrom(bucket, rows[i..], limit) == Split(rows, limit)
    {
      var row := rows[i];
      if bucket == [] {
        bucket := [row];
        continue;
      }
      SplitNext(done, bucket, rows, i, limit);
      if row.ls - MaxLast(bucket) > limit {
        MapAppend<Bucket, Cluster>(done, [bucket], make);
        done := done + [bucket];
        out := out + [make(bucket)];
        bucket := [row];
      } else {
        bucket := bucket + [row];
      }
    }
    if bucket != [] {
      MapAppend<Bucket, Cluster>(done, [bucket], make);
      out := out + [make(bucket)];
    }
  }

  lemma BucketsOfStep(lib: Library, rows: seq<Row>, keys: seq<string>, i: nat, limit: int)
    requires i < |keys|
    ensures BucketsOf(lib, rows, keys[i..], limit)
            == GroupBuckets(lib, rows, keys[i], limit) + BucketsOf(lib, rows, keys[i + 1..], limit)
  {
    assert keys[i..][1..] == keys[i + 1..];
  }

  /** Visits the groups in the order of `keys` and collects their clusters. */
  method ClusterGroups(
      lib: Library, make: Bucket -> Cluster, groups: map<string, seq<Row>>, keys: seq<string>,
      ghost rows: seq<Row>, limit: int)
    returns (out: seq<Cluster>)
    requires Grouped(lib, groups, rows)
    requires forall k :: k in keys ==> k in groups
    ensures out == Map(BucketsOf(lib, rows, keys, limit), make)
  {
    ghost var all := BucketsOf(lib, rows, keys, limit);
    ghost var done: seq<Bucket> := [];
    out := [];
    assert keys[0..] == keys;
    for i := 0 to |keys|
      invariant out == Map(done, make)
      invariant done + BucketsOf(lib, rows, keys[i..], limit) == all
    {
      var part := SplitGroup(make, Sort(groups[keys[i]], RowLe), limit);
      ghost var next := GroupBuckets(lib, rows, keys[i], limit);
      BucketsOfStep(lib, rows, keys, i, limit);
      AppendAssociative(done, next, BucketsOf(lib, rows, keys[i + 1..], limit));
      MapAppend<Bucket, Cluster>(done, next, make);
      done := done + next;
      out := out + part;
    }
  }

  /** `cluster_failure_events`. */
  method ClusterFailureEvents(lib: Library, events: seq<Event>, clock: nat -> int, window: int)
    returns (out: seq<Cluster>)
    ensures out == Clusters(lib, events, clock, window)
  {
    var groups := GroupEvents(lib, events, clock);
    out := ClusterGroups(
      lib, Maker(lib), groups, SortedSet(groups.Keys), Rows(events, clock), window * MICROS_PER_SECOND);
    out := Sort(out, ClusterLe);
  }
}
