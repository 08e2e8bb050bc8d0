/**
 What the clustering pass means: it computes the connected components of the
 "last-seen gap at most the window" relation, loses no event, coarsens as the
 window grows, and does not depend on the order of its input exactly when the
 window is not negative.
 */
module ClusteringLaws {
  import opened Ordering
  import opened Clustering
  import opened Text

  // ----- shape of one group's split -----

  ghost predicate TimeSorted(rows: seq<Row>)
  {
    forall i, j :: 0 <= i < j < |rows| ==> rows[i].ls <= rows[j].ls
  }

  lemma RowLePreorder()
    ensures TotalPreorder(RowLe)
  {
    StrLePreorder();
  }

  lemma SortTimeSorted(rows: seq<Row>)
    ensures TimeSorted(Sort(rows, RowLe))
  {
    RowLePreorder();
    SortSorted(rows, RowLe);
  }

  /** The bucket maximum the pass compares against is the time of the last row put in. */
  lemma MaxLastIsLast(bucket: Bucket)
    requires TimeSorted(bucket)
    ensures MaxLast(bucket) == bucket[|bucket| - 1].ls
  {
    LatestIsLast(bucket, MaxLast(bucket));
  }

  lemma LatestIsLast(rows: seq<Row>, m: int)
    requires rows != [] && TimeSorted(rows)
    requires (forall r :: r in rows ==> r.ls <= m) && exists r :: r in rows && r.ls == m
    ensures m == rows[|rows| - 1].ls
  {
    var r :| r in rows && r.ls == m;
    var k :| 0 <= k < |rows| && rows[k] == r;
    assert rows[|rows| - 1] in rows;
  }

  lemma SliceTimeSorted(rows: seq<Row>, p: nat, q: nat)
    requires TimeSorted(rows) && p <= q <= |rows|
    ensures TimeSorted(rows[p..q])
  {
  }

  lemma {:induction false} SplitFromConcat(bucket: Bucket, rest: seq<Row>, limit: int)
    ensures Concat(SplitFrom(bucket, rest, limit)) == bucket + rest
    decreases rest
  {
    if rest == [] {
      assert SplitFrom(bucket, rest, limit)[1..] == [];
    } else {
      assert rest == [rest[0]] + rest[1..];
      if rest[0].ls - MaxLast(bucket) > limit {
        SplitFromConcat([rest[0]], rest[1..], limit);
        assert SplitFrom(bucket, rest, limit)[1..] == SplitFrom([rest[0]], rest[1..], limit);
      } else {
        SplitFromConcat(bucket + [rest[0]], rest[1..], limit);
        AppendAssociative(bucket, [rest[0]], rest[1..]);
      }
    }
  }

  lemma SplitConcat(rows: seq<Row>, limit: int)
    ensures Concat(Split(rows, limit)) == rows
  {
    if rows != [] { SplitFromConcat([rows[0]], rows[1..], limit); }
  }

  ghost predicate SmallGaps(bucket: seq<Row>, limit: int)
  {
    forall i :: 0 <= i < |bucket| - 1 ==> bucket[i + 1].ls - bucket[i].ls <= limit
  }

  ghost predicate Apart(a: seq<Row>, b: seq<Row>, limit: int)
  {
    forall x, y :: x in a && y in b ==> y.ls - x.ls > limit
  }

  /** Rows of different buckets are further apart than the limit. */
  ghost predicate Separated(bs: seq<Bucket>, limit: int)
  {
    forall k, m :: 0 <= k < m < |bs| ==> Apart(bs[k], bs[m], limit)
  }

  ghost predicate AllSmallGaps(bs: seq<Bucket>, limit: int)
  {
    forall k :: 0 <= k < |bs| ==> SmallGaps(bs[k], limit)
  }

  lemma TimeSortedParts(a: seq<Row>, b: seq<Row>)
    requires TimeSorted(a + b)
    ensures TimeSorted(a) && TimeSorted(b)
  {
    assert forall i :: 0 <= i < |a| ==> (a + b)[i] == a[i];
    assert forall i :: 0 <= i < |b| ==> (a + b)[|a| + i] == b[i];
  }

  lemma SmallGapsSnoc(bucket: Bucket, r: Row, limit: int)
    requires SmallGaps(bucket, limit) && (bucket != [] ==> r.ls - bucket[|bucket| - 1].ls <= limit)
    ensures SmallGaps(bucket + [r], limit)
  {
  }

  lemma SmallGapsCons(bucket: Bucket, later: seq<Bucket>, limit: int)
    requires SmallGaps(bucket, limit) && AllSmallGaps(later, limit)
    ensures AllSmallGaps([bucket] + later, limit)
  {
  }

  lemma {:induction false} SplitFromGaps(bucket: Bucket, rest: seq<Row>, limit: int)
    requires TimeSorted(bucket + rest) && SmallGaps(bucket, limit)
    ensures AllSmallGaps(SplitFrom(bucket, rest, limit), limit)
    decreases rest
  {
    if rest != [] {
      SortedHead(bucket, rest);
      if rest[0].ls - MaxLast(bucket) > limit {
        SplitFromGaps([rest[0]], rest[1..], limit);
        SmallGapsCons(bucket, SplitFrom([rest[0]], rest[1..], limit), limit);
      } else {
        SmallGapsSnoc(bucket, rest[0], limit);
        SplitFromGaps(bucket + [rest[0]], rest[1..], limit);
      }
    }
  }

  lemma {:induction false} SplitFromSeparated(bucket: Bucket, rest: seq<Row>, limit: int)
    requires TimeSorted(bucket + rest)
    ensures Separated(SplitFrom(bucket, rest, limit), limit)
    decreases rest
  {
    if rest != [] {
      SortedHead(bucket, rest);
      if rest[0].ls - MaxLast(bucket) > limit {
        SplitFromSeparated([rest[0]], rest[1..], limit);
        CutSeparates(bucket, rest, limit);
      } else {
        SplitFromSeparated(bucket + [rest[0]], rest[1..], limit);
      }
    }
  }

  /** What the pass sees when it takes the next row. */
  lemma SortedHead(bucket: Bucket, rest: seq<Row>)
    requires rest != [] && TimeSorted(bucket + rest)
    ensures TimeSorted(rest) && TimeSorted([rest[0]] + rest[1..]) && TimeSorted(bucket + [rest[0]] + rest[1..])
    ensures bucket != [] ==> MaxLast(bucket) == bucket[|bucket| - 1].ls
  {
    TimeSortedParts(bucket, rest);
    if bucket != [] { MaxLastIsLast(bucket); }
    assert rest == [rest[0]] + rest[1..];
    AppendAssociative(bucket, [rest[0]], rest[1..]);
  }

  lemma CutSeparates(bucket: Bucket, rest: seq<Row>, limit: int)
    requires rest != [] && TimeSorted(rest) && rest[0].ls - MaxLast(bucket) > limit
    requires Separated(SplitFrom([rest[0]], rest[1..], limit), limit)
    ensures Separated([bucket] + SplitFrom([rest[0]], rest[1..], limit), limit)
  {
    var later := SplitFrom([rest[0]], rest[1..], limit);
    SplitFromConcat([rest[0]], rest[1..], limit);
    assert rest == [rest[0]] + rest[1..];
    SeparatedCons(bucket, later, rest[0].ls, limit);
  }

  lemma SeparatedCons(bucket: Bucket, later: seq<Bucket>, start: int, limit: int)
    requires Separated(later, limit) && start - MaxLast(bucket) > limit
    requires forall y :: y in Concat(later) ==> y.ls >= start
    ensures Separated([bucket] + later, limit)
  {
    var top := MaxLast(bucket);
    forall m | 0 <= m < |later| ensures Apart(bucket, later[m], limit) {
      BucketInRows(later, m);
    }
  }

  lemma SplitGaps(rows: seq<Row>, limit: int)
    requires TimeSorted(rows)
    ensures AllSmallGaps(Split(rows, limit), limit)
    ensures Separated(Split(rows, limit), limit)
  {
    if rows != [] {
      assert rows == [rows[0]] + rows[1..];
      SplitFromGaps([rows[0]], rows[1..], limit);
      SplitFromSeparated([rows[0]], rows[1..], limit);
    }
  }

  // ----- buckets are the connected components -----

  /** A chain of rows, each within `limit` of the next. */
  ghost predicate Chain(rows: seq<Row>, chain: seq<Row>, limit: int)
  {
    && chain != []
    && (forall i :: 0 <= i < |chain| ==> chain[i] in rows)
    && (forall i :: 0 <= i < |chain| - 1 ==> -limit <= chain[i + 1].ls - chain[i].ls <= limit)
  }

  ghost predicate Connected(rows: seq<Row>, x: Row, y: Row, limit: int)
  {
    exists chain :: Chain(rows, chain, limit) && chain[0] == x && chain[|chain| - 1] == y
  }

  ghost predicate Together(bs: seq<Bucket>, x: Row, y: Row)
  {
    exists k :: 0 <= k < |bs| && x in bs[k] && y in bs[k]
  }

  function Reverse(s: seq<Row>): (r: seq<Row>)
    ensures |r| == |s| && forall i :: 0 <= i < |s| ==> r[i] == s[|s| - 1 - i]
  {
    seq(|s|, i requires 0 <= i < |s| => s[|s| - 1 - i])
  }

  lemma ConnectedSymmetric(rows: seq<Row>, x: Row, y: Row, limit: int)
    requires Connected(rows, x, y, limit)
    ensures Connected(rows, y, x, limit)
  {
    var chain :| Chain(rows, chain, limit) && chain[0] == x && chain[|chain| - 1] == y;
    var back := Reverse(chain);
    forall i | 0 <= i < |back| - 1 ensures -limit <= back[i + 1].ls - back[i].ls <= limit {
      var j := |chain| - 2 - i;
      assert back[i + 1] == chain[j] && back[i] == chain[j + 1];
    }
    assert Chain(rows, back, limit);
  }

  /** Under a negative limit sorted rows with small gaps are single rows, so the bound's sign does not matter. */
  lemma BucketConnects(rows: seq<Row>, bucket: seq<Row>, p: nat, q: nat, limit: int)
    requires p <= q < |bucket|
    requires TimeSorted(bucket) && SmallGaps(bucket, limit) && forall r :: r in bucket ==> r in rows
    ensures Connected(rows, bucket[p], bucket[q], limit)
  {
    var chain := bucket[p..q + 1];
    forall i | 0 <= i < |chain| - 1 ensures -limit <= chain[i + 1].ls - chain[i].ls <= limit {
      assert chain[i] == bucket[p + i] && chain[i + 1] == bucket[p + i + 1];
    }
    assert Chain(rows, chain, limit);
  }

  lemma {:induction false} ChainStays(bs: seq<Bucket>, chain: seq<Row>, k: nat, i: nat, limit: int)
    requires Separated(bs, limit) && Chain(Concat(bs), chain, limit)
    requires k < |bs| && i < |chain| && chain[0] in bs[k]
    ensures chain[i] in bs[k]
  {
    if i > 0 {
      ChainStays(bs, chain, k, i - 1, limit);
      assert chain[i] in Concat(bs);
      var m :| 0 <= m < |bs| && chain[i] in bs[m];
      assert -limit <= chain[i - 1 + 1].ls - chain[i - 1].ls <= limit;
      CloseStay(bs, k, m, chain[i - 1], chain[i], limit);
    }
  }

  /** Rows within the limit of each other are in one bucket. */
  lemma CloseStay(bs: seq<Bucket>, k: nat, m: nat, x: Row, y: Row, limit: int)
    requires Separated(bs, limit) && k < |bs| && m < |bs| && x in bs[k] && y in bs[m]
    ensures -limit <= y.ls - x.ls <= limit ==> k == m
  {
    if k < m {
      assert Apart(bs[k], bs[m], limit);
    } else if m < k {
      assert Apart(bs[m], bs[k], limit);
    }
  }

  lemma BucketInRows(bs: seq<Bucket>, k: nat)
    requires k < |bs|
    ensures forall r :: r in bs[k] ==> r in Concat(bs)
  {
  }

  lemma {:induction false} BucketTimeSorted(bs: seq<Bucket>, k: nat)
    requires TimeSorted(Concat(bs)) && k < |bs|
    ensures TimeSorted(bs[k])
  {
    var all := Concat(bs);
    assert all == bs[0] + Concat(bs[1..]);
    if k == 0 {
      assert forall i :: 0 <= i < |bs[0]| ==> all[i] == bs[0][i];
    } else {
      assert Concat(bs[1..]) == all[|bs[0]|..];
      BucketTimeSorted(bs[1..], k - 1);
    }
  }

  lemma TogetherConnected(rows: seq<Row>, limit: int, x: Row, y: Row)
    requires TimeSorted(rows) && Together(Split(rows, limit), x, y)
    ensures Connected(rows, x, y, limit)
  {
    var bs := Split(rows, limit);
    SplitConcat(rows, limit);
    SplitGaps(rows, limit);
    var k :| 0 <= k < |bs| && x in bs[k] && y in bs[k];
    BucketInRows(bs, k);
    BucketTimeSorted(bs, k);
    var p :| 0 <= p < |bs[k]| && bs[k][p] == x;
    var q :| 0 <= q < |bs[k]| && bs[k][q] == y;
    if p <= q {
      BucketConnects(rows, bs[k], p, q, limit);
    } else {
      BucketConnects(rows, bs[k], q, p, limit);
      ConnectedSymmetric(rows, y, x, limit);
    }
  }

  lemma ConnectedTogether(rows: seq<Row>, limit: int, x: Row, y: Row)
    requires TimeSorted(rows) && Connected(rows, x, y, limit)
    ensures Together(Split(rows, limit), x, y)
  {
    var bs := Split(rows, limit);
    SplitConcat(rows, limit);
    SplitGaps(rows, limit);
    var chain :| Chain(rows, chain, limit) && chain[0] == x && chain[|chain| - 1] == y;
    assert x in Concat(bs);
    var k :| 0 <= k < |bs| && x in bs[k];
    ChainStays(bs, chain, k, |chain| - 1, limit);
  }

  // ----- from one group to all groups -----

  lemma FilterCount<T(!new)>(s: seq<T>, p: T -> bool, x: T)
    ensures multiset(Filter(s, p))[x] == if p(x) then multiset(s)[x] else 0
  {
    if s != [] {
      assert s == [s[0]] + s[1..];
    }
  }

  lemma GroupCount(lib: Library, rows: seq<Row>, key: string, x: Row)
    ensures multiset(Group(lib, rows, key))[x] == if GroupKey(lib, x.ev) == key then multiset(rows)[x] else 0
  {
    FilterCount(rows, (row: Row) => GroupKey(lib, row.ev) == key, x);
  }

  lemma GroupBucketsConcat(lib: Library, rows: seq<Row>, key: string, limit: int)
    ensures Concat(GroupBuckets(lib, rows, key, limit)) == Sort(Group(lib, rows, key), RowLe)
  {
    SplitConcat(Sort(Group(lib, rows, key), RowLe), limit);
  }

  lemma GroupBucketMembers(lib: Library, rows: seq<Row>, key: string, limit: int, k: nat)
    requires k < |GroupBuckets(lib, rows, key, limit)|
    ensures forall r :: r in GroupBuckets(lib, rows, key, limit)[k] ==> r in rows && GroupKey(lib, r.ev) == key
  {
    GroupBucketsConcat(lib, rows, key, limit);
    BucketInRows(GroupBuckets(lib, rows, key, limit), k);
    MultisetMembers(Sort(Group(lib, rows, key), RowLe), Group(lib, rows, key));
  }

  function Grouper(lib: Library, rows: seq<Row>, limit: int): (g: string -> seq<Bucket>)
  {
    (k: string) => GroupBuckets(lib, rows, k, limit)
  }

  /** Some key's list holds `b`. */
  ghost predicate Holds(keys: seq<string>, g: string -> seq<Bucket>, b: Bucket)
  {
    exists k :: k in keys && b in g(k)
  }

  lemma HoldsCons(keys: seq<string>, g: string -> seq<Bucket>, b: Bucket)
    requires keys != []
    ensures Holds(keys, g, b) <==> b in g(keys[0]) || Holds(keys[1..], g, b)
  {
    assert keys == [keys[0]] + keys[1..];
  }

  lemma {:induction false} BucketsOfMember(
      lib: Library, rows: seq<Row>, keys: seq<string>, limit: int, g: string -> seq<Bucket>, b: Bucket)
    requires g == Grouper(lib, rows, limit)
    ensures b in BucketsOf(lib, rows, keys, limit) <==> Holds(keys, g, b)
  {
    if keys != [] {
      BucketsOfMember(lib, rows, keys[1..], limit, g, b);
      HoldsCons(keys, g, b);
      assert BucketsOf(lib, rows, keys, limit) == g(keys[0]) + BucketsOf(lib, rows, keys[1..], limit);
    }
  }

  /** Every bucket of the whole pass belongs to one group, and every bucket of a group is there. */
  lemma BucketsOfMembers(lib: Library, rows: seq<Row>, keys: seq<string>, limit: int)
    ensures forall b :: b in BucketsOf(lib, rows, keys, limit)
                   <==> exists k :: k in keys && b in GroupBuckets(lib, rows, k, limit)
  {
    var g := Grouper(lib, rows, limit);
    forall b: Bucket ensures b in BucketsOf(lib, rows, keys, limit)
                        <==> exists k :: k in keys && b in GroupBuckets(lib, rows, k, limit)
    {
      BucketsOfMember(lib, rows, keys, limit, g, b);
      assert forall k :: g(k) == GroupBuckets(lib, rows, k, limit);
    }
  }

  lemma TogetherIn(bs: seq<Bucket>, b: Bucket, x: Row, y: Row)
    requires b in bs && x in b && y in b
    ensures Together(bs, x, y)
  {
    var k :| 0 <= k < |bs| && bs[k] == b;
  }

  /**
   The clustering pass computes connected components: two rows share a cluster exactly when
   they have the same fingerprint group and a chain of that group's rows joins them with every
   last-seen gap at most the window.
   */
  lemma ClustersAreComponents(lib: Library, rows: seq<Row>, window: int, x: Row, y: Row)
    requires x in rows && y in rows
    ensures var key := GroupKey(lib, x.ev);
            Together(Buckets(lib, rows, window), x, y)
            <==> GroupKey(lib, y.ev) == key
                 && Connected(Group(lib, rows, key), x, y, window * 1_000_000)
  {
    var key, limit := GroupKey(lib, x.ev), window * MICROS_PER_SECOND;
    var keys := SortedSet(KeysOf(lib, rows));
    var bs := Buckets(lib, rows, window);
    var sorted := Sort(Group(lib, rows, key), RowLe);
    BucketsOfMembers(lib, rows, keys, limit);
    SortTimeSorted(Group(lib, rows, key));
    if Together(bs, x, y) {
      var k :| 0 <= k < |bs| && x in bs[k] && y in bs[k];
      assert bs[k] in bs;
      var own :| own in keys && bs[k] in GroupBuckets(lib, rows, own, limit);
      var m :| 0 <= m < |GroupBuckets(lib, rows, own, limit)| && GroupBuckets(lib, rows, own, limit)[m] == bs[k];
      GroupBucketMembers(lib, rows, own, limit, m);
      TogetherConnected(sorted, limit, x, y);
      SameMembersConnected(sorted, Group(lib, rows, key), x, y, limit);
    }
    if GroupKey(lib, y.ev) == key && Connected(Group(lib, rows, key), x, y, limit) {
      SameMembersConnected(Group(lib, rows, key), sorted, x, y, limit);
      ConnectedTogether(sorted, limit, x, y);
      var gs := GroupBuckets(lib, rows, key, limit);
      var k :| 0 <= k < |gs| && x in gs[k] && y in gs[k];
      assert key in KeysOf(lib, rows);
      assert key in keys && gs[k] in GroupBuckets(lib, rows, key, limit);
      TogetherIn(bs, gs[k], x, y);
    }
  }

  lemma SameMembersConnected(a: seq<Row>, b: seq<Row>, x: Row, y: Row, limit: int)
    requires multiset(a) == multiset(b) && Connected(a, x, y, limit)
    ensures Connected(b, x, y, limit)
  {
    MultisetMembers(a, b);
    var chain :| Chain(a, chain, limit) && chain[0] == x && chain[|chain| - 1] == y;
    assert Chain(b, chain, limit);
  }

  // ----- what a cluster reports about its rows -----

  ghost predicate Earliest(bucket: seq<Row>, r: Row)
  {
    r in bucket && forall s :: s in bucket ==> r.fs <= s.fs
  }

  ghost predicate Newest(bucket: seq<Row>, r: Row)
  {
    r in bucket && forall s :: s in bucket ==> s.ls <= r.ls
  }

  /** First and last seen are the earliest first and the latest last time of the rows. */
  lemma ClusterTimes(lib: Library, bucket: Bucket)
    ensures exists r :: Earliest(bucket, r) && MakeCluster(lib, bucket).firstSeen == lib.iso(r.fs)
    ensures exists r :: Newest(bucket, r) && MakeCluster(lib, bucket).lastSeen == lib.iso(r.ls)
  {
    var r := EarliestRow(bucket);
    var s := NewestRow(bucket);
    assert Earliest(bucket, r) && Newest(bucket, s);
  }

  lemma EarliestRow(bucket: Bucket) returns (r: Row)
    ensures Earliest(bucket, r) && r.fs == MinFirst(bucket)
  {
    var m := MinFirst(bucket);
    r :| r in bucket && r.fs == m;
  }

  lemma NewestRow(bucket: Bucket) returns (r: Row)
    ensures Newest(bucket, r) && r.ls == MaxLast(bucket)
  {
    var m := MaxLast(bucket);
    r :| r in bucket && r.ls == m;
  }

  ghost predicate TwoEndpoints(bucket: seq<Row>)
  {
    exists r, s :: r in bucket && s in bucket && r.ev.endpoint != "" && s.ev.endpoint != ""
        && r.ev.endpoint != s.ev.endpoint
  }

  /** Some event carries this severity, in any case. */
  ghost predicate AnySeverity(bucket: seq<Row>, severity: string)
  {
    exists r :: r in bucket && Lower(r.ev.severity) == severity
  }

  lemma TwoMembers<T>(s: set<T>)
    ensures |s| >= 2 <==> exists a, b :: a in s && b in s && a != b
  {
    if s != {} {
      var a :| a in s;
      assert s == {a} + (s - {a});
      if s - {a} != {} {
        var b :| b in s - {a};
      }
      if c, d :| c in s && d in s && c != d {
        assert {c, d} <= s && |s - {c} - {d}| == |s| - 2;
      }
    }
  }

  lemma TwoEndpointsCounted(bucket: Bucket)
    ensures |EndpointIds(bucket)| >= 2 <==> TwoEndpoints(bucket)
  {
    var s := EndpointIds(bucket);
    TwoMembers(s);
    if a, b :| a in s && b in s && a != b {
      var r :| r in bucket && r.ev.endpoint != "" && r.ev.endpoint == a;
      var q :| q in bucket && q.ev.endpoint != "" && q.ev.endpoint == b;
    }
    if TwoEndpoints(bucket) {
      var r, q :| r in bucket && q in bucket && r.ev.endpoint != "" && q.ev.endpoint != ""
          && r.ev.endpoint != q.ev.endpoint;
      assert r.ev.endpoint in s && q.ev.endpoint in s;
    }
  }

  /** The worst event decides, and a second endpoint raises the result one step. */
  lemma ClusterSeverity(lib: Library, bucket: Bucket)
    ensures MakeCluster(lib, bucket).severity == High
            <==> AnySeverity(bucket, "high") || (AnySeverity(bucket, "medium") && TwoEndpoints(bucket))
    ensures MakeCluster(lib, bucket).severity == Low
            <==> !AnySeverity(bucket, "high") && !AnySeverity(bucket, "medium") && !TwoEndpoints(bucket)
  {
    TwoEndpointsCounted(bucket);
    var m := MaxRank(bucket);
    var r :| r in bucket && Rank(r.ev.severity) == m;
    assert MakeCluster(lib, bucket).severity == Label(ClusterRank(bucket));
  }

  /** The reported ids are those of the rows, sorted and without repetition, and the counts count. */
  lemma ClusterLists(lib: Library, bucket: Bucket)
    ensures var c := MakeCluster(lib, bucket);
            && (forall x :: x in c.eventIds <==> x != "" && exists r :: r in bucket && r.ev.id == x)
            && (forall x :: x in c.endpointIds <==> x != "" && exists r :: r in bucket && r.ev.endpoint == x)
            && StrictlySorted(c.eventIds) && StrictlySorted(c.endpointIds)
            && c.affectedEndpointCount == |c.endpointIds| && c.eventCount == |bucket|
  {
  }

  ghost predicate StrictlySorted(s: seq<string>)
  {
    forall i, j :: 0 <= i < j < |s| ==> s[i] != s[j] && StrLe(s[i], s[j])
  }

  /** The id of a cluster digests its event ids, then its first and its last time, joined by bars. */
  lemma ClusterIdText(lib: Library, bucket: Bucket)
    ensures var c := MakeCluster(lib, bucket);
            c.id == lib.uuid5(Joined(c.eventIds) + c.firstSeen + "|" + c.lastSeen)
  {
    var ids := SortedSet(EventIds(bucket));
    JoinTimes(ids, lib.iso(MinFirst(bucket)), lib.iso(MaxLast(bucket)));
  }

  /** Each part followed by a bar. */
  function Joined(parts: seq<string>): (r: string)
  {
    if parts == [] then "" else Joined(parts[..|parts| - 1]) + parts[|parts| - 1] + "|"
  }

  lemma {:induction false} JoinedCons(x: string, parts: seq<string>)
    ensures Joined([x] + parts) == x + "|" + Joined(parts)
  {
    if parts == [] {
      assert [x] + parts == [x] && [x][..0] == [];
    } else {
      var init := parts[..|parts| - 1];
      JoinedCons(x, init);
      assert ([x] + parts)[..|parts|] == [x] + init;
    }
  }

  lemma {:induction false} JoinTimes(ids: seq<string>, first: string, last: string)
    ensures Join(ids + [first, last]) == Joined(ids) + first + "|" + last
  {
    var all := ids + [first, last];
    if ids == [] {
      assert all == [first, last] && all[1..] == [last];
    } else {
      JoinTimes(ids[1..], first, last);
      assert all[1..] == ids[1..] + [first, last] && ids == [ids[0]] + ids[1..];
      JoinedCons(ids[0], ids[1..]);
    }
  }

  /** The clusters come out by last time, and by id where that is equal. */
  lemma OutputOrdered(lib: Library, rows: seq<Row>, window: int, i: nat, j: nat)
    requires i < j < |ClustersOfRows(lib, rows, window)|
    ensures var a, b := ClustersOfRows(lib, rows, window)[i], ClustersOfRows(lib, rows, window)[j];
            StrLe(a.lastSeen, b.lastSeen) && (a.lastSeen == b.lastSeen ==> StrLe(a.id, b.id))
  {
    ClusterLePreorder();
    SortSorted(Map(Buckets(lib, rows, window), Maker(lib)), ClusterLe);
    var a, b := ClustersOfRows(lib, rows, window)[i], ClustersOfRows(lib, rows, window)[j];
    assert ClusterLe(a, b);
    StrLeTotal(a.lastSeen, a.lastSeen);
  }

  lemma ClusterLePreorder()
    ensures TotalPreorder(ClusterLe)
  {
    StrLePreorder();
    forall a: Cluster, b: Cluster, c: Cluster | ClusterLe(a, b) && ClusterLe(b, c) ensures ClusterLe(a, c) {
      if a.lastSeen == c.lastSeen && a.lastSeen != b.lastSeen { StrLeAntisymmetric(a.lastSeen, b.lastSeen); }
    }
  }

  /** The times of a row: its own where it has them, each standing in for the other, else the clock. */
  lemma RowTimes(e: Event, now: int)
    ensures RowOf(e, now).ev == e
    ensures e.firstSeen.Some? ==> RowOf(e, now).fs == e.firstSeen.value
    ensures e.lastSeen.Some? ==> RowOf(e, now).ls == e.lastSeen.value
    ensures e.firstSeen.None? ==> RowOf(e, now).fs == RowOf(e, now).ls
    ensures e.lastSeen.None? ==> RowOf(e, now).ls == RowOf(e, now).fs
    ensures e.firstSeen.None? && e.lastSeen.None? ==> RowOf(e, now).ls == now
  {
  }

  // ----- conservation -----

  lemma {:induction false} BucketsOfCount(lib: Library, rows: seq<Row>, keys: seq<string>, limit: int, x: Row)
    requires forall i, j :: 0 <= i < j < |keys| ==> keys[i] != keys[j]
    ensures multiset(Concat(BucketsOf(lib, rows, keys, limit)))[x]
            == if GroupKey(lib, x.ev) in keys then multiset(rows)[x] else 0
  {
    if keys != [] {
      assert keys == [keys[0]] + keys[1..];
      BucketsOfCount(lib, rows, keys[1..], limit, x);
      ConcatAppend<Row>(GroupBuckets(lib, rows, keys[0], limit), BucketsOf(lib, rows, keys[1..], limit));
      GroupBucketsConcat(lib, rows, keys[0], limit);
      GroupCount(lib, rows, keys[0], x);
    }
  }

  /** No row is lost, duplicated or invented, whatever the window. */
  lemma BucketsConserve(lib: Library, rows: seq<Row>, window: int)
    ensures multiset(Concat(Buckets(lib, rows, window))) == multiset(rows)
  {
    var keys := SortedSet(KeysOf(lib, rows));
    var all := Concat(Buckets(lib, rows, window));
    forall x ensures multiset(all)[x] == multiset(rows)[x] {
      BucketsOfCount(lib, rows, keys, window * MICROS_PER_SECOND, x);
      if x in rows { assert GroupKey(lib, x.ev) in KeysOf(lib, rows); }
    }
  }

  function Sum<T>(s: seq<T>, f: T -> int): (n: int)
  {
    if s == [] then 0 else f(s[0]) + Sum(s[1..], f)
  }

  lemma {:induction false} SumInsert<T>(x: T, s: seq<T>, le: (T, T) -> bool, f: T -> int)
    ensures Sum(Insert(x, s, le), f) == f(x) + Sum(s, f)
  {
    if s != [] && !le(x, s[0]) {
      SumInsert(x, s[1..], le, f);
      assert Insert(x, s, le)[1..] == Insert(x, s[1..], le);
    }
  }

  lemma {:induction false} SumSort<T>(s: seq<T>, le: (T, T) -> bool, f: T -> int)
    ensures Sum(Sort(s, le), f) == Sum(s, f)
  {
    if s != [] {
      SumSort(s[1..], le, f);
      SumInsert(s[0], Sort(s[1..], le), le, f);
    }
  }

  function EventCount(c: Cluster): (n: int) { c.eventCount }

  lemma {:induction false} SumMapped(bs: seq<Bucket>, make: Bucket -> Cluster)
    requires forall b :: make(b).eventCount == |b|
    ensures Sum(Map(bs, make), EventCount) == |Concat(bs)|
  {
    if bs != [] {
      SumMapped(bs[1..], make);
      assert Map(bs, make)[1..] == Map(bs[1..], make);
    }
  }

  lemma SumCounts(lib: Library, bs: seq<Bucket>)
    ensures Sum(Map(bs, Maker(lib)), EventCount) == |Concat(bs)|
  {
    SumMapped(bs, Maker(lib));
  }

  predicate HasId(e: Event) { e.id != "" }

  lemma {:induction false} RowsLength(events: seq<Event>, clock: nat -> int, n: nat)
    requires n <= |events|
    ensures |RowsUpTo(events, clock, n)| == |Filter(events[..n], HasId)|
  {
    if n > 0 {
      RowsLength(events, clock, n - 1);
      PrefixSnoc(events, n - 1);
      FilterSnoc(events[..n - 1], events[n - 1], HasId);
    }
  }

  /** The event counts of the clusters add up to the number of events that carry an id. */
  lemma EventCountsAddUp(lib: Library, events: seq<Event>, clock: nat -> int, window: int)
    ensures Sum(Clusters(lib, events, clock, window), EventCount) == |Filter(events, HasId)|
  {
    var rows := Rows(events, clock);
    var bs := Buckets(lib, rows, window);
    SumSort(Map(bs, Maker(lib)), ClusterLe, EventCount);
    SumCounts(lib, bs);
    BucketsConserve(lib, rows, window);
    assert |Concat(bs)| == |multiset(Concat(bs))| == |multiset(rows)| == |rows|;
    RowsLength(events, clock, |events|);
    assert events[..|events|] == events;
  }
}
