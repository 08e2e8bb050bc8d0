/** How the clusters change with the window: a wider window only merges them. */
module ClusteringWindow {
  import opened Ordering
  import opened Clustering
  import opened ClusteringLaws

  /** `coarse` is `fine` with runs of neighbouring buckets merged. */
  ghost predicate Coarsens(fine: seq<Bucket>, coarse: seq<Bucket>)
    decreases coarse
  {
    if coarse == [] then fine == []
    else exists n :: 1 <= n <= |fine| && Concat(fine[..n]) == coarse[0] && Coarsens(fine[n..], coarse[1..])
  }

  lemma CoarsensStep(fine: seq<Bucket>, n: nat, coarse: seq<Bucket>)
    requires coarse != [] && 1 <= n <= |fine|
    requires Concat(fine[..n]) == coarse[0] && Coarsens(fine[n..], coarse[1..])
    ensures Coarsens(fine, coarse)
  {
  }

  lemma {:induction false} CoarsensFewer(fine: seq<Bucket>, coarse: seq<Bucket>)
    requires Coarsens(fine, coarse)
    ensures |coarse| <= |fine|
    decreases coarse
  {
    if coarse != [] {
      var n :| 1 <= n <= |fine| && Concat(fine[..n]) == coarse[0] && Coarsens(fine[n..], coarse[1..]);
      CoarsensFewer(fine[n..], coarse[1..]);
    }
  }

  /** Every fine bucket is a contiguous part of some coarse bucket. */
  ghost predicate Within(b: seq<Row>, c: seq<Row>)
  {
    exists i, j :: 0 <= i <= j <= |c| && c[i..j] == b
  }

  lemma {:induction false} PieceWithin(bs: seq<Bucket>, k: nat)
    requires k < |bs|
    ensures Within(bs[k], Concat(bs))
  {
    var all := Concat(bs);
    assert all == bs[0] + Concat(bs[1..]);
    if k == 0 {
      assert all[0..|bs[0]|] == bs[0];
    } else {
      PieceWithin(bs[1..], k - 1);
      var rest := Concat(bs[1..]);
      var i, j :| 0 <= i <= j <= |rest| && rest[i..j] == bs[k];
      assert all[|bs[0]| + i..|bs[0]| + j] == rest[i..j];
    }
  }

  lemma {:induction false} CoarsensWithin(fine: seq<Bucket>, coarse: seq<Bucket>, k: nat)
    requires Coarsens(fine, coarse) && k < |fine|
    ensures exists m :: 0 <= m < |coarse| && Within(fine[k], coarse[m])
    decreases coarse
  {
    var n :| 1 <= n <= |fine| && Concat(fine[..n]) == coarse[0] && Coarsens(fine[n..], coarse[1..]);
    if k < n {
      PieceWithin(fine[..n], k);
      assert Within(fine[k], coarse[0]);
    } else {
      CoarsensWithin(fine[n..], coarse[1..], k - n);
      var m :| 0 <= m < |coarse[1..]| && Within(fine[n..][k - n], coarse[1..][m]);
      assert coarse[1..][m] == coarse[m + 1] && fine[n..][k - n] == fine[k];
    }
  }

  lemma {:induction false} CoarsensAppend(f1: seq<Bucket>, c1: seq<Bucket>, f2: seq<Bucket>, c2: seq<Bucket>)
    requires Coarsens(f1, c1) && Coarsens(f2, c2)
    ensures Coarsens(f1 + f2, c1 + c2)
    decreases c1
  {
    if c1 == [] {
      assert f1 + f2 == f2 && c1 + c2 == c2;
    } else {
      var n :| 1 <= n <= |f1| && Concat(f1[..n]) == c1[0] && Coarsens(f1[n..], c1[1..]);
      CoarsensAppend(f1[n..], c1[1..], f2, c2);
      CutAppend(f1, f2, n);
      CutAppend(c1, c2, 1);
      CoarsensStep(f1 + f2, n, c1 + c2);
    }
  }

  lemma MaxLastSuffix(pre: seq<Row>, bucket: Bucket)
    requires TimeSorted(pre + bucket)
    ensures MaxLast(pre + bucket) == MaxLast(bucket)
  {
    TimeSortedParts(pre, bucket);
    MaxLastIsLast(bucket);
    MaxLastIsLast(pre + bucket);
  }

  lemma ConcatSnoc(pre: seq<Bucket>, bucket: Bucket)
    ensures Concat(pre + [bucket]) == Concat(pre) + bucket
  {
    ConcatAppend<Row>(pre, [bucket]);
    assert Concat([bucket]) == bucket + Concat<Row>([]);
  }

  /** Both passes close their bucket. */
  lemma CloseBoth(pre: seq<Bucket>, bucket: Bucket, fine: seq<Bucket>, coarse: seq<Bucket>)
    requires Coarsens(fine, coarse)
    ensures Coarsens(pre + ([bucket] + fine), [Concat(pre) + bucket] + coarse)
  {
    ConcatSnoc(pre, bucket);
    var all, n := pre + ([bucket] + fine), |pre| + 1;
    assert all[..n] == pre + [bucket] && all[n..] == fine;
    var out: seq<Bucket> := [Concat(pre) + bucket] + coarse;
    assert out[0] == Concat(pre) + bucket && out[1..] == coarse;
    CoarsensStep(all, n, out);
  }

  lemma CutBoth(pre: seq<Bucket>, bucket: Bucket, fine: seq<Bucket>, coarse: seq<Bucket>)
    requires Coarsens([] + fine, coarse)
    ensures Coarsens(pre + ([bucket] + fine), [Concat(pre) + bucket] + coarse)
  {
    assert [] + fine == fine;
    CloseBoth(pre, bucket, fine, coarse);
  }

  lemma EndBoth(pre: seq<Bucket>, bucket: Bucket)
    ensures Coarsens(pre + [bucket], [Concat(pre) + bucket])
  {
    CloseBoth(pre, bucket, [], []);
    assert [bucket] + [] == [bucket] && [Concat(pre) + bucket] + [] == [Concat(pre) + bucket];
  }

  lemma StartEmpty(r: Row, later: seq<Row>)
    ensures Concat<Row>([]) + [r] == [r]
    ensures Concat<Row>([]) + [r] + later == [r] + later
  {
  }

  /** The rows stay sorted whichever bucket takes the next one, and both passes compare with the same time. */
  lemma NextRow(pre: seq<Bucket>, bucket: Bucket, rest: seq<Row>)
    requires rest != [] && TimeSorted(Concat(pre) + bucket + rest)
    ensures MaxLast(Concat(pre) + bucket) == MaxLast(bucket)
    ensures TimeSorted([rest[0]] + rest[1..])
    ensures Concat(pre + [bucket]) == Concat(pre) + bucket
    ensures TimeSorted(Concat(pre + [bucket]) + [rest[0]] + rest[1..])
    ensures Concat(pre) + bucket + [rest[0]] == Concat(pre) + (bucket + [rest[0]])
    ensures TimeSorted(Concat(pre) + (bucket + [rest[0]]) + rest[1..])
  {
    assert rest == [rest[0]] + rest[1..];
    TimeSortedParts(Concat(pre) + bucket, rest);
    MaxLastSuffix(Concat(pre), bucket);
    ConcatSnoc(pre, bucket);
    AppendAssociative(Concat(pre) + bucket, [rest[0]], rest[1..]);
    AppendAssociative(Concat(pre), bucket, [rest[0]]);
  }

  /** The two passes side by side: the narrow one has closed `pre` inside the wide one's open bucket. */
  lemma {:induction false} SplitFromCoarsens(pre: seq<Bucket>, bucket: Bucket, rest: seq<Row>, narrow: int, wide: int)
    requires narrow <= wide && TimeSorted(Concat(pre) + bucket + rest)
    ensures Coarsens(pre + SplitFrom(bucket, rest, narrow), SplitFrom(Concat(pre) + bucket, rest, wide))
    decreases rest, 1
  {
    if rest == [] {
      EndBoth(pre, bucket);
    } else if rest[0].ls - MaxLast(bucket) > wide {
      CoarsensAtWideGap(pre, bucket, rest, narrow, wide);
    } else {
      CoarsensInBucket(pre, bucket, rest, narrow, wide);
    }
  }

  lemma {:induction false} CoarsensAtWideGap(pre: seq<Bucket>, bucket: Bucket, rest: seq<Row>, narrow: int, wide: int)
    requires narrow <= wide && TimeSorted(Concat(pre) + bucket + rest)
    requires rest != [] && rest[0].ls - MaxLast(bucket) > wide
    ensures Coarsens(pre + SplitFrom(bucket, rest, narrow), SplitFrom(Concat(pre) + bucket, rest, wide))
    decreases rest, 0
  {
    var r, later := rest[0], rest[1..];
    NextRow(pre, bucket, rest);
    StartEmpty(r, later);
    SplitFromCoarsens([], [r], later, narrow, wide);
    CutBoth(pre, bucket, SplitFrom([r], later, narrow), SplitFrom(Concat<Row>([]) + [r], later, wide));
  }

  lemma {:induction false} CoarsensInBucket(pre: seq<Bucket>, bucket: Bucket, rest: seq<Row>, narrow: int, wide: int)
    requires narrow <= wide && TimeSorted(Concat(pre) + bucket + rest)
    requires rest != [] && rest[0].ls - MaxLast(bucket) <= wide
    ensures Coarsens(pre + SplitFrom(bucket, rest, narrow), SplitFrom(Concat(pre) + bucket, rest, wide))
    decreases rest, 0
  {
    var r, later := rest[0], rest[1..];
    NextRow(pre, bucket, rest);
    if r.ls - MaxLast(bucket) > narrow {
      SplitFromCoarsens(pre + [bucket], [r], later, narrow, wide);
      AppendAssociative(pre, [bucket], SplitFrom([r], later, narrow));
    } else {
      SplitFromCoarsens(pre, bucket + [r], later, narrow, wide);
    }
  }

  lemma SplitCoarsens(rows: seq<Row>, narrow: int, wide: int)
    requires narrow <= wide && TimeSorted(rows)
    ensures Coarsens(Split(rows, narrow), Split(rows, wide))
  {
    if rows != [] {
      assert Concat<Row>([]) + [rows[0]] + rows[1..] == rows;
      assert Concat<Row>([]) + [rows[0]] == [rows[0]];
      SplitFromCoarsens([], [rows[0]], rows[1..], narrow, wide);
      assert [] + SplitFrom([rows[0]], rows[1..], narrow) == Split(rows, narrow);
    }
  }

  lemma {:induction false} BucketsOfCoarsen(lib: Library, rows: seq<Row>, keys: seq<string>, narrow: int, wide: int)
    requires narrow <= wide
    ensures Coarsens(BucketsOf(lib, rows, keys, narrow), BucketsOf(lib, rows, keys, wide))
  {
    if keys != [] {
      BucketsOfCoarsen(lib, rows, keys[1..], narrow, wide);
      SortTimeSorted(Group(lib, rows, keys[0]));
      SplitCoarsens(Sort(Group(lib, rows, keys[0]), RowLe), narrow, wide);
      CoarsensAppend(
        GroupBuckets(lib, rows, keys[0], narrow), GroupBuckets(lib, rows, keys[0], wide),
        BucketsOf(lib, rows, keys[1..], narrow), BucketsOf(lib, rows, keys[1..], wide));
    }
  }

  /** Widening the window merges neighbouring buckets and does nothing else. */
  lemma WindowCoarsens(lib: Library, rows: seq<Row>, w1: int, w2: int)
    requires w1 <= w2
    ensures Coarsens(Buckets(lib, rows, w1), Buckets(lib, rows, w2))
  {
    BucketsOfCoarsen(lib, rows, SortedSet(KeysOf(lib, rows)), w1 * MICROS_PER_SECOND, w2 * MICROS_PER_SECOND);
  }

  /** The cluster count never grows with the window. */
  lemma ClusterCountAntitone(lib: Library, events: seq<Event>, clock: nat -> int, w1: int, w2: int)
    requires w1 <= w2
    ensures |Clusters(lib, events, clock, w2)| <= |Clusters(lib, events, clock, w1)|
  {
    var rows := Rows(events, clock);
    WindowCoarsens(lib, rows, w1, w2);
    CoarsensFewer(Buckets(lib, rows, w1), Buckets(lib, rows, w2));
  }

  /** `c` reports everything `b` reports: same pattern, all its ids, a severity no lower. */
  ghost predicate Covers(b: Cluster, c: Cluster)
  {
    && b.category == c.category && b.patternKey == c.patternKey
    && (forall x :: x in b.eventIds ==> x in c.eventIds)
    && (forall x :: x in b.endpointIds ==> x in c.endpointIds)
    && b.eventCount <= c.eventCount
    && b.affectedEndpointCount <= c.affectedEndpointCount
    && (b.severity == c.severity || b.severity == Low || c.severity == High)
  }

  lemma RanksMonotone(b: Bucket, c: Bucket)
    requires forall r :: r in b ==> r in c
    ensures EndpointIds(b) <= EndpointIds(c) && |EndpointIds(b)| <= |EndpointIds(c)|
    ensures ClusterRank(b) <= ClusterRank(c)
  {
    assert EndpointIds(b) <= EndpointIds(c);
    SubsetSize(EndpointIds(b), EndpointIds(c));
    var mb, mc := MaxRank(b), MaxRank(c);
    var r :| r in b && Rank(r.ev.severity) == mb;
    var r' :| r' in c && Rank(r'.ev.severity) == mc;
  }

  lemma {:induction false} SubsetSize<T>(a: set<T>, b: set<T>)
    requires a <= b
    ensures |a| <= |b|
    decreases a
  {
    if a != {} {
      var x :| x in a;
      SubsetSize(a - {x}, b - {x});
    }
  }

  /** The group key determines the category and the fingerprint. */
  lemma GroupKeyDecodes(lib: Library, d: Event, e: Event)
    requires WellFormed(lib) && GroupKey(lib, d) == GroupKey(lib, e)
    ensures Category(d) == Category(e) && Fingerprint(lib, d) == Fingerprint(lib, e)
  {
    var fd, fe := Fingerprint(lib, d), Fingerprint(lib, e);
    assert |fd| == |fe| == 16;
    var k := GroupKey(lib, d);
    assert k[|k| - 16..] == fd && k[|k| - 16..] == fe;
    assert k[..|k| - 17] == Category(d) && k[..|k| - 17] == Category(e);
  }

  lemma CoversFrom(lib: Library, b: Bucket, c: Bucket)
    requires Category(b[0].ev) == Category(c[0].ev) && Fingerprint(lib, b[0].ev) == Fingerprint(lib, c[0].ev)
    requires EventIds(b) <= EventIds(c) && EndpointIds(b) <= EndpointIds(c) && |EndpointIds(b)| <= |EndpointIds(c)|
    requires ClusterRank(b) <= ClusterRank(c) && |b| <= |c|
    ensures Covers(MakeCluster(lib, b), MakeCluster(lib, c))
  {
    SortedSetsCover(EventIds(b), EventIds(c));
    SortedSetsCover(EndpointIds(b), EndpointIds(c));
  }

  lemma SortedSetsCover(a: set<string>, b: set<string>)
    requires a <= b
    ensures forall x :: x in SortedSet(a) ==> x in SortedSet(b)
  {
  }

  lemma WithinCovers(lib: Library, b: Bucket, c: Bucket)
    requires WellFormed(lib) && Within(b, c) && OneGroup(lib, c)
    ensures Covers(MakeCluster(lib, b), MakeCluster(lib, c))
  {
    assert forall r :: r in b ==> r in c;
    GroupKeyDecodes(lib, b[0].ev, c[0].ev);
    RanksMonotone(b, c);
    assert EventIds(b) <= EventIds(c);
    CoversFrom(lib, b, c);
  }

  ghost predicate OneGroup(lib: Library, b: Bucket)
  {
    forall r :: r in b ==> GroupKey(lib, r.ev) == GroupKey(lib, b[0].ev)
  }

  lemma BucketsOneGroup(lib: Library, rows: seq<Row>, window: int, m: nat)
    requires m < |Buckets(lib, rows, window)|
    ensures OneGroup(lib, Buckets(lib, rows, window)[m])
  {
    var keys, limit := SortedSet(KeysOf(lib, rows)), window * MICROS_PER_SECOND;
    var b := Buckets(lib, rows, window)[m];
    BucketsOfMembers(lib, rows, keys, limit);
    assert b in Buckets(lib, rows, window);
    var k :| k in keys && b in GroupBuckets(lib, rows, k, limit);
    var j :| 0 <= j < |GroupBuckets(lib, rows, k, limit)| && GroupBuckets(lib, rows, k, limit)[j] == b;
    GroupBucketMembers(lib, rows, k, limit, j);
    assert b[0] in b;
  }

  /** The clusters reported are the images of the buckets, reordered. */
  lemma ClusterMembers(lib: Library, rows: seq<Row>, window: int, c: Cluster)
    ensures c in ClustersOfRows(lib, rows, window)
            <==> exists k :: 0 <= k < |Buckets(lib, rows, window)| && c == Maker(lib)(Buckets(lib, rows, window)[k])
  {
    SortMapMembers<Bucket, Cluster>(Buckets(lib, rows, window), Maker(lib), ClusterLe, c);
  }

  /** Each cluster of the narrow window is covered by a cluster of the wide one. */
  lemma NarrowClusterCovered(lib: Library, events: seq<Event>, clock: nat -> int, w1: int, w2: int, b: Cluster)
    requires WellFormed(lib) && w1 <= w2 && b in Clusters(lib, events, clock, w1)
    ensures exists c :: c in Clusters(lib, events, clock, w2) && Covers(b, c)
  {
    var rows := Rows(events, clock);
    var fine, coarse := Buckets(lib, rows, w1), Buckets(lib, rows, w2);
    ClusterMembers(lib, rows, w1, b);
    var k :| 0 <= k < |fine| && b == Maker(lib)(fine[k]);
    WindowCoarsens(lib, rows, w1, w2);
    CoarsensWithin(fine, coarse, k);
    var m :| 0 <= m < |coarse| && Within(fine[k], coarse[m]);
    BucketsOneGroup(lib, rows, w2, m);
    WithinCovers(lib, fine[k], coarse[m]);
    ClusterMembers(lib, rows, w2, Maker(lib)(coarse[m]));
  }

  ghost predicate Disjoint(a: seq<Row>, b: seq<Row>)
  {
    forall x :: x in a ==> x !in b
  }

  ghost predicate AllDisjoint(bs: seq<Bucket>)
  {
    forall m, n :: 0 <= m < n < |bs| ==> Disjoint(bs[m], bs[n])
  }

  lemma GroupBucketsDisjoint(lib: Library, rows: seq<Row>, key: string, limit: int)
    requires limit >= 0
    ensures AllDisjoint(GroupBuckets(lib, rows, key, limit))
  {
    var s := Sort(Group(lib, rows, key), RowLe);
    SortTimeSorted(Group(lib, rows, key));
    SplitGaps(s, limit);
    var bs := GroupBuckets(lib, rows, key, limit);
    forall m, n | 0 <= m < n < |bs| ensures Disjoint(bs[m], bs[n]) {
      assert Apart(bs[m], bs[n], limit);
    }
  }

  lemma {:induction false} BucketsOfDisjoint(lib: Library, rows: seq<Row>, keys: seq<string>, limit: int)
    requires limit >= 0 && forall i, j :: 0 <= i < j < |keys| ==> keys[i] != keys[j]
    ensures AllDisjoint(BucketsOf(lib, rows, keys, limit))
  {
    if keys != [] {
      var a, b := GroupBuckets(lib, rows, keys[0], limit), BucketsOf(lib, rows, keys[1..], limit);
      GroupBucketsDisjoint(lib, rows, keys[0], limit);
      BucketsOfDisjoint(lib, rows, keys[1..], limit);
      BucketsOfMembers(lib, rows, keys[1..], limit);
      forall m, n | 0 <= m < |a| && 0 <= n < |b| ensures Disjoint(a[m], b[n]) {
        assert b[n] in b;
        var k :| k in keys[1..] && b[n] in GroupBuckets(lib, rows, k, limit);
        OtherGroup(lib, rows, keys[0], k, limit, a[m], b[n]);
      }
    }
  }

  lemma OtherGroup(lib: Library, rows: seq<Row>, k1: string, k2: string, limit: int, a: Bucket, b: Bucket)
    requires k1 != k2 && a in GroupBuckets(lib, rows, k1, limit) && b in GroupBuckets(lib, rows, k2, limit)
    ensures Disjoint(a, b)
  {
    var i :| 0 <= i < |GroupBuckets(lib, rows, k1, limit)| && GroupBuckets(lib, rows, k1, limit)[i] == a;
    var j :| 0 <= j < |GroupBuckets(lib, rows, k2, limit)| && GroupBuckets(lib, rows, k2, limit)[j] == b;
    GroupBucketMembers(lib, rows, k1, limit, i);
    GroupBucketMembers(lib, rows, k2, limit, j);
  }

  /** Each bucket of the narrow window lies inside exactly one bucket of the wide window. */
  lemma NarrowInExactlyOneWide(lib: Library, rows: seq<Row>, w1: int, w2: int, k: nat)
    requires w1 <= w2 && 0 <= w2 && k < |Buckets(lib, rows, w1)|
    ensures exists m :: 0 <= m < |Buckets(lib, rows, w2)|
                   && Within(Buckets(lib, rows, w1)[k], Buckets(lib, rows, w2)[m])
    ensures forall m, n ::
              0 <= m < n < |Buckets(lib, rows, w2)| ==>
              !(Within(Buckets(lib, rows, w1)[k], Buckets(lib, rows, w2)[m])
                && Within(Buckets(lib, rows, w1)[k], Buckets(lib, rows, w2)[n]))
  {
    var b, coarse := Buckets(lib, rows, w1)[k], Buckets(lib, rows, w2);
    WindowCoarsens(lib, rows, w1, w2);
    CoarsensWithin(Buckets(lib, rows, w1), coarse, k);
    BucketsOfDisjoint(lib, rows, SortedSet(KeysOf(lib, rows)), w2 * MICROS_PER_SECOND);
    forall m, n | 0 <= m < n < |coarse| ensures !(Within(b, coarse[m]) && Within(b, coarse[n])) {
      NotInBoth(b, coarse[m], coarse[n]);
    }
  }

  lemma NotInBoth(b: Bucket, c: seq<Row>, d: seq<Row>)
    requires Disjoint(c, d)
    ensures !(Within(b, c) && Within(b, d))
  {
    if Within(b, c) { assert b[0] in c; }
    if Within(b, d) { assert b[0] in d; }
  }
}
