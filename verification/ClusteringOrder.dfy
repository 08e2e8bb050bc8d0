/** The clusters do not depend on the order of the input, exactly when the window is not negative. */
module ClusteringOrder {
  import opened Logs
  import opened Ordering
  import opened Clustering
  import opened ClusteringLaws
  import opened ClusteringWindow

  /** How many leading rows are no later than `t`. */
  function Cut(a: seq<Row>, t: int): (n: nat)
    ensures n <= |a|
    ensures forall i :: 0 <= i < n ==> a[i].ls <= t
  {
    if a == [] || a[0].ls > t then 0 else 1 + Cut(a[1..], t)
  }

  lemma {:induction false} CutRest(a: seq<Row>, t: int)
    requires TimeSorted(a)
    ensures forall i :: Cut(a, t) <= i < |a| ==> a[i].ls > t
  {
    if a != [] && a[0].ls <= t {
      CutRest(a[1..], t);
      forall i | Cut(a, t) <= i < |a| ensures a[i].ls > t {
        assert a[i] == a[1..][i - 1];
      }
    }
  }

  /** In sorted rows the rows no later than `t` are a prefix. */
  lemma CutCount(a: seq<Row>, t: int, x: Row)
    requires TimeSorted(a)
    ensures multiset(a[..Cut(a, t)])[x] == if x.ls <= t then multiset(a)[x] else 0
  {
    CutRest(a, t);
    var n := Cut(a, t);
    assert a == a[..n] + a[n..];
    assert multiset(a)[x] == multiset(a[..n])[x] + multiset(a[n..])[x];
    if x.ls <= t {
      assert x !in a[n..];
    } else {
      assert x !in a[..n];
    }
  }

  ghost predicate SameRows(a: seq<Row>, b: seq<Row>)
  {
    TimeSorted(a) && TimeSorted(b) && multiset(a) == multiset(b)
  }

  lemma CutSame(a: seq<Row>, b: seq<Row>, t: int)
    requires SameRows(a, b)
    ensures multiset(a[..Cut(a, t)]) == multiset(b[..Cut(b, t)]) && Cut(a, t) == Cut(b, t)
  {
    var p, q := a[..Cut(a, t)], b[..Cut(b, t)];
    forall x ensures multiset(p)[x] == multiset(q)[x] {
      CutCount(a, t, x);
      CutCount(b, t, x);
    }
    assert multiset(p) == multiset(q);
    assert |p| == |multiset(p)| == |multiset(q)| == |q|;
  }

  /** Two sorted arrangements of the same rows carry the same times. */
  lemma SameTimes(a: seq<Row>, b: seq<Row>, i: nat)
    requires SameRows(a, b) && i < |a|
    ensures |a| == |b| && a[i].ls == b[i].ls
  {
    assert |a| == |multiset(a)| == |multiset(b)| == |b|;
    CutSame(a, b, a[i].ls);
    CutSame(a, b, b[i].ls);
    CutRest(a, a[i].ls);
    CutRest(b, b[i].ls);
  }

  lemma SameGap(a: seq<Row>, b: seq<Row>, q: nat)
    requires SameRows(a, b) && 0 < q < |a| == |b|
    ensures a[q].ls - a[q - 1].ls == b[q].ls - b[q - 1].ls
  {
    SameTimes(a, b, q - 1);
    SameTimes(a, b, q);
  }

  ghost function Bag(b: Bucket): (m: multiset<Row>)
  {
    multiset(b)
  }

  /** The buckets up to the order of the rows inside each. */
  ghost function Bags(bs: seq<Bucket>): (r: seq<multiset<Row>>)
    ensures |r| == |bs| && forall i :: 0 <= i < |bs| ==> r[i] == Bag(bs[i])
  {
    seq(|bs|, i requires 0 <= i < |bs| => Bag(bs[i]))
  }

  lemma BagsAppend(x: seq<Bucket>, y: seq<Bucket>)
    ensures Bags(x + y) == Bags(x) + Bags(y)
  {
  }

  lemma BagsOne(b: Bucket)
    ensures Bags([b]) == [Bag(b)]
  {
  }

  lemma SliceSame(a: seq<Row>, b: seq<Row>, p: nat, q: nat)
    requires p <= q <= |a| == |b|
    requires multiset(a[..p]) == multiset(b[..p]) && multiset(a[..q]) == multiset(b[..q])
    ensures multiset(a[p..q]) == multiset(b[p..q])
  {
    assert a[..q] == a[..p] + a[p..q] && b[..q] == b[..p] + b[p..q];
    assert multiset(a[p..q]) == multiset(a[..q]) - multiset(a[..p]);
    assert multiset(b[p..q]) == multiset(b[..q]) - multiset(b[..p]);
  }

  /** A positive gap before position `q` makes the first `q` rows the same rows in both arrangements. */
  lemma PrefixSame(a: seq<Row>, b: seq<Row>, q: nat)
    requires SameRows(a, b) && 0 < q <= |a|
    requires q < |a| ==> a[q - 1].ls < a[q].ls
    ensures |a| == |b| && multiset(a[..q]) == multiset(b[..q])
  {
    assert |a| == |multiset(a)| == |multiset(b)| == |b|;
    var t := a[q - 1].ls;
    CutRest(a, t);
    assert Cut(a, t) == q;
    CutSame(a, b, t);
  }

  lemma OpenTop(a: seq<Row>, p: nat, q: nat)
    requires TimeSorted(a) && p < q <= |a|
    ensures MaxLast(a[p..q]) == a[q - 1].ls
  {
    SliceTimeSorted(a, p, q);
    MaxLastIsLast(a[p..q]);
  }

  /** The pass with rows `p` to `q` in the open bucket. */
  function Pass(a: seq<Row>, p: nat, q: nat, limit: int): (bs: seq<Bucket>)
    requires p < q <= |a|
  {
    SplitFrom(a[p..q], a[q..], limit)
  }

  lemma PassEnd(a: seq<Row>, p: nat, limit: int)
    requires p < |a|
    ensures Pass(a, p, |a|, limit) == [a[p..|a|]]
  {
    assert a[|a|..] == [];
  }

  lemma PassEndBags(a: seq<Row>, p: nat, limit: int)
    requires p < |a|
    ensures Bags(Pass(a, p, |a|, limit)) == [Bag(a[p..|a|])]
  {
    PassEnd(a, p, limit);
    BagsOne(a[p..|a|]);
  }

  lemma PassCut(a: seq<Row>, p: nat, q: nat, limit: int)
    requires TimeSorted(a) && p < q < |a| && a[q].ls - a[q - 1].ls > limit
    ensures Pass(a, p, q, limit) == [a[p..q]] + Pass(a, q, q + 1, limit)
  {
    OpenTop(a, p, q);
    assert a[q..][1..] == a[q + 1..] && a[q..q + 1] == [a[q]];
  }

  lemma PassJoin(a: seq<Row>, p: nat, q: nat, limit: int)
    requires TimeSorted(a) && p < q < |a| && a[q].ls - a[q - 1].ls <= limit
    ensures Pass(a, p, q, limit) == Pass(a, p, q + 1, limit)
  {
    OpenTop(a, p, q);
    assert a[q..][1..] == a[q + 1..] && a[p..q] + [a[q]] == a[p..q + 1];
  }

  /** With rows `p` to `q` open, both passes close the same buckets from there on. */
  ghost function Agree(a: seq<Row>, b: seq<Row>, limit: int): (f: (nat, nat) -> bool)
  {
    (p: nat, q: nat) => p < q <= |a| == |b| && Bags(Pass(a, p, q, limit)) == Bags(Pass(b, p, q, limit))
  }

  ghost function SamePrefix(a: seq<Row>, b: seq<Row>): (f: nat -> bool)
  {
    (p: nat) => p <= |a| == |b| && multiset(a[..p]) == multiset(b[..p])
  }

  ghost function GapAt(a: seq<Row>, limit: int): (f: nat -> bool)
  {
    (q: nat) => 0 < q < |a| && a[q].ls - a[q - 1].ls > limit
  }

  /** The induction over the next row: it ends, cuts or joins the open bucket. */
  lemma {:induction false} PassInduction(
      agree: (nat, nat) -> bool, same: nat -> bool, gap: nat -> bool, n: nat, p: nat, q: nat)
    requires forall p: nat :: p < n && same(p) ==> agree(p, n)
    requires forall p: nat, q: nat :: p < q < n && gap(q) && same(p) && agree(q, q + 1) ==> agree(p, q)
    requires forall p: nat, q: nat :: p < q < n && !gap(q) && agree(p, q + 1) ==> agree(p, q)
    requires forall q: nat :: 0 < q < n && gap(q) ==> same(q)
    requires p < q <= n && same(p)
    ensures agree(p, q)
    decreases n - q
  {
    if q < n {
      if gap(q) {
        PassInduction(agree, same, gap, n, q, q + 1);
      } else {
        PassInduction(agree, same, gap, n, p, q + 1);
      }
    }
  }

  lemma AgreeAtEnd(a: seq<Row>, b: seq<Row>, limit: int)
    requires SameRows(a, b) && |a| == |b|
    ensures forall p: nat :: p < |a| && SamePrefix(a, b)(p) ==> Agree(a, b, limit)(p, |a|)
  {
    forall p: nat | p < |a| && SamePrefix(a, b)(p) ensures Agree(a, b, limit)(p, |a|) { EndSameBags(a, b, p, limit); }
  }

  lemma AgreeAtGap(a: seq<Row>, b: seq<Row>, limit: int, p: nat, q: nat)
    requires SameRows(a, b) && limit >= 0 && p < q < |a| == |b| && GapAt(a, limit)(q) && SamePrefix(a, b)(p)
    requires Agree(a, b, limit)(q, q + 1)
    ensures Agree(a, b, limit)(p, q)
  {
    SameGap(a, b, q);
    CutSameBags(a, b, p, q, limit);
  }

  lemma AgreeInBucket(a: seq<Row>, b: seq<Row>, limit: int, p: nat, q: nat)
    requires SameRows(a, b) && p < q < |a| == |b| && !GapAt(a, limit)(q) && Agree(a, b, limit)(p, q + 1)
    ensures Agree(a, b, limit)(p, q)
  {
    SameGap(a, b, q);
    JoinSameBags(a, b, p, q, limit);
  }

  lemma GapsSplit(a: seq<Row>, b: seq<Row>, limit: int)
    requires SameRows(a, b) && limit >= 0 && |a| == |b|
    ensures forall q: nat :: 0 < q < |a| && GapAt(a, limit)(q) ==> SamePrefix(a, b)(q)
  {
    forall q: nat | 0 < q < |a| && GapAt(a, limit)(q) ensures SamePrefix(a, b)(q) { PrefixSame(a, b, q); }
  }

  /** Two passes over two arrangements of the same rows close the same buckets. */
  lemma PassSame(a: seq<Row>, b: seq<Row>, p: nat, q: nat, limit: int)
    requires SameRows(a, b) && limit >= 0 && p < q <= |a| == |b|
    requires SamePrefix(a, b)(p)
    ensures Agree(a, b, limit)(p, q)
  {
    var agree, same, gap, n := Agree(a, b, limit), SamePrefix(a, b), GapAt(a, limit), |a|;
    AgreeAtEnd(a, b, limit);
    GapsSplit(a, b, limit);
    forall p: nat, q: nat | p < q < n && gap(q) && same(p) && agree(q, q + 1) ensures agree(p, q) {
      AgreeAtGap(a, b, limit, p, q);
    }
    forall p: nat, q: nat | p < q < n && !gap(q) && agree(p, q + 1) ensures agree(p, q) {
      AgreeInBucket(a, b, limit, p, q);
    }
    PassInduction(agree, same, gap, n, p, q);
  }

  lemma EndSameBags(a: seq<Row>, b: seq<Row>, p: nat, limit: int)
    requires SameRows(a, b) && p < |a| == |b| && multiset(a[..p]) == multiset(b[..p])
    ensures Bags(Pass(a, p, |a|, limit)) == Bags(Pass(b, p, |b|, limit))
  {
    OpenSame(a, b, p, |a|);
    PassEndBags(a, p, limit);
    PassEndBags(b, p, limit);
  }

  lemma JoinSameBags(a: seq<Row>, b: seq<Row>, p: nat, q: nat, limit: int)
    requires TimeSorted(a) && TimeSorted(b) && p < q < |a| == |b|
    requires a[q].ls - a[q - 1].ls <= limit && b[q].ls - b[q - 1].ls <= limit
    requires Bags(Pass(a, p, q + 1, limit)) == Bags(Pass(b, p, q + 1, limit))
    ensures Bags(Pass(a, p, q, limit)) == Bags(Pass(b, p, q, limit))
  {
    PassJoin(a, p, q, limit);
    PassJoin(b, p, q, limit);
  }

  lemma CutSameBags(a: seq<Row>, b: seq<Row>, p: nat, q: nat, limit: int)
    requires SameRows(a, b) && limit >= 0 && p < q < |a| == |b| && multiset(a[..p]) == multiset(b[..p])
    requires a[q].ls - a[q - 1].ls > limit && b[q].ls - b[q - 1].ls > limit
    requires Bags(Pass(a, q, q + 1, limit)) == Bags(Pass(b, q, q + 1, limit))
    ensures Bags(Pass(a, p, q, limit)) == Bags(Pass(b, p, q, limit))
  {
    OpenSame(a, b, p, q);
    PassCutBags(a, p, q, limit);
    PassCutBags(b, p, q, limit);
  }

  lemma OpenSame(a: seq<Row>, b: seq<Row>, p: nat, q: nat)
    requires SameRows(a, b) && p < q <= |a| == |b| && multiset(a[..p]) == multiset(b[..p])
    requires q < |a| ==> a[q - 1].ls < a[q].ls
    ensures Bag(a[p..q]) == Bag(b[p..q])
  {
    PrefixSame(a, b, q);
    SliceSame(a, b, p, q);
  }

  lemma PassCutBags(a: seq<Row>, p: nat, q: nat, limit: int)
    requires TimeSorted(a) && p < q < |a| && a[q].ls - a[q - 1].ls > limit
    ensures Bags(Pass(a, p, q, limit)) == [Bag(a[p..q])] + Bags(Pass(a, q, q + 1, limit))
  {
    PassCut(a, p, q, limit);
    BagsAppend([a[p..q]], Pass(a, q, q + 1, limit));
    BagsOne(a[p..q]);
  }

  lemma SplitSame(a: seq<Row>, b: seq<Row>, limit: int)
    requires SameRows(a, b) && limit >= 0
    ensures Bags(Split(a, limit)) == Bags(Split(b, limit))
  {
    assert |a| == |multiset(a)| == |multiset(b)| == |b|;
    if a != [] {
      assert a[..0] == b[..0] && a[0..1] == [a[0]] && b[0..1] == [b[0]];
      PassSame(a, b, 0, 1, limit);
    }
  }

  // ----- a cluster is a function of the rows in its bucket, not of their order -----

  lemma SameSummaries(a: Bucket, b: Bucket)
    requires multiset(a) == multiset(b)
    ensures MinFirst(a) == MinFirst(b) && MaxLast(a) == MaxLast(b) && |a| == |b|
    ensures EventIds(a) == EventIds(b) && EndpointIds(a) == EndpointIds(b)
  {
    MultisetMembers(a, b);
    assert |a| == |multiset(a)| == |multiset(b)| == |b|;
    var f, g, l, m := MinFirst(a), MinFirst(b), MaxLast(a), MaxLast(b);
  }

  lemma SameRanks(a: Bucket, b: Bucket)
    requires multiset(a) == multiset(b)
    ensures ClusterRank(a) == ClusterRank(b)
  {
    MultisetMembers(a, b);
    RanksMonotone(a, b);
    RanksMonotone(b, a);
  }

  lemma MakeClusterSame(lib: Library, a: Bucket, b: Bucket)
    requires WellFormed(lib) && multiset(a) == multiset(b) && OneGroup(lib, a)
    ensures Maker(lib)(a) == Maker(lib)(b)
  {
    MultisetMembers(a, b);
    SameSummaries(a, b);
    SameRanks(a, b);
    GroupKeyDecodes(lib, a[0].ev, b[0].ev);
  }

  // ----- permuting rows, permuting events -----

  lemma GroupSame(lib: Library, r: seq<Row>, r': seq<Row>, key: string)
    requires multiset(r) == multiset(r')
    ensures multiset(Group(lib, r, key)) == multiset(Group(lib, r', key))
  {
    forall x ensures multiset(Group(lib, r, key))[x] == multiset(Group(lib, r', key))[x] {
      GroupCount(lib, r, key, x);
      GroupCount(lib, r', key, x);
    }
  }

  lemma GroupBucketsSame(lib: Library, r: seq<Row>, r': seq<Row>, key: string, limit: int)
    requires multiset(r) == multiset(r') && limit >= 0
    ensures Bags(GroupBuckets(lib, r, key, limit)) == Bags(GroupBuckets(lib, r', key, limit))
  {
    GroupSame(lib, r, r', key);
    SortTimeSorted(Group(lib, r, key));
    SortTimeSorted(Group(lib, r', key));
    SplitSame(Sort(Group(lib, r, key), RowLe), Sort(Group(lib, r', key), RowLe), limit);
  }

  lemma {:induction false} BucketsOfSame(lib: Library, r: seq<Row>, r': seq<Row>, keys: seq<string>, limit: int)
    requires multiset(r) == multiset(r') && limit >= 0
    ensures Bags(BucketsOf(lib, r, keys, limit)) == Bags(BucketsOf(lib, r', keys, limit))
  {
    if keys != [] {
      GroupBucketsSame(lib, r, r', keys[0], limit);
      BucketsOfSame(lib, r, r', keys[1..], limit);
      BagsAppend(GroupBuckets(lib, r, keys[0], limit), BucketsOf(lib, r, keys[1..], limit));
      BagsAppend(GroupBuckets(lib, r', keys[0], limit), BucketsOf(lib, r', keys[1..], limit));
    }
  }

  lemma RowOrderIrrelevant(lib: Library, r: seq<Row>, r': seq<Row>, window: int)
    requires WellFormed(lib) && multiset(r) == multiset(r') && window >= 0
    ensures ClustersOfRows(lib, r, window) == ClustersOfRows(lib, r', window)
  {
    MultisetMembers(r, r');
    assert KeysOf(lib, r) == KeysOf(lib, r');
    BucketsOfSame(lib, r, r', SortedSet(KeysOf(lib, r)), window * MICROS_PER_SECOND);
    var x, y := Buckets(lib, r, window), Buckets(lib, r', window);
    assert |x| == |Bags(x)| == |Bags(y)| == |y|;
    forall k | 0 <= k < |x| ensures Maker(lib)(x[k]) == Maker(lib)(y[k]) {
      assert Bags(x)[k] == Bags(y)[k];
      BucketsOneGroup(lib, r, window, k);
      MakeClusterSame(lib, x[k], y[k]);
    }
    assert Map(x, Maker(lib)) == Map(y, Maker(lib));
  }

  ghost predicate AllParsable(events: seq<Event>)
  {
    forall e :: e in events ==> Parsable(e)
  }

  /** One more event adds its own row, if it carries an id. */
  lemma RowsCountStep(events: seq<Event>, clock: nat -> int, n: nat, x: Row)
    requires 0 < n <= |events| && Parsable(events[n - 1])
    ensures multiset(RowsUpTo(events, clock, n))[x]
            == multiset(RowsUpTo(events, clock, n - 1))[x]
               + (if events[n - 1] == x.ev && x.ev.id != "" && x == RowOf(x.ev, 0) then 1 else 0)
  {
    var e := events[n - 1];
    assert RowOf(e, clock(n - 1)) == RowOf(e, 0) && RowOf(e, 0).ev == e;
    if e.id != "" {
      SnocCount(RowsUpTo(events, clock, n - 1), RowOf(e, 0), x);
    }
  }

  lemma SnocCount<T>(s: seq<T>, y: T, x: T)
    ensures multiset(s + [y])[x] == multiset(s)[x] + (if y == x then 1 else 0)
  {
  }

  lemma {:induction false} EqualSums(f: nat -> int, g: nat -> int, n: nat)
    requires f(0) == g(0) && forall i :: 0 <= i < n ==> f(i + 1) - f(i) == g(i + 1) - g(i)
    ensures f(n) == g(n)
  {
    if n > 0 { EqualSums(f, g, n - 1); }
  }

  function RowTally(events: seq<Event>, clock: nat -> int, x: Row): (f: nat -> int)
  {
    (n: nat) => if n <= |events| then multiset(RowsUpTo(events, clock, n))[x] else 0
  }

  function EventTally(events: seq<Event>, x: Row): (f: nat -> int)
  {
    (n: nat) => if n <= |events| && x.ev.id != "" && x == RowOf(x.ev, 0) then multiset(events[..n])[x.ev] else 0
  }

  lemma TallyStep(events: seq<Event>, clock: nat -> int, n: nat, x: Row)
    requires AllParsable(events) && n < |events|
    ensures RowTally(events, clock, x)(n + 1) - RowTally(events, clock, x)(n)
            == EventTally(events, x)(n + 1) - EventTally(events, x)(n)
  {
    assert events[n] in events;
    RowsCountStep(events, clock, n + 1, x);
    PrefixSnoc(events, n);
    SnocCount(events[..n], events[n], x.ev);
  }

  /** How often a row occurs depends only on how often its event does. */
  lemma RowsCount(events: seq<Event>, clock: nat -> int, x: Row)
    requires AllParsable(events)
    ensures multiset(Rows(events, clock))[x]
            == if x.ev.id != "" && x == RowOf(x.ev, 0) then multiset(events)[x.ev] else 0
  {
    var f, g := RowTally(events, clock, x), EventTally(events, x);
    forall n | 0 <= n < |events| ensures f(n + 1) - f(n) == g(n + 1) - g(n) {
      TallyStep(events, clock, n, x);
    }
    EqualSums(f, g, |events|);
    assert events[..|events|] == events;
  }

  /** Any two arrangements of the same parsable events give the same list of clusters. */
  lemma EventOrderIrrelevant(
      lib: Library, es: seq<Event>, es': seq<Event>, clock: nat -> int, clock': nat -> int, window: int)
    requires WellFormed(lib) && window >= 0 && multiset(es) == multiset(es') && AllParsable(es)
    ensures Clusters(lib, es, clock, window) == Clusters(lib, es', clock', window)
  {
    MultisetMembers(es, es');
    var r, r' := Rows(es, clock), Rows(es', clock');
    forall x ensures multiset(r)[x] == multiset(r')[x] {
      RowsCount(es, clock, x);
      RowsCount(es', clock', x);
    }
    RowOrderIrrelevant(lib, r, r', window);
  }

  /** The order of the input never matters. */
  ghost predicate OrderIndependent(lib: Library, window: int)
  {
    forall es: seq<Event>, es': seq<Event>, clock: nat -> int, clock': nat -> int ::
      multiset(es) == multiset(es') && AllParsable(es) ==>
      Clusters(lib, es, clock, window) == Clusters(lib, es', clock', window)
  }

  function Twin(endpoint: string): (e: Event)
  {
    Event("e", "dns", "", "", endpoint, "low", Some(0), Some(0))
  }

  lemma OneKeyBuckets(lib: Library, rows: seq<Row>, key: string, window: int)
    requires rows != [] && forall r :: r in rows ==> GroupKey(lib, r.ev) == key
    ensures Buckets(lib, rows, window) == Split(Sort(rows, RowLe), window * MICROS_PER_SECOND)
  {
    var limit := window * MICROS_PER_SECOND;
    assert KeysOf(lib, rows) == {key} by { assert rows[0] in rows; }
    assert SortedSet({key}) == [key];
    FilterAll(rows, (row: Row) => GroupKey(lib, row.ev) == key);
    assert [key][1..] == [];
    assert BucketsOf(lib, rows, [key], limit) == GroupBuckets(lib, rows, key, limit) + [];
  }

  lemma TwinBuckets(lib: Library, a: string, b: string, window: int)
    requires window < 0
    ensures var x, y := Row(Twin(a), 0, 0), Row(Twin(b), 0, 0);
            Buckets(lib, [x, y], window) == [[x], [y]]
  {
    var x, y, limit := Row(Twin(a), 0, 0), Row(Twin(b), 0, 0), window * MICROS_PER_SECOND;
    OneKeyBuckets(lib, [x, y], GroupKey(lib, x.ev), window);
    StrLeTotal("e", "e");
    SortPair(x, y, RowLe);
    TwinSplit(x, y, limit);
  }

  lemma TwinSplit(x: Row, y: Row, limit: int)
    requires x.ls == y.ls && limit < 0
    ensures Split([x, y], limit) == [[x], [y]]
  {
    assert [x, y][1..] == [y] && [y][1..] == [];
    assert SplitFrom([y], [], limit) == [[y]];
    assert SplitFrom([x], [y], limit) == [[x]] + SplitFrom([y], [], limit);
  }

  lemma TwinRows(clock: nat -> int, d: Event, e: Event)
    requires d.id != "" && e.id != "" && Parsable(d) && Parsable(e)
    ensures Rows([d, e], clock) == [RowOf(d, 0), RowOf(e, 0)]
  {
    var es := [d, e];
    assert RowsUpTo(es, clock, 0) == [];
    assert RowsUpTo(es, clock, 1) == [RowOf(d, 0)];
    assert RowsUpTo(es, clock, 2) == [RowOf(d, 0)] + [RowOf(e, 0)];
  }

  lemma TwinSort(lib: Library, x: Row, y: Row)
    requires x.ev.id == "e" && x.ev.endpoint != "" && x.fs == x.ls == 0
    requires y.ev.id == "e" && y.ev.endpoint != "" && y.fs == y.ls == 0
    ensures Sort([Maker(lib)([x]), Maker(lib)([y])], ClusterLe)[0].endpointIds == [x.ev.endpoint]
  {
    TwinCluster(lib, x);
    TwinCluster(lib, y);
    SortTied(Maker(lib)([x]), Maker(lib)([y]));
  }

  lemma SortTied(c: Cluster, d: Cluster)
    requires c.lastSeen == d.lastSeen && c.id == d.id
    ensures Sort([c, d], ClusterLe)[0] == c
  {
    StrLeTotal(c.id, c.id);
    SortPair(c, d, ClusterLe);
  }

  /** Two events that agree on everything but the endpoint keep their input order under a negative window. */
  lemma TwinClusters(lib: Library, clock: nat -> int, a: string, b: string, window: int)
    requires window < 0 && a != "" && b != ""
    ensures var cs := Clusters(lib, [Twin(a), Twin(b)], clock, window);
            |cs| == 2 && cs[0].endpointIds == [a]
  {
    var x, y := Row(Twin(a), 0, 0), Row(Twin(b), 0, 0);
    TwinRows(clock, Twin(a), Twin(b));
    TwinBuckets(lib, a, b, window);
    MapPair<Bucket, Cluster>([x], [y], Maker(lib));
    TwinSort(lib, x, y);
  }

  lemma TwinCluster(lib: Library, x: Row)
    requires x.ev.id == "e" && x.ev.endpoint != "" && x.fs == x.ls == 0
    ensures Maker(lib)([x]).id == lib.uuid5(Join(["e", lib.iso(0), lib.iso(0)]))
    ensures Maker(lib)([x]).lastSeen == lib.iso(0)
    ensures Maker(lib)([x]).endpointIds == [x.ev.endpoint]
  {
    assert EventIds([x]) == {"e"} by { assert x in [x]; }
    assert EndpointIds([x]) == {x.ev.endpoint} by { assert x in [x]; }
    assert SortedSet({"e"}) == ["e"] && SortedSet({x.ev.endpoint}) == [x.ev.endpoint];
    assert ["e"] + [lib.iso(0), lib.iso(0)] == ["e", lib.iso(0), lib.iso(0)];
  }

  /** Input order is irrelevant for every input exactly when the window is not negative. */
  lemma OrderIndependentIff(lib: Library, window: int)
    requires WellFormed(lib)
    ensures OrderIndependent(lib, window) <==> window >= 0
  {
    if window >= 0 {
      forall es: seq<Event>, es': seq<Event>, clock: nat -> int, clock': nat -> int
        | multiset(es) == multiset(es') && AllParsable(es)
        ensures Clusters(lib, es, clock, window) == Clusters(lib, es', clock', window)
      {
        EventOrderIrrelevant(lib, es, es', clock, clock', window);
      }
    } else {
      NegativeWindowDepends(lib, window, "a", "b");
    }
  }

  /** With a negative window two twin events come out in the order they went in. */
  lemma NegativeWindowDepends(lib: Library, window: int, a: string, b: string)
    requires window < 0 && a != "" && b != "" && a != b
    ensures !OrderIndependent(lib, window)
  {
    var clock := (n: nat) => 0;
    TwinClusters(lib, clock, a, b, window);
    TwinClusters(lib, clock, b, a, window);
    var es, es' := [Twin(a), Twin(b)], [Twin(b), Twin(a)];
    TwinsAgree(a, b);
    OrderMatters(lib, es, es', clock, window, a, b);
  }

  lemma TwinsAgree(a: string, b: string)
    ensures multiset([Twin(a), Twin(b)]) == multiset([Twin(b), Twin(a)]) && AllParsable([Twin(a), Twin(b)])
  {
  }

  lemma OrderMatters(
      lib: Library, es: seq<Event>, es': seq<Event>, clock: nat -> int, window: int, a: string, b: string)
    requires multiset(es) == multiset(es') && AllParsable(es) && a != b
    requires var c := Clusters(lib, es, clock, window); c != [] && c[0].endpointIds == [a]
    requires var c := Clusters(lib, es', clock, window); c != [] && c[0].endpointIds == [b]
    ensures !OrderIndependent(lib, window)
  {
    assert [a][0] != [b][0];
    assert Clusters(lib, es, clock, window) != Clusters(lib, es', clock, window);
  }
}
