/**
 Which events a cluster can bring together, said without the digest: the fingerprint is a cut SHA-256,
 so the statements are about what holds for every digest, since a single one may collide.
 */
module ClusteringPatterns {
  import opened Ordering
  import opened Clustering
  import opened ClusteringLaws
  import opened ClusteringWindow

  /** The category a missing one stands for, and what the fingerprint sees of the rest. */
  function CategoryName(e: Event): (c: string)
  {
    if e.category == "" then "unknown" else e.category
  }

  function Hint(e: Event): (h: string)
  {
    e.action + "|" + (if |e.summary| <= 48 then e.summary else e.summary[..48])
  }

  /** Same category, same recommended action and same first 48 characters of the summary, bar-separated. */
  predicate SamePattern(d: Event, e: Event)
  {
    CategoryName(d) == CategoryName(e) && Hint(d) == Hint(e)
  }

  function HashedText(e: Event): (t: string)
  {
    CategoryName(e) + "|" + Hint(e)
  }

  lemma FingerprintText(lib: Library, e: Event)
    ensures Fingerprint(lib, e) == Take(lib.sha256(HashedText(e)), 16)
  {
    assert Category(e) + "|" + e.action + "|" + Take(e.summary, 48) == HashedText(e);
  }

  lemma SamePatternSameKey(lib: Library, d: Event, e: Event)
    requires SamePattern(d, e)
    ensures GroupKey(lib, d) == GroupKey(lib, e)
  {
    FingerprintText(lib, d);
    FingerprintText(lib, e);
  }

  function Repeat(c: char, n: nat): (s: string)
    ensures |s| == n && (n > 0 ==> s[0] == c)
  {
    seq(n, i => c)
  }

  /** A well-formed digest that tells one text from all others. */
  function Singling(text: string): (lib: Library)
  {
    Library((s: string) => Repeat(if s == text then 'a' else 'b', 64), (s: string) => s, (t: int) => "")
  }

  lemma SinglingSeparates(d: Event, e: Event)
    ensures WellFormed(Singling(HashedText(d)))
    ensures GroupKey(Singling(HashedText(d)), d) == GroupKey(Singling(HashedText(d)), e) <==> SamePattern(d, e)
  {
    var lib := Singling(HashedText(d));
    FingerprintText(lib, d);
    FingerprintText(lib, e);
    if GroupKey(lib, d) == GroupKey(lib, e) {
      GroupKeyDecodes(lib, d, e);
      assert Fingerprint(lib, d)[0] == 'a';
      assert HashedText(d) == HashedText(e);
      var n := |CategoryName(d)| + 1;
      assert HashedText(d)[n..] == Hint(d) && HashedText(e)[n..] == Hint(e);
    }
    if SamePattern(d, e) { SamePatternSameKey(lib, d, e); }
  }

  /** Two events share a key under every digest exactly when their patterns agree. */
  lemma SharedKeyIff(d: Event, e: Event)
    ensures (forall lib :: WellFormed(lib) ==> GroupKey(lib, d) == GroupKey(lib, e)) <==> SamePattern(d, e)
  {
    SinglingSeparates(d, e);
    if SamePattern(d, e) {
      forall lib | WellFormed(lib) ensures GroupKey(lib, d) == GroupKey(lib, e) { SamePatternSameKey(lib, d, e); }
    }
  }

  /** The rows with the pattern of an event. */
  function PatternRows(rows: seq<Row>, e: Event): (r: seq<Row>)
  {
    Filter(rows, (row: Row) => SamePattern(e, row.ev))
  }

  lemma ConnectedGrows(a: seq<Row>, b: seq<Row>, x: Row, y: Row, limit: int)
    requires Connected(a, x, y, limit) && forall r :: r in a ==> r in b
    ensures Connected(b, x, y, limit)
  {
    var chain :| Chain(a, chain, limit) && chain[0] == x && chain[|chain| - 1] == y;
    assert Chain(b, chain, limit);
  }

  /**
   Two rows share a cluster under every digest exactly when their patterns agree and a chain of rows with
   that pattern joins them by gaps no larger than the window.
   */
  lemma SharedClusterIff(rows: seq<Row>, window: int, x: Row, y: Row)
    requires x in rows && y in rows
    ensures (forall lib :: WellFormed(lib) ==> Together(Buckets(lib, rows, window), x, y))
            <==> SamePattern(x.ev, y.ev) && Connected(PatternRows(rows, x.ev), x, y, window * 1_000_000)
  {
    if forall lib :: WellFormed(lib) ==> Together(Buckets(lib, rows, window), x, y) {
      SeparatedByPattern(rows, window, x, y);
    }
    if SamePattern(x.ev, y.ev) && Connected(PatternRows(rows, x.ev), x, y, window * 1_000_000) {
      forall lib | WellFormed(lib) ensures Together(Buckets(lib, rows, window), x, y) {
        JoinedByPattern(lib, rows, window, x, y);
      }
    }
  }

  lemma SeparatedByPattern(rows: seq<Row>, window: int, x: Row, y: Row)
    requires x in rows && y in rows
    requires Together(Buckets(Singling(HashedText(x.ev)), rows, window), x, y)
    ensures SamePattern(x.ev, y.ev) && Connected(PatternRows(rows, x.ev), x, y, window * 1_000_000)
  {
    var lib := Singling(HashedText(x.ev));
    ClustersAreComponents(lib, rows, window, x, y);
    SinglingSeparates(x.ev, y.ev);
    var group := Group(lib, rows, GroupKey(lib, x.ev));
    forall r | r in group ensures r in PatternRows(rows, x.ev) { SinglingSeparates(x.ev, r.ev); }
    ConnectedGrows(group, PatternRows(rows, x.ev), x, y, window * 1_000_000);
  }

  lemma JoinedByPattern(lib: Library, rows: seq<Row>, window: int, x: Row, y: Row)
    requires x in rows && y in rows && SamePattern(x.ev, y.ev)
    requires Connected(PatternRows(rows, x.ev), x, y, window * 1_000_000)
    ensures Together(Buckets(lib, rows, window), x, y)
  {
    var group := Group(lib, rows, GroupKey(lib, x.ev));
    SamePatternSameKey(lib, x.ev, y.ev);
    forall r | r in PatternRows(rows, x.ev) ensures r in group { SamePatternSameKey(lib, x.ev, r.ev); }
    ConnectedGrows(PatternRows(rows, x.ev), group, x, y, window * 1_000_000);
    ClustersAreComponents(lib, rows, window, x, y);
  }

  /** A cluster names its category, and its pattern key tells patterns apart as far as the digest does. */
  lemma ClusterPattern(lib: Library, bucket: Bucket, other: Bucket)
    requires WellFormed(lib)
    ensures MakeCluster(lib, bucket).category == CategoryName(bucket[0].ev)
    ensures MakeCluster(lib, bucket).patternKey == MakeCluster(lib, other).patternKey
            <==> GroupKey(lib, bucket[0].ev) == GroupKey(lib, other[0].ev)
  {
    KeyEqualsIff(lib, bucket[0].ev, other[0].ev);
  }

  lemma KeyEqualsIff(lib: Library, d: Event, e: Event)
    requires WellFormed(lib)
    ensures GroupKey(lib, d) == GroupKey(lib, e)
            <==> Category(d) + ":" + Fingerprint(lib, d) == Category(e) + ":" + Fingerprint(lib, e)
  {
    if GroupKey(lib, d) == GroupKey(lib, e) { GroupKeyDecodes(lib, d, e); }
    var a, b := Category(d) + ":" + Fingerprint(lib, d), Category(e) + ":" + Fingerprint(lib, e);
    assert |Fingerprint(lib, d)| == |Fingerprint(lib, e)| == 16;
    if a == b {
      assert a[|a| - 16..] == Fingerprint(lib, d) && b[|b| - 16..] == Fingerprint(lib, e);
      assert a[..|a| - 17] == Category(d) && b[..|b| - 17] == Category(e);
    }
  }
}
