/**
 The labelled counters and the part of the metrics page they fill (backend/prometheus_exporter.py):
 `inc_labeled`, and the loops of `render_prometheus_text` over labelled and silent pipeline metrics.
 */
module PrometheusRegistry {
  import opened Ordering
  import opened PrometheusExporter

  // ----- the counters -----

  /** The key `inc_labeled` stores under: the labels sorted by name. */
  function OrderedLabels(labels: map<string, string>): (r: Labels)
  {
    var keys := SortedSet(labels.Keys);
    seq(|keys|, i requires 0 <= i < |keys| => (keys[i], labels[keys[i]]))
  }

  lemma OrderedEntry(labels: map<string, string>, k: string, v: string)
    ensures (k, v) in OrderedLabels(labels) <==> k in labels && labels[k] == v
  {
    var keys := SortedSet(labels.Keys);
    if k in labels && labels[k] == v {
      var i :| 0 <= i < |keys| && keys[i] == k;
      assert OrderedLabels(labels)[i] == (k, v);
    }
  }

  /** The labels of a key stand in ascending order of their names. */
  lemma OrderedLabelsAscend(labels: map<string, string>, i: nat, j: nat)
    requires i < j < |OrderedLabels(labels)|
    ensures OrderedLabels(labels)[i].0 != OrderedLabels(labels)[j].0
    ensures StrLe(OrderedLabels(labels)[i].0, OrderedLabels(labels)[j].0)
  {
  }

  /** The key determines the label set, however it was written down. */
  lemma OrderedLabelsInjective(a: map<string, string>, b: map<string, string>)
    requires OrderedLabels(a) == OrderedLabels(b)
    ensures a == b
  {
    forall k | k in a ensures k in b && b[k] == a[k] {
      OrderedEntry(a, k, a[k]);
      OrderedEntry(b, k, a[k]);
    }
    forall k | k in b ensures k in a {
      OrderedEntry(a, k, b[k]);
      OrderedEntry(b, k, b[k]);
    }
  }

  datatype Increment = Increment(metric: string, labels: map<string, string>, amount: real)

  function Total(incs: seq<Increment>, metric: string, labels: map<string, string>): (x: real)
  {
    if incs == [] then 0.0
    else
      var last := incs[|incs| - 1];
      Total(incs[..|incs| - 1], metric, labels)
      + (if last.metric == metric && last.labels == labels then last.amount else 0.0)
  }

  type Counters = map<(string, Labels), real>

  function Value(counters: Counters, metric: string, labels: map<string, string>): (x: real)
  {
    var key := (metric, OrderedLabels(labels));
    if key in counters then counters[key] else 0.0
  }

  /** Every counter is the sum of the amounts added under its own label set. */
  ghost predicate Tallies(counters: Counters, incs: seq<Increment>)
  {
    forall metric, labels :: Value(counters, metric, labels) == Total(incs, metric, labels)
  }

  /** `_labeled_counters` after one more increment. */
  function Added(counters: Counters, inc: Increment): (c: Counters)
  {
    counters[(inc.metric, OrderedLabels(inc.labels)) := Value(counters, inc.metric, inc.labels) + inc.amount]
  }

  lemma TalliesSnoc(counters: Counters, incs: seq<Increment>, inc: Increment)
    requires Tallies(counters, incs)
    ensures Tallies(Added(counters, inc), incs + [inc])
  {
    forall metric, labels ensures Value(Added(counters, inc), metric, labels) == Total(incs + [inc], metric, labels) {
      assert Value(counters, metric, labels) == Total(incs, metric, labels);
      TotalSnoc(incs, inc, metric, labels);
      if OrderedLabels(labels) == OrderedLabels(inc.labels) { OrderedLabelsInjective(labels, inc.labels); }
    }
  }

  lemma TotalSnoc(incs: seq<Increment>, inc: Increment, metric: string, labels: map<string, string>)
    ensures Total(incs + [inc], metric, labels)
            == Total(incs, metric, labels) + (if inc.metric == metric && inc.labels == labels then inc.amount else 0.0)
  {
    assert (incs + [inc])[..|incs|] == incs;
  }

  // ----- the order of the page -----

  /** A counter is stored under its metric and its sorted labels. */
  type Key = (string, Labels)

  predicate PairLe(a: (string, string), b: (string, string))
  {
    if a.0 != b.0 then StrLe(a.0, b.0) else StrLe(a.1, b.1)
  }

  /** Python's order on tuples. */
  predicate LabelsLe(a: Labels, b: Labels)
  {
    if a == [] then true
    else if b == [] then false
    else if a[0] != b[0] then PairLe(a[0], b[0])
    else LabelsLe(a[1..], b[1..])
  }

  predicate KeyLe(a: Key, b: Key)
  {
    if a.0 != b.0 then StrLe(a.0, b.0) else LabelsLe(a.1, b.1)
  }

  lemma PairLeOrder(a: (string, string), b: (string, string), c: (string, string))
    ensures PairLe(a, b) || PairLe(b, a)
    ensures PairLe(a, b) && PairLe(b, a) ==> a == b
    ensures PairLe(a, b) && PairLe(b, c) ==> PairLe(a, c)
  {
    StrLeOrder(a.0, b.0, c.0);
    StrLeOrder(a.1, b.1, c.1);
  }

  lemma StrLeOrder(a: string, b: string, c: string)
    ensures StrLe(a, b) || StrLe(b, a)
    ensures StrLe(a, b) && StrLe(b, a) ==> a == b
    ensures StrLe(a, b) && StrLe(b, c) ==> StrLe(a, c)
  {
    StrLeTotal(a, b);
    if StrLe(a, b) && StrLe(b, a) { StrLeAntisymmetric(a, b); }
    if StrLe(a, b) && StrLe(b, c) { StrLeTransitive(a, b, c); }
  }

  lemma {:induction false} LabelsLeTotal(a: Labels, b: Labels)
    ensures LabelsLe(a, b) || LabelsLe(b, a)
  {
    if a != [] && b != [] {
      PairLeOrder(a[0], b[0], b[0]);
      if a[0] == b[0] { LabelsLeTotal(a[1..], b[1..]); }
    }
  }

  lemma {:induction false} LabelsLeTransitive(a: Labels, b: Labels, c: Labels)
    requires LabelsLe(a, b) && LabelsLe(b, c)
    ensures LabelsLe(a, c)
  {
    if a != [] && b != [] && c != [] {
      PairLeOrder(a[0], b[0], c[0]);
      if a[0] == b[0] == c[0] { LabelsLeTransitive(a[1..], b[1..], c[1..]); }
    }
  }

  /** Keys go by metric; labels by their first difference, name before value, and a prefix comes first. */
  lemma KeyOrder(m: string, n: string, p: Labels, a: (string, string), b: (string, string), x: Labels, y: Labels)
    requires a != b
    ensures m != n ==> (KeyLe((m, x), (n, y)) <==> StrLe(m, n))
    ensures KeyLe((m, p + ([a] + x)), (m, p + ([b] + y))) <==> if a.0 != b.0 then StrLe(a.0, b.0) else StrLe(a.1, b.1)
    ensures KeyLe((m, p), (m, p + x))
  {
    LabelsFirstDifference(p, a, b, x, y);
    LabelsPrefix(p, x);
  }

  lemma {:induction false} LabelsFirstDifference(
      p: Labels, a: (string, string), b: (string, string), x: Labels, y: Labels)
    requires a != b
    ensures LabelsLe(p + ([a] + x), p + ([b] + y)) <==> PairLe(a, b)
  {
    if p == [] {
      assert p + ([a] + x) == [a] + x && p + ([b] + y) == [b] + y;
    } else {
      LabelsFirstDifference(p[1..], a, b, x, y);
      assert (p + ([a] + x))[1..] == p[1..] + ([a] + x) && (p + ([b] + y))[1..] == p[1..] + ([b] + y);
    }
  }

  lemma {:induction false} LabelsPrefix(p: Labels, x: Labels)
    ensures LabelsLe(p, p + x)
  {
    if p != [] {
      LabelsPrefix(p[1..], x);
      assert (p + x)[1..] == p[1..] + x;
    }
  }

  lemma KeyLePreorder()
    ensures TotalPreorder(KeyLe)
  {
    forall a: Key, b: Key ensures KeyLe(a, b) || KeyLe(b, a) {
      StrLeOrder(a.0, b.0, b.0);
      LabelsLeTotal(a.1, b.1);
    }
    forall a: Key, b: Key, c: Key | KeyLe(a, b) && KeyLe(b, c) ensures KeyLe(a, c) {
      StrLeOrder(a.0, b.0, c.0);
      if a.0 == b.0 == c.0 { LabelsLeTransitive(a.1, b.1, c.1); }
    }
  }

  // ----- the page -----

  const PIPELINE_METRICS: seq<string> :=
    ["proxy_change_total", "hypothesis_generated_total", "hypothesis_confirmed_total", "policy_allow_total",
     "policy_preview_total", "policy_block_total", "proof_success_total", "proof_failure_total"]

  datatype Sample = Sample(name: string, value: real)

  ghost predicate Distinct<T>(s: seq<T>)
  {
    forall i, j :: 0 <= i < j < |s| ==> s[i] != s[j]
  }

  predicate Piped(metrics: seq<string>, k: Key)
  {
    k.0 in metrics
  }

  predicate Silent(counters: Counters, m: string)
  {
    forall k :: k in counters ==> k.0 != m
  }

  function Line(counters: Counters, k: Key): (s: Sample)
  {
    Sample(SampleName(k.0, k.1), if k in counters then counters[k] else 0.0)
  }

  function ZeroLine(m: string): (s: Sample)
  {
    Sample(m, 0.0)
  }

  /** What the two loops emit: a line per stored pipeline counter by key, then a zero per silent metric. */
  ghost predicate Page(
      counters: Counters, metrics: seq<string>, keys: seq<Key>, silent: seq<string>, lines: seq<Sample>)
  {
    && Sorted(keys, KeyLe) && Distinct(keys)
    && (forall k :: k in keys <==> k in counters && Piped(metrics, k))
    && silent == Filter(metrics, (m: string) => Silent(counters, m))
    && |lines| == |keys| + |silent|
    && (forall i :: 0 <= i < |keys| ==> lines[i] == Line(counters, keys[i]))
    && (forall i :: 0 <= i < |silent| ==> lines[|keys| + i] == ZeroLine(silent[i]))
  }

  method Collect(counters: Counters) returns (keys: seq<Key>)
    ensures Distinct(keys) && forall k :: k in keys <==> k in counters
  {
    keys := [];
    var rest := counters.Keys;
    while rest != {}
      invariant Distinct(keys) && forall k :: k in counters <==> k in keys || k in rest
      invariant forall k :: k in keys ==> k !in rest
      decreases |rest|
    {
      var k :| k in rest;
      keys, rest := keys + [k], rest - {k};
    }
  }

  lemma {:induction false} DistinctOnce<T>(s: seq<T>, x: T)
    requires Distinct(s)
    ensures multiset(s)[x] <= 1
  {
    if s != [] {
      DistinctOnce(s[1..], x);
      assert s == [s[0]] + s[1..];
      if s[0] == x { assert x !in s[1..]; }
    }
  }

  lemma TwiceCounted<T>(s: seq<T>, i: nat, j: nat)
    requires i < j < |s| && multiset(s)[s[j]] <= 1
    ensures s[i] != s[j]
  {
    assert s == s[..j] + [s[j]] + s[j + 1..];
    assert multiset(s)[s[j]] == multiset(s[..j])[s[j]] + 1 + multiset(s[j + 1..])[s[j]];
    assert s[..j][i] == s[i] && s[j] !in s[..j];
  }

  lemma PermutedDistinct<T>(a: seq<T>, b: seq<T>)
    requires Distinct(a) && multiset(a) == multiset(b)
    ensures Distinct(b)
  {
    forall i, j | 0 <= i < j < |b| ensures b[i] != b[j] {
      DistinctOnce(a, b[j]);
      TwiceCounted(b, i, j);
    }
  }

  lemma {:induction false} FilterKeeps<T(!new)>(s: seq<T>, p: T -> bool, le: (T, T) -> bool)
    requires Distinct(s) && Sorted(s, le)
    ensures Distinct(Filter(s, p)) && Sorted(Filter(s, p), le)
  {
    if s != [] {
      FilterKeeps(s[1..], p, le);
      assert forall x :: x in s[1..] ==> x != s[0] && le(s[0], x);
    }
  }

  /** The loop over the sorted counters. */
  method LabelledLines(counters: Counters, metrics: seq<string>) returns (keys: seq<Key>, lines: seq<Sample>)
    ensures Sorted(keys, KeyLe) && Distinct(keys) && forall k :: k in keys <==> k in counters && Piped(metrics, k)
    ensures |lines| == |keys| && forall i :: 0 <= i < |keys| ==> lines[i] == Line(counters, keys[i])
  {
    var stored := Collect(counters);
    var all := Sort(stored, KeyLe);
    var piped := (k: Key) => Piped(metrics, k);
    keys, lines := [], [];
    for i := 0 to |all|
      invariant keys == Filter(all[..i], piped)
      invariant |lines| == |keys| && forall j :: 0 <= j < |keys| ==> lines[j] == Line(counters, keys[j])
    {
      PrefixSnoc(all, i);
      FilterSnoc(all[..i], all[i], piped);
      if !piped(all[i]) { continue; }
      keys := keys + [all[i]];
      lines := lines + [Line(counters, all[i])];
    }
    assert all[..|all|] == all;
    KeyLePreorder();
    SortedKeys(stored, KeyLe, piped);
  }

  lemma SortedKeys<T(!new)>(stored: seq<T>, le: (T, T) -> bool, p: T -> bool)
    requires Distinct(stored) && TotalPreorder(le)
    ensures var keys := Filter(Sort(stored, le), p);
            Sorted(keys, le) && Distinct(keys) && forall k :: k in keys <==> k in stored && p(k)
  {
    var all := Sort(stored, le);
    SortSorted(stored, le);
    PermutedDistinct(stored, all);
    FilterKeeps(all, p, le);
    MultisetMembers(stored, all);
  }

  /** The loop over the metrics without a labelled counter. */
  method ZeroLines(counters: Counters, metrics: seq<string>) returns (silent: seq<string>, lines: seq<Sample>)
    ensures silent == Filter(metrics, (m: string) => Silent(counters, m))
    ensures |lines| == |silent| && forall i :: 0 <= i < |silent| ==> lines[i] == ZeroLine(silent[i])
  {
    silent, lines := [], [];
    var quiet := (m: string) => Silent(counters, m);
    for i := 0 to |metrics|
      invariant silent == Filter(metrics[..i], quiet)
      invariant |lines| == |silent| && forall j :: 0 <= j < |silent| ==> lines[j] == ZeroLine(silent[j])
    {
      PrefixSnoc(metrics, i);
      FilterSnoc(metrics[..i], metrics[i], quiet);
      if quiet(metrics[i]) {
        silent := silent + [metrics[i]];
        lines := lines + [ZeroLine(metrics[i])];
      }
    }
    assert metrics[..|metrics|] == metrics;
  }

  // ----- no two lines share a name -----

  ghost predicate GoodMetrics(metrics: seq<string>)
  {
    Distinct(metrics) && forall i :: 0 <= i < |metrics| ==> ValidMetricName(metrics[i])
  }

  lemma ValidHasNoBrace(m: string)
    requires ValidMetricName(m)
    ensures '{' !in m
  {
  }

  lemma LinesDiffer(counters: Counters, a: Key, b: Key)
    requires a != b && PlainNames(a.1) && PlainNames(b.1)
    requires ValidMetricName(a.0) && ValidMetricName(b.0)
    ensures Line(counters, a).name != Line(counters, b).name
  {
    ValidHasNoBrace(a.0);
    ValidHasNoBrace(b.0);
    if Line(counters, a).name == Line(counters, b).name { SampleNamesDistinct(a.0, a.1, b.0, b.1); }
  }

  lemma LineIsNoZero(counters: Counters, a: Key, m: string)
    requires ValidMetricName(m)
    ensures Line(counters, a).name != ZeroLine(m).name
  {
    ValidHasNoBrace(m);
    assert Line(counters, a).name[|a.0|] == '{';
  }

  /** The sample names of the page are pairwise different when no label name contains `="`. */
  lemma PageNamesDistinct(
      counters: Counters, metrics: seq<string>, keys: seq<Key>, silent: seq<string>, lines: seq<Sample>)
    requires Page(counters, metrics, keys, silent, lines) && GoodMetrics(metrics)
    requires forall k :: k in counters ==> PlainNames(k.1)
    ensures forall i, j :: 0 <= i < j < |lines| ==> lines[i].name != lines[j].name
  {
    var n := |keys|;
    FilterKeeps(metrics, (m: string) => Silent(counters, m), (x: string, y: string) => true);
    forall i | 0 <= i < n ensures keys[i] in counters && ValidMetricName(keys[i].0) { assert keys[i] in keys; }
    forall i | 0 <= i < |silent| ensures ValidMetricName(silent[i]) { assert silent[i] in silent; }
    forall i, j | 0 <= i < j < |lines| ensures lines[i].name != lines[j].name {
      if j < n {
        LinesDiffer(counters, keys[i], keys[j]);
      } else {
        assert lines[j] == ZeroLine(silent[j - n]);
        if i < n {
          LineIsNoZero(counters, keys[i], silent[j - n]);
        } else {
          assert lines[i] == ZeroLine(silent[i - n]);
        }
      }
    }
  }

  /** With valid label names every line reads back as the counter it was written for. */
  lemma PageReadsBack(
      counters: Counters, metrics: seq<string>, keys: seq<Key>, silent: seq<string>, lines: seq<Sample>, i: nat)
    requires Page(counters, metrics, keys, silent, lines) && GoodMetrics(metrics) && i < |lines|
    requires forall k :: k in counters ==> ValidNames(k.1)
    ensures ReadSample(lines[i].name) == Good(if i < |keys| then keys[i] else (silent[i - |keys|], []), "")
  {
    if i < |keys| {
      assert keys[i] in keys;
      ReadsSample(keys[i].0, keys[i].1, "");
      assert SampleName(keys[i].0, keys[i].1) + "" == lines[i].name;
    } else {
      var m := silent[i - |keys|];
      assert m in silent && lines[|keys| + (i - |keys|)] == ZeroLine(m);
      ReadsBare(m);
    }
  }

  lemma ReadsBare(m: string)
    requires ValidMetricName(m)
    ensures ReadSample(m) == Good((m, []), "")
  {
    TakesAll(m, "", InMetricName);
    assert m + "" == m;
  }

  /** The metrics of the page, name by name. */
  lemma PipelineNames(m: string)
    ensures m in PIPELINE_METRICS
            <==> || m == "proxy_change_total" || m == "hypothesis_generated_total"
                 || m == "hypothesis_confirmed_total" || m == "policy_allow_total" || m == "policy_preview_total"
                 || m == "policy_block_total" || m == "proof_success_total" || m == "proof_failure_total"
  {
    assert PIPELINE_METRICS[0] == "proxy_change_total" && PIPELINE_METRICS[1] == "hypothesis_generated_total";
    assert PIPELINE_METRICS[2] == "hypothesis_confirmed_total" && PIPELINE_METRICS[3] == "policy_allow_total";
    assert PIPELINE_METRICS[4] == "policy_preview_total" && PIPELINE_METRICS[5] == "policy_block_total";
    assert PIPELINE_METRICS[6] == "proof_success_total" && PIPELINE_METRICS[7] == "proof_failure_total";
  }

  lemma FirstPipelineValid(i: nat)
    requires i < 4
    ensures ValidMetricName(PIPELINE_METRICS[i])
  {
  }

  lemma LastPipelineValid(i: nat)
    requires 4 <= i < |PIPELINE_METRICS|
    ensures ValidMetricName(PIPELINE_METRICS[i])
  {
  }

  lemma PipelineDistinct()
    ensures Distinct(PIPELINE_METRICS)
  {
    var m := PIPELINE_METRICS;
    assert m[0][1] == 'r' && m[1][1] == 'y' && m[2][1] == 'y' && m[3][1] == 'o' && m[4][1] == 'o' && m[5][1] == 'o';
    assert m[6][1] == 'r' && m[7][1] == 'r';
    assert m[1][11] == 'g' && m[2][11] == 'c';
    assert m[3][7] == 'a' && m[4][7] == 'p' && m[5][7] == 'b';
    assert m[0][6] == 'c' && m[6][6] == 's' && m[7][6] == 'f';
  }

  lemma PipelineIsGood()
    ensures GoodMetrics(PIPELINE_METRICS)
  {
    PipelineDistinct();
    forall i | 0 <= i < |PIPELINE_METRICS| ensures ValidMetricName(PIPELINE_METRICS[i]) {
      if i < 4 { FirstPipelineValid(i); } else { LastPipelineValid(i); }
    }
  }

  /** Both loops, one after the other. */
  method RenderPage(counters: Counters, metrics: seq<string>)
    returns (keys: seq<Key>, silent: seq<string>, lines: seq<Sample>)
    ensures Page(counters, metrics, keys, silent, lines)
  {
    var labelled, zeros;
    keys, labelled := LabelledLines(counters, metrics);
    silent, zeros := ZeroLines(counters, metrics);
    lines := labelled + zeros;
  }

  // ----- the registry -----

  function KeyOf(inc: Increment): (k: Key)
  {
    (inc.metric, OrderedLabels(inc.labels))
  }

  function KeysOf(history: seq<Increment>): (keys: set<Key>)
  {
    set inc | inc in history :: KeyOf(inc)
  }

  lemma KeysSnoc(history: seq<Increment>, inc: Increment)
    ensures KeysOf(history + [inc]) == KeysOf(history) + {KeyOf(inc)}
  {
    forall k ensures k in KeysOf(history + [inc]) <==> k in KeysOf(history) || k == KeyOf(inc) {
      if k in KeysOf(history) {
        var x :| x in history && KeyOf(x) == k;
        assert x in history + [inc];
      }
      if k == KeyOf(inc) { assert (history + [inc])[|history|] == inc; }
    }
  }

  /** The counters are what the increments amount to. */
  ghost predicate Counts(counters: Counters, history: seq<Increment>)
  {
    Tallies(counters, history) && counters.Keys == KeysOf(history)
  }

  lemma CountsSnoc(counters: Counters, history: seq<Increment>, inc: Increment)
    requires Counts(counters, history)
    ensures Counts(Added(counters, inc), history + [inc])
  {
    TalliesSnoc(counters, history, inc);
    KeysSnoc(history, inc);
  }

  /** No label name was ever used with `="` in it. */
  ghost predicate PlainHistory(history: seq<Increment>)
  {
    forall inc :: inc in history ==> PlainNames(OrderedLabels(inc.labels))
  }

  lemma PlainKeys(counters: Counters, history: seq<Increment>)
    requires counters.Keys == KeysOf(history) && PlainHistory(history)
    ensures forall k :: k in counters ==> PlainNames(k.1)
  {
    forall k | k in counters ensures PlainNames(k.1) {
      var inc :| inc in history && KeyOf(inc) == k;
    }
  }

  lemma PageShowsTotals(
      counters: Counters, history: seq<Increment>, metrics: seq<string>, keys: seq<Key>, silent: seq<string>,
      lines: seq<Sample>)
    requires Page(counters, metrics, keys, silent, lines)
    requires Counts(counters, history)
    ensures forall inc :: inc in history && inc.metric in metrics ==> TotalLine(history, inc) in lines
  {
    forall inc | inc in history && inc.metric in metrics ensures TotalLine(history, inc) in lines {
      assert KeyOf(inc) in counters && Piped(metrics, KeyOf(inc));
      CountedLine(counters, history, inc, keys, lines);
    }
  }

  /** A metric that was never incremented shows a zero without labels. */
  lemma PageShowsZeros(
      counters: Counters, history: seq<Increment>, metrics: seq<string>, keys: seq<Key>, silent: seq<string>,
      lines: seq<Sample>)
    requires Page(counters, metrics, keys, silent, lines) && Counts(counters, history)
    ensures forall m :: m in metrics && (forall inc :: inc in history ==> inc.metric != m) ==> Sample(m, 0.0) in lines
  {
    forall m | m in metrics && (forall inc :: inc in history ==> inc.metric != m) ensures Sample(m, 0.0) in lines {
      forall k | k in counters ensures k.0 != m {
        var inc :| inc in history && KeyOf(inc) == k;
      }
      assert Silent(counters, m) && m in silent;
      var i :| 0 <= i < |silent| && silent[i] == m;
      assert lines[|keys| + i] == ZeroLine(m);
    }
  }

  /** The line that an increment's counter should show. */
  function TotalLine(history: seq<Increment>, inc: Increment): (s: Sample)
  {
    Sample(SampleName(inc.metric, OrderedLabels(inc.labels)), Total(history, inc.metric, inc.labels))
  }

  class Registry {
    var counters: Counters
    ghost var history: seq<Increment>

    ghost predicate Valid()
      reads this
    {
      Counts(counters, history)
    }

    constructor ()
      ensures Valid() && history == []
    {
      counters, history := map[], [];
    }

    /** `inc_labeled`. */
    method IncLabeled(metric: string, labels: map<string, string>, amount: real)
      requires Valid()
      modifies this
      ensures Valid() && history == old(history) + [Increment(metric, labels, amount)]
    {
      var inc := Increment(metric, labels, amount);
      CountsSnoc(counters, history, inc);
      counters, history := Added(counters, inc), history + [inc];
    }

    /** The labelled part of `render_prometheus_text`. */
    method RenderLabelled() returns (keys: seq<Key>, silent: seq<string>, lines: seq<Sample>)
      requires Valid()
      ensures Page(counters, PIPELINE_METRICS, keys, silent, lines)
      ensures forall inc :: inc in history && inc.metric in PIPELINE_METRICS ==> TotalLine(history, inc) in lines
      ensures forall m :: m in PIPELINE_METRICS && (forall inc :: inc in history ==> inc.metric != m) ==>
                Sample(m, 0.0) in lines
      ensures PlainHistory(history) ==>
                forall i, j :: 0 <= i < j < |lines| ==> lines[i].name != lines[j].name
    {
      keys, silent, lines := RenderPage(counters, PIPELINE_METRICS);
      PipelineIsGood();
      PageShowsTotals(counters, history, PIPELINE_METRICS, keys, silent, lines);
      PageShowsZeros(counters, history, PIPELINE_METRICS, keys, silent, lines);
      if PlainHistory(history) {
        PlainKeys(counters, history);
        PageNamesDistinct(counters, PIPELINE_METRICS, keys, silent, lines);
      }
    }
  }

  /** The line of a counter shows the sum of everything added to it. */
  lemma CountedLine(counters: Counters, history: seq<Increment>, inc: Increment, keys: seq<Key>, lines: seq<Sample>)
    requires Tallies(counters, history) && KeyOf(inc) in counters && KeyOf(inc) in keys && |keys| <= |lines|
    requires forall i :: 0 <= i < |keys| ==> lines[i] == Line(counters, keys[i])
    ensures TotalLine(history, inc) in lines
  {
    var i :| 0 <= i < |keys| && keys[i] == KeyOf(inc);
    assert Value(counters, inc.metric, inc.labels) == Total(history, inc.metric, inc.labels);
    assert lines[i] in lines;
  }
}
