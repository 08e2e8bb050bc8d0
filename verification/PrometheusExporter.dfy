/**
 Sample names of labelled counters (backend/prometheus_exporter.py) and their reader.  The reader
 follows the Prometheus text exposition format 0.0.4, section "Comments, help text, and type
 information": metric and label names obey the data model's grammar, tokens may be separated by blanks
 and tabs, a label list may end with a comma, and in a label value backslash, line feed and double
 quote are escaped.
 */
module PrometheusExporter {
  import opened Ordering

  type Labels = seq<(string, string)>

  // ----- escaping -----

  /** `s.replace(c, r)` for a one-character `c`. */
  function Replace(s: string, c: char, r: string): (t: string)
  {
    if s == "" then "" else (if s[0] == c then r else [s[0]]) + Replace(s[1..], c, r)
  }

  /** `_escape_label`: three replacements, one after the other. */
  function EscapeLabel(v: string): (t: string)
  {
    Replace(Replace(Replace(v, '\\', "\\\\"), '\n', "\\n"), '"', "\\\"")
  }

  function EscapeChar(c: char): (t: string)
  {
    if c == '\\' then "\\\\" else if c == '\n' then "\\n" else if c == '"' then "\\\"" else [c]
  }

  /** The same in one pass. */
  function Escaped(v: string): (t: string)
  {
    if v == "" then "" else EscapeChar(v[0]) + Escaped(v[1..])
  }

  lemma {:induction false} ReplaceAppend(a: string, b: string, c: char, r: string)
    ensures Replace(a + b, c, r) == Replace(a, c, r) + Replace(b, c, r)
  {
    if a == "" {
      assert a + b == b;
    } else {
      assert (a + b)[1..] == a[1..] + b;
      ReplaceAppend(a[1..], b, c, r);
    }
  }

  lemma ReplaceOne(x: char, c: char, r: string)
    ensures Replace([x], c, r) == if x == c then r else [x]
  {
    assert [x][1..] == "";
  }

  lemma EscapeOne(c: char)
    ensures EscapeLabel([c]) == EscapeChar(c)
  {
    ReplaceOne(c, '\\', "\\\\");
    if c == '\\' {
      ReplaceAppend("\\", "\\", '\n', "\\n");
      ReplaceOne('\\', '\n', "\\n");
      ReplaceAppend("\\", "\\", '"', "\\\"");
      ReplaceOne('\\', '"', "\\\"");
    } else {
      ReplaceOne(c, '\n', "\\n");
      if c == '\n' {
        ReplaceAppend("\\", "n", '"', "\\\"");
        ReplaceOne('\\', '"', "\\\"");
        ReplaceOne('n', '"', "\\\"");
      } else {
        ReplaceOne(c, '"', "\\\"");
      }
    }
  }

  /** The three sequential replacements are one character map: none disturbs what another wrote. */
  lemma {:induction false} EscapeIsOnePass(v: string)
    ensures EscapeLabel(v) == Escaped(v)
  {
    if v != "" {
      assert v == [v[0]] + v[1..];
      EscapeAppend([v[0]], v[1..]);
      EscapeOne(v[0]);
      EscapeIsOnePass(v[1..]);
    }
  }

  lemma EscapeAppend(a: string, b: string)
    ensures EscapeLabel(a + b) == EscapeLabel(a) + EscapeLabel(b)
  {
    ReplaceAppend(a, b, '\\', "\\\\");
    ReplaceAppend(Replace(a, '\\', "\\\\"), Replace(b, '\\', "\\\\"), '\n', "\\n");
    ReplaceAppend(
      Replace(Replace(a, '\\', "\\\\"), '\n', "\\n"), Replace(Replace(b, '\\', "\\\\"), '\n', "\\n"), '"', "\\\"");
  }

  /** An escaped value stays on its line. */
  lemma {:induction false} NoRawLineFeed(v: string)
    ensures '\n' !in Escaped(v)
  {
    if v != "" { NoRawLineFeed(v[1..]); }
  }

  // ----- rendering -----

  function RenderLabel(k: string, v: string): (s: string)
  {
    k + "=\"" + EscapeLabel(v) + "\""
  }

  /** The comma-joined label list of a sample. */
  function RenderLabels(labels: Labels): (s: string)
  {
    if labels == [] then ""
    else if |labels| == 1 then RenderLabel(labels[0].0, labels[0].1)
    else RenderLabel(labels[0].0, labels[0].1) + "," + RenderLabels(labels[1..])
  }

  function SampleName(metric: string, labels: Labels): (s: string)
  {
    metric + "{" + RenderLabels(labels) + "}"
  }

  // ----- reading back -----

  datatype Parsed<+T> = Bad | Good(value: T, rest: string)

  /** A label value up to its closing quote, escapes undone. */
  function ReadValue(s: string): (r: Parsed<string>)
    ensures r.Good? ==> |r.rest| < |s|
  {
    if s == "" then Bad
    else if s[0] == '"' then Good("", s[1..])
    else if s[0] == '\n' then Bad
    else if s[0] == '\\' then
      if |s| < 2 || s[1] !in "\\n\"" then Bad
      else
        var r := ReadValue(s[2..]);
        if r.Bad? then Bad else Good([if s[1] == 'n' then '\n' else s[1]] + r.value, r.rest)
    else
      var r := ReadValue(s[1..]);
      if r.Bad? then Bad else Good([s[0]] + r.value, r.rest)
  }

  predicate IsBlank(c: char) { c == ' ' || c == '\t' }

  predicate IsLetter(c: char) { 'a' <= c <= 'z' || 'A' <= c <= 'Z' || c == '_' }

  predicate InLabelName(c: char) { IsLetter(c) || '0' <= c <= '9' }

  predicate InMetricName(c: char) { InLabelName(c) || c == ':' }

  /** `[a-zA-Z_][a-zA-Z0-9_]*`. */
  predicate ValidLabelName(k: string)
  {
    k != "" && IsLetter(k[0]) && forall i :: 0 <= i < |k| ==> InLabelName(k[i])
  }

  ghost predicate ValidNames(labels: Labels)
  {
    forall i :: 0 <= i < |labels| ==> ValidLabelName(labels[i].0)
  }

  /** `[a-zA-Z_:][a-zA-Z0-9_:]*`. */
  predicate ValidMetricName(m: string)
  {
    m != "" && !('0' <= m[0] <= '9') && forall i :: 0 <= i < |m| ==> InMetricName(m[i])
  }

  /** The longest prefix of characters that satisfy `ok`. */
  function TakeWhile(s: string, ok: char -> bool): (r: string)
    ensures r <= s && (forall i :: 0 <= i < |r| ==> ok(r[i])) && (|r| < |s| ==> !ok(s[|r|]))
  {
    if s == "" || !ok(s[0]) then "" else [s[0]] + TakeWhile(s[1..], ok)
  }

  function SkipBlanks(s: string): (r: string)
    ensures |r| <= |s|
  {
    s[|TakeWhile(s, IsBlank)|..]
  }

  /** The token `c`, with blanks before it. */
  function Expect(s: string, c: char): (r: Parsed<char>)
    ensures r.Good? ==> |r.rest| < |s|
  {
    var t := SkipBlanks(s);
    if t != "" && t[0] == c then Good(c, t[1..]) else Bad
  }

  function ReadName(s: string): (r: Parsed<string>)
    ensures r.Good? ==> |r.rest| < |s| && ValidLabelName(r.value)
  {
    var k := TakeWhile(s, InLabelName);
    if ValidLabelName(k) then Good(k, s[|k|..]) else Bad
  }

  /** `name="value"`. */
  function ReadPair(s: string): (r: Parsed<(string, string)>)
    ensures r.Good? ==> |r.rest| < |s| && ValidLabelName(r.value.0)
  {
    var k := ReadName(SkipBlanks(s));
    if k.Bad? then Bad
    else
      var eq := Expect(k.rest, '=');
      if eq.Bad? then Bad
      else
        var open := Expect(eq.rest, '"');
        if open.Bad? then Bad
        else
          var v := ReadValue(open.rest);
          if v.Bad? then Bad else Good((k.value, v.value), v.rest)
  }

  /** The label list after the opening brace, up to and with the closing one. */
  function ReadList(s: string): (r: Parsed<Labels>)
    ensures r.Good? ==> ValidNames(r.value)
    decreases |s|
  {
    var end := Expect(s, '}');
    if end.Good? then Good([], end.rest)
    else
      var l := ReadPair(s);
      if l.Bad? then Bad
      else
        var close := Expect(l.rest, '}');
        var comma := Expect(l.rest, ',');
        if close.Good? then Good([l.value], close.rest)
        else if comma.Bad? then Bad
        else
          var more := ReadList(comma.rest);
          if more.Bad? then Bad else Good([l.value] + more.value, more.rest)
  }

  /** A metric name and its labels; the braces may be missing. */
  function ReadSample(s: string): (r: Parsed<(string, Labels)>)
  {
    var m := TakeWhile(s, InMetricName);
    if !ValidMetricName(m) then Bad
    else
      var open := Expect(s[|m|..], '{');
      if open.Bad? then Good((m, []), s[|m|..])
      else
        var l := ReadList(open.rest);
        if l.Bad? then Bad else Good((m, l.value), l.rest)
  }

  // ----- round trip -----

  lemma {:induction false} ReadEscaped(v: string, rest: string)
    ensures ReadValue(Escaped(v) + "\"" + rest) == Good(v, rest)
  {
    var s := Escaped(v) + "\"" + rest;
    if v == "" {
      assert s == "\"" + rest && s[1..] == rest;
    } else {
      var e := EscapeChar(v[0]);
      var tail := Escaped(v[1..]) + "\"" + rest;
      AppendAssociative(e, Escaped(v[1..]), "\"");
      AppendAssociative(e, Escaped(v[1..]) + "\"", rest);
      ReadEscaped(v[1..], rest);
      assert v == [v[0]] + v[1..];
      EscapeCharReads(v[0], tail);
    }
  }

  lemma EscapeCharReads(c: char, tail: string)
    requires ReadValue(tail).Good?
    ensures ReadValue(EscapeChar(c) + tail) == Good([c] + ReadValue(tail).value, ReadValue(tail).rest)
  {
    var e := EscapeChar(c);
    var s := e + tail;
    assert s[|e|..] == tail && s[0] == e[0];
    if |e| == 2 { assert s[1] == e[1]; }
  }

  lemma {:induction false} TakesAll(k: string, rest: string, ok: char -> bool)
    requires (forall i :: 0 <= i < |k| ==> ok(k[i])) && (rest != "" ==> !ok(rest[0]))
    ensures TakeWhile(k + rest, ok) == k && (k + rest)[|k|..] == rest
  {
    if k == "" {
      assert k + rest == rest;
    } else {
      assert (k + rest)[1..] == k[1..] + rest && k == [k[0]] + k[1..];
      TakesAll(k[1..], rest, ok);
    }
  }

  lemma NoBlanks(s: string)
    requires s != "" && !IsBlank(s[0])
    ensures SkipBlanks(s) == s
  {
    TakesAll("", s, IsBlank);
    assert "" + s == s;
  }

  lemma Expected(c: char, rest: string)
    requires !IsBlank(c)
    ensures Expect([c] + rest, c) == Good(c, rest)
    ensures forall d :: d != c ==> Expect([c] + rest, d).Bad?
  {
    NoBlanks([c] + rest);
    assert ([c] + rest)[1..] == rest;
  }

  lemma ReadsName(k: string, rest: string)
    requires ValidLabelName(k) && rest != "" && !InLabelName(rest[0])
    ensures ReadName(SkipBlanks(k + rest)) == Good(k, rest)
  {
    assert (k + rest)[0] == k[0];
    NoBlanks(k + rest);
    TakesAll(k, rest, InLabelName);
  }

  /** The four tokens of a pair, one after the other. */
  lemma PairTokens(s: string, k: string, a: string, b: string, v: string, rest: string)
    requires ReadName(SkipBlanks(s)) == Good(k, a) && Expect(a, '=') == Good('=', b)
    requires var open := Expect(b, '"'); open.Good? && ReadValue(open.rest) == Good(v, rest)
    ensures ReadPair(s) == Good((k, v), rest)
  {
  }

  lemma ReadsPair(k: string, v: string, rest: string)
    requires ValidLabelName(k)
    ensures ReadPair(RenderLabel(k, v) + rest) == Good((k, v), rest)
  {
    var value := EscapeLabel(v) + "\"" + rest;
    var quoted := ['"'] + value;
    var afterName := ['='] + quoted;
    assert RenderLabel(k, v) + rest == k + afterName;
    ReadsName(k, afterName);
    Expected('=', quoted);
    Expected('"', value);
    assert ReadValue(value) == Good(v, rest) by {
      EscapeIsOnePass(v);
      ReadEscaped(v, rest);
    }
    PairTokens(k + afterName, k, afterName, quoted, v, rest);
  }

  /** A rendered pair does not look like the end of the list. */
  lemma PairIsNoEnd(k: string, v: string, rest: string)
    requires ValidLabelName(k)
    ensures Expect(RenderLabel(k, v) + rest, '}').Bad?
  {
    var s := RenderLabel(k, v) + rest;
    assert s[0] == k[0];
    NoBlanks(s);
  }

  lemma ReadsLast(k: string, v: string, rest: string)
    requires ValidLabelName(k)
    ensures ReadList(RenderLabel(k, v) + (['}'] + rest)) == Good([(k, v)], rest)
  {
    PairIsNoEnd(k, v, ['}'] + rest);
    ReadsPair(k, v, ['}'] + rest);
    Expected('}', rest);
    LastPair(RenderLabel(k, v) + (['}'] + rest), (k, v), ['}'] + rest, rest);
  }

  lemma LastPair(s: string, l: (string, string), t: string, rest: string)
    requires Expect(s, '}').Bad? && ReadPair(s) == Good(l, t) && Expect(t, '}') == Good('}', rest)
    ensures ReadList(s) == Good([l], rest)
  {
  }

  lemma ReadsMore(k: string, v: string, more: string)
    requires ValidLabelName(k) && ReadList(more).Good?
    ensures ReadList(RenderLabel(k, v) + ([','] + more)) == Good([(k, v)] + ReadList(more).value, ReadList(more).rest)
  {
    PairIsNoEnd(k, v, [','] + more);
    ReadsPair(k, v, [','] + more);
    Expected(',', more);
    MorePairs(RenderLabel(k, v) + ([','] + more), (k, v), [','] + more, more);
  }

  lemma MorePairs(s: string, l: (string, string), t: string, more: string)
    requires Expect(s, '}').Bad? && ReadPair(s) == Good(l, t)
    requires Expect(t, '}').Bad? && Expect(t, ',') == Good(',', more) && ReadList(more).Good?
    ensures ReadList(s) == Good([l] + ReadList(more).value, ReadList(more).rest)
  {
  }

  lemma RenderSplits(labels: Labels, end: string)
    requires |labels| > 1
    ensures RenderLabels(labels) + end
            == RenderLabel(labels[0].0, labels[0].1) + ([','] + (RenderLabels(labels[1..]) + end))
  {
    var a, b := RenderLabel(labels[0].0, labels[0].1), RenderLabels(labels[1..]);
    AppendAssociative(a + ",", b, end);
    AppendAssociative(a, ",", b + end);
  }

  type Reader = string -> Parsed<Labels>

  /** `read` takes a rendered pair off the front of a list that goes on. */
  ghost predicate ReadsOn(read: Reader, ok: string -> bool)
  {
    forall k, v, more :: ok(k) && read(more).Good? ==>
      read(RenderLabel(k, v) + ([','] + more)) == Good([(k, v)] + read(more).value, read(more).rest)
  }

  /** `read` takes the last pair before `end`. */
  ghost predicate ReadsUpTo(read: Reader, ok: string -> bool, end: string, rest: string)
  {
    forall k, v :: ok(k) ==> read(RenderLabel(k, v) + end) == Good([(k, v)], rest)
  }

  /** A reader of pairs reads lists. */
  lemma {:induction false} ReadsRendered(read: Reader, ok: string -> bool, labels: Labels, end: string, rest: string)
    requires ReadsOn(read, ok) && ReadsUpTo(read, ok, end, rest)
    requires labels != [] && forall i :: 0 <= i < |labels| ==> ok(labels[i].0)
    ensures read(RenderLabels(labels) + end) == Good(labels, rest)
  {
    if |labels| == 1 {
      assert labels == [(labels[0].0, labels[0].1)];
      assert read(RenderLabel(labels[0].0, labels[0].1) + end) == Good([(labels[0].0, labels[0].1)], rest);
    } else {
      ReadsRendered(read, ok, labels[1..], end, rest);
      ReadsCons(read, ok, labels, end, rest);
    }
  }

  lemma ReadsCons(read: Reader, ok: string -> bool, labels: Labels, end: string, rest: string)
    requires ReadsOn(read, ok) && |labels| > 1 && ok(labels[0].0)
    requires read(RenderLabels(labels[1..]) + end) == Good(labels[1..], rest)
    ensures read(RenderLabels(labels) + end) == Good(labels, rest)
  {
    var k, v, more := labels[0].0, labels[0].1, RenderLabels(labels[1..]) + end;
    assert read(RenderLabel(k, v) + ([','] + more)) == Good([(k, v)] + labels[1..], rest);
    assert labels == [(k, v)] + labels[1..];
    RenderSplits(labels, end);
  }

  lemma ReadsList(labels: Labels, rest: string)
    requires ValidNames(labels)
    ensures ReadList(RenderLabels(labels) + (['}'] + rest)) == Good(labels, rest)
  {
    if labels == [] {
      ReadsEmpty(rest);
    } else {
      ListReadsOn();
      ListReadsUpTo(rest);
      ReadsRendered(ReadList, ValidLabelName, labels, ['}'] + rest, rest);
    }
  }

  lemma ListReadsOn()
    ensures ReadsOn(ReadList, ValidLabelName)
  {
    forall k, v, more | ValidLabelName(k) && ReadList(more).Good?
      ensures ReadList(RenderLabel(k, v) + ([','] + more)) == Good([(k, v)] + ReadList(more).value, ReadList(more).rest)
    {
      ReadsMore(k, v, more);
    }
  }

  lemma ListReadsUpTo(rest: string)
    ensures ReadsUpTo(ReadList, ValidLabelName, ['}'] + rest, rest)
  {
    forall k, v | ValidLabelName(k) ensures ReadList(RenderLabel(k, v) + (['}'] + rest)) == Good([(k, v)], rest) {
      ReadsLast(k, v, rest);
    }
  }

  lemma ReadsEmpty(rest: string)
    ensures ReadList(RenderLabels([]) + (['}'] + rest)) == Good([], rest)
  {
    Expected('}', rest);
    assert RenderLabels([]) + (['}'] + rest) == ['}'] + rest;
  }

  lemma ReadsSample(metric: string, labels: Labels, rest: string)
    requires ValidMetricName(metric) && ValidNames(labels)
    ensures ReadSample(SampleName(metric, labels) + rest) == Good((metric, labels), rest)
  {
    var list := RenderLabels(labels) + (['}'] + rest);
    assert SampleName(metric, labels) + rest == metric + (['{'] + list);
    TakesAll(metric, ['{'] + list, InMetricName);
    Expected('{', list);
    ReadsList(labels, rest);
  }

  /** A sample name reads back as itself exactly when its metric and all its label names obey the grammar. */
  lemma RoundTripIff(metric: string, labels: Labels, rest: string)
    ensures ReadSample(SampleName(metric, labels) + rest) == Good((metric, labels), rest)
            <==> ValidMetricName(metric) && ValidNames(labels)
  {
    var s := SampleName(metric, labels) + rest;
    if ValidMetricName(metric) && ValidNames(labels) { ReadsSample(metric, labels, rest); }
  }

  lemma LabelLineFeed(k: string, v: string)
    ensures '\n' in RenderLabel(k, v) <==> '\n' in k
  {
    EscapeIsOnePass(v);
    NoRawLineFeed(v);
  }

  lemma JoinLineFeed(a: string, b: string)
    ensures '\n' in a + "," + b <==> '\n' in a || '\n' in b
  {
  }

  lemma {:induction false} LabelsLineFeed(labels: Labels)
    ensures '\n' in RenderLabels(labels) <==> exists i :: 0 <= i < |labels| && '\n' in labels[i].0
  {
    if labels != [] {
      LabelLineFeed(labels[0].0, labels[0].1);
      LabelsLineFeed(labels[1..]);
      LineFeedCons(labels);
      JoinLineFeed(RenderLabel(labels[0].0, labels[0].1), RenderLabels(labels[1..]));
    }
  }

  lemma LineFeedCons(labels: Labels)
    requires labels != []
    ensures (exists i :: 0 <= i < |labels| && '\n' in labels[i].0)
            <==> '\n' in labels[0].0 || exists i :: 0 <= i < |labels[1..]| && '\n' in labels[1..][i].0
  {
    if i :| 0 < i < |labels| && '\n' in labels[i].0 { assert labels[1..][i - 1] == labels[i]; }
    if i :| 0 <= i < |labels[1..]| && '\n' in labels[1..][i].0 { assert labels[i + 1] == labels[1..][i]; }
  }

  /** A sample stays on one line exactly when its metric and label names do; values never break it. */
  lemma OneLineIff(metric: string, labels: Labels)
    ensures '\n' !in SampleName(metric, labels)
            <==> '\n' !in metric && forall i :: 0 <= i < |labels| ==> '\n' !in labels[i].0
  {
    LabelsLineFeed(labels);
  }

  // ----- a reader that takes any name, to tell renderings apart -----

  /** A label name: everything before the first equals sign that a quote follows. */
  function LooseName(s: string): (r: Parsed<string>)
    ensures r.Good? ==> |r.rest| < |s|
  {
    if |s| < 2 then Bad
    else if s[0] == '=' && s[1] == '"' then Good("", s[2..])
    else
      var r := LooseName(s[1..]);
      if r.Bad? then Bad else Good([s[0]] + r.value, r.rest)
  }

  /** One or more labels separated by commas, up to the end. */
  function LooseLabels(s: string): (r: Parsed<Labels>)
    decreases |s|
  {
    var k := LooseName(s);
    if k.Bad? then Bad
    else
      var v := ReadValue(k.rest);
      if v.Bad? then Bad
      else if v.rest == "" then Good([(k.value, v.value)], "")
      else if v.rest[0] != ',' then Bad
      else
        var more := LooseLabels(v.rest[1..]);
        if more.Bad? then Bad else Good([(k.value, v.value)] + more.value, "")
  }

  /** A name in which no quote follows an equals sign. */
  predicate PlainName(k: string)
  {
    forall i :: 0 <= i < |k| - 1 ==> !(k[i] == '=' && k[i + 1] == '"')
  }

  lemma {:induction false} LooseNameReads(k: string, rest: string)
    requires PlainName(k)
    ensures LooseName(k + "=\"" + rest) == Good(k, rest)
  {
    var s := k + "=\"" + rest;
    if k == "" {
      assert s == "=\"" + rest && s[0] == '=' && s[1] == '"' && s[2..] == rest;
    } else {
      var tail := k[1..] + "=\"" + rest;
      assert s == [k[0]] + tail && s[1..] == tail && s[0] == k[0];
      LooseNameReads(k[1..], rest);
      assert k == [k[0]] + k[1..];
      assert s[1] == if |k| > 1 then k[1] else '=';
    }
  }

  ghost predicate PlainNames(labels: Labels)
  {
    forall i :: 0 <= i < |labels| ==> PlainName(labels[i].0)
  }

  lemma LooseLabel(k: string, v: string, rest: string)
    requires PlainName(k)
    ensures LooseName(RenderLabel(k, v) + rest).Good? && LooseName(RenderLabel(k, v) + rest).value == k
    ensures ReadValue(LooseName(RenderLabel(k, v) + rest).rest) == Good(v, rest)
  {
    EscapeIsOnePass(v);
    assert RenderLabel(k, v) + rest == k + "=\"" + (Escaped(v) + "\"" + rest);
    LooseNameReads(k, Escaped(v) + "\"" + rest);
    ReadEscaped(v, rest);
  }

  lemma LooseReads()
    ensures ReadsOn(LooseLabels, PlainName) && ReadsUpTo(LooseLabels, PlainName, "", "")
  {
    forall k, v, more | PlainName(k) && LooseLabels(more).Good?
      ensures LooseLabels(RenderLabel(k, v) + ([','] + more))
              == Good([(k, v)] + LooseLabels(more).value, LooseLabels(more).rest)
    {
      LooseLabel(k, v, [','] + more);
      assert ([','] + more)[1..] == more;
    }
    forall k, v | PlainName(k) ensures LooseLabels(RenderLabel(k, v) + "") == Good([(k, v)], "") {
      LooseLabel(k, v, "");
    }
  }

  lemma LooseRendered(labels: Labels)
    requires labels != [] && PlainNames(labels)
    ensures LooseLabels(RenderLabels(labels)) == Good(labels, "")
  {
    LooseReads();
    ReadsRendered(LooseLabels, PlainName, labels, "", "");
    assert RenderLabels(labels) + "" == RenderLabels(labels);
  }

  /** Escaping is injective, so the value of a label can always be recovered. */
  lemma EscapeInjective(a: string, b: string)
    requires EscapeLabel(a) == EscapeLabel(b)
    ensures a == b
  {
    EscapeIsOnePass(a);
    EscapeIsOnePass(b);
    ReadEscaped(a, "");
    ReadEscaped(b, "");
  }

  lemma RenderInjective(a: Labels, b: Labels)
    requires PlainNames(a) && PlainNames(b) && RenderLabels(a) == RenderLabels(b)
    ensures a == b
  {
    if a != [] && b != [] {
      LooseRendered(a);
      LooseRendered(b);
    }
  }

  /** Distinct labelled counters never share a sample name, as long as no label name contains `="`. */
  lemma SampleNamesDistinct(m1: string, l1: Labels, m2: string, l2: Labels)
    requires '{' !in m1 && '{' !in m2 && PlainNames(l1) && PlainNames(l2)
    requires SampleName(m1, l1) == SampleName(m2, l2)
    ensures m1 == m2 && l1 == l2
  {
    var a, b := RenderLabels(l1), RenderLabels(l2);
    AppendAssociative(m1 + "{", a, "}");
    AppendAssociative(m2 + "{", b, "}");
    BraceSplits(m1, a + "}", m2, b + "}");
    assert a == (a + "}")[..|a|] && b == (b + "}")[..|b|];
    RenderInjective(l1, l2);
  }

  function BeforeBrace(s: string): (m: string)
  {
    if s == "" || s[0] == '{' then "" else [s[0]] + BeforeBrace(s[1..])
  }

  lemma {:induction false} BeforeBraceIs(m: string, a: string)
    requires '{' !in m
    ensures BeforeBrace(m + "{" + a) == m
  {
    var s := m + "{" + a;
    if m == "" {
      assert s[0] == '{';
    } else {
      assert s[1..] == m[1..] + "{" + a && s[0] == m[0] && m == [m[0]] + m[1..];
      BeforeBraceIs(m[1..], a);
    }
  }

  lemma BraceSplits(m1: string, a: string, m2: string, b: string)
    requires '{' !in m1 && '{' !in m2
    requires m1 + "{" + a == m2 + "{" + b
    ensures m1 == m2 && a == b
  {
    BeforeBraceIs(m1, a);
    BeforeBraceIs(m2, b);
    var s := m1 + "{" + a;
    assert a == s[|m1| + 1..] && b == (m2 + "{" + b)[|m2| + 1..];
  }

  /** With `="` in a name two different label sets can render alike. */
  lemma QuotedNamesCollide()
    ensures RenderLabels([("a", "1"), ("b", "2")]) == RenderLabels([("a=\"1\",b", "2")])
  {
    EscapeOne('1');
    EscapeOne('2');
    var two := [("a", "1"), ("b", "2")];
    assert two[1..] == [("b", "2")];
    assert RenderLabels(two) == "a=\"1\",b=\"2\"";
  }
}
