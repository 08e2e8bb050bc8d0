/**
 Orders and the sorting the platform relies on: Python's code-point order on
 strings, `sorted` over a list (stable) and `sorted` over a set (canonical).
 */
module Ordering {

  /** Code-point order on strings, as Python compares them. */
  predicate StrLe(a: string, b: string)
  {
    if a == [] then true
    else if b == [] then false
    else if a[0] != b[0] then a[0] < b[0]
    else StrLe(a[1..], b[1..])
  }

  lemma {:induction false} StrLeTotal(a: string, b: string)
    ensures StrLe(a, b) || StrLe(b, a)
  {
    if a != [] && b != [] && a[0] == b[0] { StrLeTotal(a[1..], b[1..]); }
  }

  lemma {:induction false} StrLeAntisymmetric(a: string, b: string)
    requires StrLe(a, b) && StrLe(b, a)
    ensures a == b
  {
    if a != [] && b != [] {
      StrLeAntisymmetric(a[1..], b[1..]);
      assert a == [a[0]] + a[1..] && b == [b[0]] + b[1..];
    }
  }

  lemma {:induction false} StrLeTransitive(a: string, b: string, c: string)
    requires StrLe(a, b) && StrLe(b, c)
    ensures StrLe(a, c)
  {
    if a != [] && b != [] && c != [] && a[0] == b[0] == c[0] {
      StrLeTransitive(a[1..], b[1..], c[1..]);
    }
  }

  /** The order is decided by the first difference. */
  lemma {:induction false} StrLeFirstDifference(p: string, c: char, d: char, x: string, y: string)
    requires c < d
    ensures StrLe(p + ([c] + x), p + ([d] + y))
  {
    if p == [] {
      assert p + ([c] + x) == [c] + x && p + ([d] + y) == [d] + y;
    } else {
      StrLeFirstDifference(p[1..], c, d, x, y);
      StrLeCons(p[0], p[1..] + ([c] + x), p[1..] + ([d] + y));
      assert p == [p[0]] + p[1..];
      AppendAssociative([p[0]], p[1..], [c] + x);
      AppendAssociative([p[0]], p[1..], [d] + y);
    }
  }

  lemma StrLeCons(c: char, a: string, b: string)
    requires StrLe(a, b)
    ensures StrLe([c] + a, [c] + b)
  {
    assert ([c] + a)[1..] == a && ([c] + b)[1..] == b;
  }

  /** A prefix comes first. */
  lemma {:induction false} StrLePrefix(p: string, x: string)
    ensures StrLe(p, p + x)
  {
    if p != [] {
      StrLePrefix(p[1..], x);
      assert (p + x)[1..] == p[1..] + x;
    }
  }

  ghost predicate TotalPreorder<T(!new)>(le: (T, T) -> bool)
  {
    && (forall x, y :: le(x, y) || le(y, x))
    && (forall x, y, z :: le(x, y) && le(y, z) ==> le(x, z))
  }

  lemma StrLePreorder()
    ensures TotalPreorder(StrLe)
  {
    forall x: string, y: string ensures StrLe(x, y) || StrLe(y, x) { StrLeTotal(x, y); }
    forall x: string, y: string, z: string | StrLe(x, y) && StrLe(y, z) ensures StrLe(x, z) {
      StrLeTransitive(x, y, z);
    }
  }

  ghost predicate Sorted<T>(s: seq<T>, le: (T, T) -> bool)
  {
    forall i, j :: 0 <= i < j < |s| ==> le(s[i], s[j])
  }

  /** Puts `x` in front of the first element that is not below it, so ties keep their order. */
  function Insert<T>(x: T, s: seq<T>, le: (T, T) -> bool): (r: seq<T>)
    ensures multiset(r) == multiset{x} + multiset(s)
    ensures |r| == |s| + 1
  {
    if s == [] then [x]
    else if le(x, s[0]) then [x] + s
    else
      assert s == [s[0]] + s[1..];
      [s[0]] + Insert(x, s[1..], le)
  }

  /** Python's stable `sorted(s, key=...)`, with `le` comparing the keys. */
  function Sort<T>(s: seq<T>, le: (T, T) -> bool): (r: seq<T>)
    ensures multiset(r) == multiset(s)
    ensures |r| == |s|
  {
    if s == [] then []
    else
      assert s == [s[0]] + s[1..];
      Insert(s[0], Sort(s[1..], le), le)
  }

  lemma MultisetMembers<T>(a: seq<T>, b: seq<T>)
    requires multiset(a) == multiset(b)
    ensures forall x :: x in a <==> x in b
  {
    assert forall x :: x in a <==> x in multiset(a);
    assert forall x :: x in b <==> x in multiset(b);
  }

  lemma {:induction false} InsertSorted<T(!new)>(x: T, s: seq<T>, le: (T, T) -> bool)
    requires TotalPreorder(le) && Sorted(s, le)
    ensures Sorted(Insert(x, s, le), le)
  {
    if s == [] {
    } else if le(x, s[0]) {
    } else {
      InsertSorted(x, s[1..], le);
      var t := Insert(x, s[1..], le);
      forall j | 0 <= j < |t| ensures le(s[0], t[j]) {
        assert t[j] in multiset(t);
        assert t[j] == x || t[j] in s[1..];
      }
    }
  }

  lemma {:induction false} SortSorted<T(!new)>(s: seq<T>, le: (T, T) -> bool)
    requires TotalPreorder(le)
    ensures Sorted(Sort(s, le), le)
  {
    if s != [] {
      SortSorted(s[1..], le);
      InsertSorted(s[0], Sort(s[1..], le), le);
    }
  }

  function Filter<T(!new)>(s: seq<T>, p: T -> bool): (r: seq<T>)
    ensures forall x :: x in r <==> x in s && p(x)
  {
    if s == [] then []
    else if p(s[0]) then [s[0]] + Filter(s[1..], p)
    else Filter(s[1..], p)
  }

  lemma FilterNone<T(!new)>(s: seq<T>, p: T -> bool)
    requires forall x :: x in s ==> !p(x)
    ensures Filter(s, p) == []
  {
  }

  lemma FilterAll<T(!new)>(s: seq<T>, p: T -> bool)
    requires forall x :: x in s ==> p(x)
    ensures Filter(s, p) == s
  {
  }

  lemma SortPair<T>(x: T, y: T, le: (T, T) -> bool)
    requires le(x, y)
    ensures Sort([x, y], le) == [x, y]
  {
    assert [x, y][1..] == [y] && [y][1..] == [];
    assert Sort([y], le) == [y];
  }

  lemma {:induction false} FilterAppend<T(!new)>(a: seq<T>, b: seq<T>, p: T -> bool)
    ensures Filter(a + b, p) == Filter(a, p) + Filter(b, p)
  {
    if a == [] {
      assert a + b == b;
    } else {
      assert (a + b)[1..] == a[1..] + b;
      FilterAppend(a[1..], b, p);
    }
  }

  lemma FilterSnoc<T(!new)>(s: seq<T>, x: T, p: T -> bool)
    ensures Filter(s + [x], p) == Filter(s, p) + (if p(x) then [x] else [])
  {
    FilterAppend(s, [x], p);
    assert [x][1..] == [];
  }

  lemma {:induction false} FilterInsert<T(!new)>(x: T, s: seq<T>, le: (T, T) -> bool, p: T -> bool)
    requires TotalPreorder(le) && Sorted(s, le)
    ensures Filter(Insert(x, s, le), p) == if p(x) then Insert(x, Filter(s, p), le) else Filter(s, p)
  {
    if s == [] {
    } else if le(x, s[0]) {
      assert ([x] + s)[1..] == s;
      if p(x) {
        InsertFront(x, Filter(s, p), le);
      }
    } else {
      FilterInsert(x, s[1..], le, p);
      var r := Insert(x, s, le);
      assert r[0] == s[0] && r[1..] == Insert(x, s[1..], le);
      if p(s[0]) && p(x) {
        var f := Filter(s, p);
        assert f[0] == s[0] && f[1..] == Filter(s[1..], p);
      }
    }
  }

  lemma InsertFront<T(!new)>(x: T, s: seq<T>, le: (T, T) -> bool)
    requires forall y :: y in s ==> le(x, y)
    ensures Insert(x, s, le) == [x] + s
  {
  }

  /** Stability in its general form: sorting commutes with dropping elements. */
  lemma {:induction false} SortFilter<T(!new)>(s: seq<T>, le: (T, T) -> bool, p: T -> bool)
    requires TotalPreorder(le)
    ensures Filter(Sort(s, le), p) == Sort(Filter(s, p), le)
  {
    if s != [] {
      SortFilter(s[1..], le, p);
      SortSorted(s[1..], le);
      FilterInsert(s[0], Sort(s[1..], le), le, p);
      if p(s[0]) {
        var f := Filter(s, p);
        assert f[0] == s[0] && f[1..] == Filter(s[1..], p);
      }
    }
  }

  predicate IsLeast(s: set<string>, m: string)
  {
    m in s && forall x :: x in s ==> StrLe(m, x)
  }

  /** The least string of a set. */
  function LeastOf(s: set<string>): (m: string)
    requires s != {}
    ensures m in s && forall x :: x in s ==> StrLe(m, x)
  {
    LeastExists(s);
    LeastIsUnique(s);
    var m :| m in s && IsLeast(s, m);
    m
  }

  lemma LeastIsUnique(s: set<string>)
    ensures forall m, n :: IsLeast(s, m) && IsLeast(s, n) ==> m == n
  {
    forall m, n | IsLeast(s, m) && IsLeast(s, n) ensures m == n { StrLeAntisymmetric(m, n); }
  }

  lemma LeastExists(s: set<string>)
    requires s != {}
    ensures exists m :: IsLeast(s, m)
  {
    var m := FindLeast(s);
  }

  lemma {:induction false} FindLeast(s: set<string>) returns (m: string)
    requires s != {}
    ensures IsLeast(s, m)
  {
    var a :| a in s;
    StrLeTotal(a, a);
    m := a;
    if s != {a} {
      var b := FindLeast(s - {a});
      m := Lesser(s, a, b);
    }
  }

  lemma Lesser(s: set<string>, a: string, b: string) returns (m: string)
    requires a in s && StrLe(a, a) && IsLeast(s - {a}, b)
    ensures IsLeast(s, m)
  {
    StrLeTotal(a, b);
    m := if StrLe(a, b) then a else b;
    forall x | x in s ensures StrLe(m, x) {
      if x != a && m == a { StrLeTransitive(a, b, x); }
    }
  }

  /** Python's `sorted` over a set of strings. */
  function SortedSet(s: set<string>): (r: seq<string>)
    ensures forall x :: x in r <==> x in s
    ensures |r| == |s|
    ensures forall i, j :: 0 <= i < j < |r| ==> r[i] != r[j] && StrLe(r[i], r[j])
    decreases |s|
  {
    if s == {} then []
    else
      var m := LeastOf(s);
      [m] + SortedSet(s - {m})
  }

  /** The distinct values of a sequence. */
  function SetOf<T>(s: seq<T>): (r: set<T>)
  {
    set x | x in s
  }

  function Concat<T(!new)>(ss: seq<seq<T>>): (r: seq<T>)
    ensures forall x :: x in r <==> exists i :: 0 <= i < |ss| && x in ss[i]
  {
    if ss == [] then []
    else
      assert ss == [ss[0]] + ss[1..];
      ss[0] + Concat(ss[1..])
  }

  lemma {:induction false} ConcatAppend<T(!new)>(a: seq<seq<T>>, b: seq<seq<T>>)
    ensures Concat(a + b) == Concat(a) + Concat(b)
  {
    if a == [] {
      assert a + b == b;
    } else {
      assert (a + b)[1..] == a[1..] + b;
      ConcatAppend(a[1..], b);
    }
  }

  function Map<T, R>(s: seq<T>, f: T -> R): (r: seq<R>)
    ensures |r| == |s|
    ensures forall i :: 0 <= i < |s| ==> r[i] == f(s[i])
  {
    seq(|s|, i requires 0 <= i < |s| => f(s[i]))
  }

  lemma PrefixSnoc<T>(s: seq<T>, n: nat)
    requires n < |s|
    ensures s[..n + 1] == s[..n] + [s[n]]
  {
  }

  /** Cutting a concatenation inside its first part. */
  lemma CutAppend<T>(a: seq<T>, b: seq<T>, n: nat)
    requires n <= |a|
    ensures (a + b)[..n] == a[..n] && (a + b)[n..] == a[n..] + b
  {
  }

  lemma AppendAssociative<T>(a: seq<T>, b: seq<T>, c: seq<T>)
    ensures a + (b + c) == a + b + c
  {
  }

  lemma MapAppend<T, R>(a: seq<T>, b: seq<T>, f: T -> R)
    ensures Map(a + b, f) == Map(a, f) + Map(b, f)
  {
  }

  lemma MapPair<T, R>(x: T, y: T, f: T -> R)
    ensures Map([x, y], f) == [f(x), f(y)]
  {
  }

  lemma SortMapMembers<T(!new), R>(s: seq<T>, f: T -> R, le: (R, R) -> bool, r: R)
    ensures r in Sort(Map(s, f), le) <==> exists k :: 0 <= k < |s| && r == f(s[k])
  {
    var m := Map(s, f);
    MultisetMembers(Sort(m, le), m);
    if k :| 0 <= k < |s| && r == f(s[k]) { assert m[k] == r; }
  }
}
