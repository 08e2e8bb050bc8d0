/** The Python string operations the platform uses. */
module Text {

  /** `part in text`. */
  predicate Contains(text: string, part: string)
  {
    part <= text || (text != [] && Contains(text[1..], part))
  }

  /** `part` stands at place `i` of `text`. */
  predicate OccursAt(text: string, part: string, i: int)
  {
    0 <= i <= |text| - |part| && text[i..i + |part|] == part
  }

  lemma PrefixOccurs(text: string, part: string)
    ensures OccursAt(text, part, 0) <==> part <= text
  {
    if part <= text { assert text[0..0 + |part|] == part; }
  }

  lemma {:induction false} ContainsIff(text: string, part: string)
    ensures Contains(text, part) <==> exists i :: OccursAt(text, part, i)
  {
    PrefixOccurs(text, part);
    if !(part <= text) && text != [] {
      ContainsIff(text[1..], part);
      if i :| OccursAt(text[1..], part, i) {
        assert text[1..][i..i + |part|] == text[i + 1..i + 1 + |part|];
        assert OccursAt(text, part, i + 1);
      }
      if i :| OccursAt(text, part, i) {
        assert i > 0 && text[1..][i - 1..i - 1 + |part|] == text[i..i + |part|];
        assert OccursAt(text[1..], part, i - 1);
      }
    }
  }

  lemma {:induction false} ContainsPart(s: string, a: string, b: string)
    requires Contains(s, a + b)
    ensures Contains(s, b)
  {
    if a + b <= s {
      var rest := s[|a|..];
      assert b <= rest by { assert s[..|a + b|] == a + b; assert rest[..|b|] == s[|a|..|a| + |b|]; }
      assert Contains(rest, b);
      ContainsLater(s, |a|, b);
    } else {
      ContainsPart(s[1..], a, b);
    }
  }

  lemma {:induction false} ContainsLater(s: string, k: nat, t: string)
    requires k <= |s| && Contains(s[k..], t)
    ensures Contains(s, t)
    decreases k
  {
    if k == 0 {
      assert s[0..] == s;
    } else {
      assert s[1..][k - 1..] == s[k..];
      ContainsLater(s[1..], k - 1, t);
    }
  }

  lemma ContainsMiddle(text: string, a: string, part: string, b: string)
    requires text == a + part + b
    ensures Contains(text, part)
  {
    assert text[|a|..|a| + |part|] == part;
    assert OccursAt(text, part, |a|);
    ContainsIff(text, part);
  }

  lemma {:induction false} ContainsFront(s: string, a: string, b: string)
    requires Contains(s, a + b)
    ensures Contains(s, a)
  {
    if a + b <= s {
      assert s[..|a + b|][..|a|] == a;
      assert a <= s;
    } else {
      ContainsFront(s[1..], a, b);
    }
  }

  function LowerChar(c: char): (r: char)
  {
    if 'A' <= c <= 'Z' then (c as int + 32) as char else c
  }

  /** `str.lower` on ASCII letters. */
  function Lower(s: string): (r: string)
  {
    seq(|s|, i requires 0 <= i < |s| => LowerChar(s[i]))
  }

  const UPPER := "ABCDEFGHIJKLMNOPQRSTUVWXYZ"
  const LOWER := "abcdefghijklmnopqrstuvwxyz"

  /** Every capital becomes the letter at its place in the small alphabet, and nothing else changes. */
  lemma LowerMeaning(s: string, i: nat)
    requires i < |s|
    ensures |Lower(s)| == |s|
    ensures forall k :: 0 <= k < 26 && s[i] == UPPER[k] ==> Lower(s)[i] == LOWER[k]
    ensures s[i] !in UPPER ==> Lower(s)[i] == s[i]
  {
    CapitalsAreListed(s[i]);
  }

  lemma CapitalsAreListed(c: char)
    ensures 'A' <= c <= 'Z' ==> UPPER[c as int - 'A' as int] == c && c in UPPER
    ensures forall k :: 0 <= k < 26 ==> LowerChar(UPPER[k]) == LOWER[k]
  {
  }
}
