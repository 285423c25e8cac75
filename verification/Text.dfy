/** Strings as keys: lower-casing, decimal numbers, and joining with a separator no part contains. */
module Text {
  function LowerChar(c: char): char {
    if 'A' <= c <= 'Z' then c + 32 as char else c
  }

  function Lower(s: string): string {
    seq(|s|, i requires 0 <= i < |s| => LowerChar(s[i]))
  }

  /** Two characters are one up to case when they are the same, or a capital and its own small letter. */
  lemma FoldsCaseOnly(c: char, d: char)
    ensures LowerChar(c) == LowerChar(d) <==>
              || c == d
              || ('A' <= c <= 'Z' && d as int == c as int + 32)
              || ('A' <= d <= 'Z' && c as int == d as int + 32)
  {
  }

  lemma SameUpToCase(s: string, t: string)
    ensures Lower(s) == Lower(t) <==>
              |s| == |t| && forall i :: 0 <= i < |s| ==> LowerChar(s[i]) == LowerChar(t[i])
  {
    if Lower(s) == Lower(t) {
      assert |s| == |Lower(s)| == |Lower(t)| == |t|;
      forall i | 0 <= i < |s| ensures LowerChar(s[i]) == LowerChar(t[i]) {
        assert Lower(s)[i] == Lower(t)[i];
      }
    }
  }

  predicate Free(s: string, sep: char) { forall i :: 0 <= i < |s| ==> s[i] != sep }

  /** An address or a hex blob: letters and digits only. */
  predicate IsWord(s: string) {
    forall i :: 0 <= i < |s| ==> '0' <= s[i] <= '9' || 'a' <= s[i] <= 'z' || 'A' <= s[i] <= 'Z'
  }

  function DigitChar(d: nat): char
    requires d < 10
  {
    '0' + d as char
  }

  function Decimal(n: nat): string {
    if n < 10 then [DigitChar(n)] else Decimal(n / 10) + [DigitChar(n % 10)]
  }

  lemma LowerStaysWord(s: string)
    requires IsWord(s)
    ensures IsWord(Lower(s)) && Lower(Lower(s)) == Lower(s)
  {
  }

  lemma {:induction false} DecimalIsWord(n: nat)
    ensures IsWord(Decimal(n)) && |Decimal(n)| > 0
    decreases n
  {
    if n >= 10 {
      DecimalIsWord(n / 10);
    }
  }

  lemma {:induction false} DecimalInjective(a: nat, b: nat)
    requires Decimal(a) == Decimal(b)
    ensures a == b
    decreases a
  {
    DecimalIsWord(a / 10);
    DecimalIsWord(b / 10);
    if a >= 10 && b >= 10 {
      assert Decimal(a)[..|Decimal(a)| - 1] == Decimal(a / 10);
      assert Decimal(b)[..|Decimal(b)| - 1] == Decimal(b / 10);
      assert Decimal(a)[|Decimal(a)| - 1] == DigitChar(a % 10);
      assert Decimal(b)[|Decimal(b)| - 1] == DigitChar(b % 10);
      DecimalInjective(a / 10, b / 10);
      assert a % 10 == b % 10;
    } else {
      assert |Decimal(a)| == |Decimal(b)|;
    }
  }

  predicate FirstAt(s: string, sep: char, n: nat) {
    n < |s| && s[n] == sep && Free(s[..n], sep)
  }

  lemma SeparatorIsFirst(a: string, rest: string, sep: char)
    requires Free(a, sep)
    ensures FirstAt(a + [sep] + rest, sep, |a|)
  {
    assert (a + [sep] + rest)[..|a|] == a;
  }

  lemma FirstIsUnique(s: string, sep: char, n: nat, m: nat)
    requires FirstAt(s, sep, n) && FirstAt(s, sep, m)
    ensures n == m
  {
    assert forall i :: 0 <= i < n ==> s[..n][i] == s[i];
    assert forall i :: 0 <= i < m ==> s[..m][i] == s[i];
  }

  /** A part without the separator can be read back from in front of it. */
  lemma SplitAtSeparator(a: string, rest: string, a': string, rest': string, sep: char)
    requires Free(a, sep) && Free(a', sep)
    requires a + [sep] + rest == a' + [sep] + rest'
    ensures a == a' && rest == rest'
  {
    var s := a + [sep] + rest;
    SeparatorIsFirst(a, rest, sep);
    SeparatorIsFirst(a', rest', sep);
    FirstIsUnique(s, sep, |a|, |a'|);
    assert a == s[..|a|] && rest == s[|a| + 1..];
    assert a' == (a' + [sep] + rest')[..|a'|] && rest' == (a' + [sep] + rest')[|a'| + 1..];
  }
}
