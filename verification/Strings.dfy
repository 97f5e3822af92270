/** Characters and string operations shared by the input and the styled-text models. */
module Strings {

  const ESC := '\U{1B}'
  const BEL := '\U{07}'

  predicate StartsWith(s: string, prefix: string) {
    |prefix| <= |s| && s[..|prefix|] == prefix
  }

  predicate EndsWith(s: string, suffix: string) {
    |suffix| <= |s| && s[|s| - |suffix|..] == suffix
  }

  // ----- digits -----

  predicate IsDigit(c: char) {
    '0' <= c <= '9'
  }

  predicate AllDigits(s: string) {
    forall c :: c in s ==> IsDigit(c)
  }

  function ParseNat(s: string): nat
    requires AllDigits(s)
  {
    if s == "" then 0
    else
      assert s[|s| - 1] in s;
      10 * ParseNat(s[..|s| - 1]) + (s[|s| - 1] as int - '0' as int)
  }

  // ----- splitting and joining -----

  function SplitOn(s: string, sep: char): (parts: seq<string>)
    ensures |parts| >= 1
  {
    if s == "" then [""]
    else if s[0] == sep then [""] + SplitOn(s[1..], sep)
    else
      var rest := SplitOn(s[1..], sep);
      [[s[0]] + rest[0]] + rest[1..]
  }

  function Join(parts: seq<string>): string {
    if parts == [] then "" else parts[0] + Join(parts[1..])
  }

  lemma {:induction false} JoinSnoc(chunks: seq<string>, c: string)
    ensures Join(chunks + [c]) == Join(chunks) + c
  {
    if chunks == [] {
      assert [] + [c] == [c] && [c][1..] == [];
      assert Join([c]) == c + "" == c;
    } else {
      assert (chunks + [c])[0] == chunks[0] && (chunks + [c])[1..] == chunks[1..] + [c];
      JoinSnoc(chunks[1..], c);
    }
  }

  lemma {:induction false} JoinConcat(a: seq<string>, b: seq<string>)
    ensures Join(a + b) == Join(a) + Join(b)
  {
    if a == [] {
      assert a + b == b;
    } else {
      assert (a + b)[0] == a[0] && (a + b)[1..] == a[1..] + b;
      JoinConcat(a[1..], b);
    }
  }

  // ----- searching -----

  predicate MatchAt(s: string, pat: string, i: nat) {
    i + |pat| <= |s| && s[i..i + |pat|] == pat
  }

  function IndexFrom(s: string, pat: string, i: nat): (r: int)
    ensures r == -1 || (i <= r && MatchAt(s, pat, r) && forall k :: i <= k < r ==> !MatchAt(s, pat, k))
    ensures r == -1 ==> forall k :: i <= k ==> !MatchAt(s, pat, k)
    decreases |s| + 1 - i
  {
    if i > |s| then -1
    else if MatchAt(s, pat, i) then i
    else IndexFrom(s, pat, i + 1)
  }

  /** The first position of `pat` in `s`, or -1. */
  function IndexOf(s: string, pat: string): (r: int)
    ensures r == -1 || (0 <= r && MatchAt(s, pat, r) && forall k :: 0 <= k < r ==> !MatchAt(s, pat, k))
    ensures r == -1 ==> forall k: nat :: !MatchAt(s, pat, k)
  {
    IndexFrom(s, pat, 0)
  }

  lemma MatchExtends(s: string, c: string, pat: string, i: nat)
    requires i + |pat| <= |s|
    ensures MatchAt(s + c, pat, i) <==> MatchAt(s, pat, i)
  {
    assert (s + c)[i..i + |pat|] == s[i..i + |pat|];
  }

  lemma IndexIs(s: string, pat: string, i: nat)
    requires MatchAt(s, pat, i) && forall k :: 0 <= k < i ==> !MatchAt(s, pat, k)
    ensures IndexOf(s, pat) == i
  {
  }

  lemma IndexExtends(s: string, c: string, pat: string)
    requires IndexOf(s, pat) != -1
    ensures IndexOf(s + c, pat) == IndexOf(s, pat)
  {
    var i := IndexOf(s, pat);
    forall k | 0 <= k <= i ensures MatchAt(s + c, pat, k) == MatchAt(s, pat, k) {
      MatchExtends(s, c, pat, k);
    }
    IndexIs(s + c, pat, i);
  }

  lemma IndexOfSuffix(s: string, pat: string, q: nat)
    requires q <= |s| && (IndexOf(s, pat) == -1 || q <= IndexOf(s, pat))
    ensures IndexOf(s[q..], pat) == if IndexOf(s, pat) == -1 then -1 else IndexOf(s, pat) - q
  {
    forall k: nat ensures MatchAt(s[q..], pat, k) == MatchAt(s, pat, q + k) {
      if k + q + |pat| <= |s| { assert s[q..][k..k + |pat|] == s[q + k..q + k + |pat|]; }
    }
    if IndexOf(s, pat) != -1 { IndexIs(s[q..], pat, IndexOf(s, pat) - q); }
  }
}
