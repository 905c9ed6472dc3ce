/** String helpers standing in for the JavaScript string methods the source
    uses (`includes`, `startsWith`, `endsWith`, `split`, `join`, template
    interpolation of numbers). Strings are sequences of characters.
 */
module Text {
  import opened Outcomes

  /** `sub` occurs in `s` at index `i`. */
  predicate OccursAt(s: string, sub: string, i: nat) {
    i + |sub| <= |s| && s[i..i + |sub|] == sub
  }

  predicate StartsWith(s: string, prefix: string) {
    OccursAt(s, prefix, 0)
  }

  /** `String.prototype.endsWith`. */
  predicate EndsWith(s: string, suffix: string) {
    |suffix| <= |s| && s[|s| - |suffix|..] == suffix
  }

  /** `String.prototype.includes` restricted to matches at index `i` or later,
      computed by a left-to-right scan. */
  function ContainsFrom(s: string, sub: string, i: nat): (r: bool)
    ensures r <==> exists k: nat :: i <= k && OccursAt(s, sub, k)
    decreases |s| - i
  {
    if i + |sub| > |s| then false
    else OccursAt(s, sub, i) || ContainsFrom(s, sub, i + 1)
  }

  /** `String.prototype.includes`. */
  predicate Contains(s: string, sub: string) {
    ContainsFrom(s, sub, 0)
  }

  /** A suffix match is in particular an occurrence. */
  lemma EndsWithContains(s: string, suffix: string)
    requires EndsWith(s, suffix)
    ensures Contains(s, suffix)
  {
    assert OccursAt(s, suffix, |s| - |suffix|);
  }

  /** An occurrence of `outer` carries an occurrence of every part of it. */
  lemma ContainsPart(s: string, outer: string, inner: string, offset: nat)
    requires Contains(s, outer)
    requires OccursAt(outer, inner, offset)
    ensures Contains(s, inner)
  {
    var k: nat :| OccursAt(s, outer, k);
    assert s[k..k + |outer|] == outer;
    forall j | 0 <= j < |inner|
      ensures s[k + offset + j] == inner[j]
    {
      assert s[k + offset + j] == s[k..k + |outer|][offset + j] == outer[offset + j];
      assert outer[offset + j] == outer[offset..offset + |inner|][j];
    }
    assert OccursAt(s, inner, k + offset);
  }

  /** The end of the longest run of characters satisfying `p` that starts at
      `i`: what a greedy `[class]*` consumes. */
  function RunEnd(s: string, i: nat, p: char -> bool): (r: nat)
    requires i <= |s|
    ensures i <= r <= |s|
    ensures forall k :: i <= k < r ==> p(s[k])
    ensures r == |s| || !p(s[r])
    decreases |s| - i
  {
    if i == |s| || !p(s[i]) then i else RunEnd(s, i + 1, p)
  }

  /** `indexOf(c, from)`: the first position at or after `from` holding `c`. */
  function IndexOfFrom(s: string, c: char, from: nat): (r: Option<nat>)
    requires from <= |s|
    ensures r.Some? ==> from <= r.value < |s| && s[r.value] == c
    ensures r.Some? ==> forall k :: from <= k < r.value ==> s[k] != c
    ensures r.None? ==> forall k :: from <= k < |s| ==> s[k] != c
    decreases |s| - from
  {
    if from == |s| then None
    else if s[from] == c then Some(from)
    else IndexOfFrom(s, c, from + 1)
  }

  /** A run end is determined by its defining properties. */
  lemma RunEndUnique(s: string, i: nat, j: nat, p: char -> bool)
    requires i <= j <= |s|
    requires forall k :: i <= k < j ==> p(s[k])
    requires j == |s| || !p(s[j])
    ensures RunEnd(s, i, p) == j
  {
  }

  /** A wider character class never yields a shorter run. */
  lemma RunEndMonotone(s: string, i: nat, p: char -> bool, q: char -> bool)
    requires i <= |s|
    requires forall c :: p(c) ==> q(c)
    ensures RunEnd(s, i, p) <= RunEnd(s, i, q)
  {
  }

  /** An occurrence survives text appended after it. */
  lemma OccursBeforeAppend(a: string, b: string, sub: string, k: nat)
    requires OccursAt(a, sub, k)
    ensures OccursAt(a + b, sub, k)
  {
    assert (a + b)[k..k + |sub|] == a[k..k + |sub|];
  }

  /** An occurrence survives text prepended before it, shifted by its length. */
  lemma OccursAfterPrepend(a: string, b: string, sub: string, k: nat)
    requires OccursAt(b, sub, k)
    ensures OccursAt(a + b, sub, |a| + k)
  {
    assert (a + b)[|a| + k..|a| + k + |sub|] == b[k..k + |sub|];
  }

  /** An occurrence in the third of four nested parts is an occurrence in
      the whole. */
  lemma OccursInThird(a: string, b: string, c: string, d: string, sub: string, k: nat)
    requires OccursAt(c, sub, k)
    ensures OccursAt(a + (b + (c + d)), sub, |a| + (|b| + k))
    ensures Contains(a + (b + (c + d)), sub)
  {
    OccursBeforeAppend(c, d, sub, k);
    OccursAfterPrepend(b, c + d, sub, k);
    OccursAfterPrepend(a, b + (c + d), sub, |b| + k);
  }

  /** An occurrence in the middle of three nested parts is an occurrence in
      the whole. */
  lemma OccursInSecond(a: string, b: string, c: string, sub: string, k: nat)
    requires OccursAt(b, sub, k)
    ensures Contains(a + (b + c), sub)
  {
    OccursBeforeAppend(b, c, sub, k);
    OccursAfterPrepend(a, b + c, sub, k);
  }

  /** An occurrence in the last of four nested parts is an occurrence in
      the whole. */
  lemma OccursInFourth(a: string, b: string, c: string, d: string, sub: string, k: nat)
    requires OccursAt(d, sub, k)
    ensures Contains(a + (b + (c + d)), sub)
  {
    OccursAfterPrepend(c, d, sub, k);
    OccursAfterPrepend(b, c + d, sub, |c| + k);
    OccursAfterPrepend(a, b + (c + d), sub, |b| + (|c| + k));
  }

  /** A shorter slice from the same start is a prefix of a longer one. */
  lemma SliceStartsWith(s: string, a: nat, c: nat, b: nat)
    requires a <= c <= b <= |s|
    ensures StartsWith(s[a..b], s[a..c])
  {
    assert s[a..b][0..c - a] == s[a..c];
  }

  /** A suffix stays a suffix when text is prepended. */
  lemma EndsWithPrepend(a: string, b: string, suffix: string)
    requires EndsWith(b, suffix)
    ensures EndsWith(a + b, suffix)
  {
    assert (a + b)[|a + b| - |suffix|..] == b[|b| - |suffix|..];
  }

  /** `xs.join(sep)`. */
  function Join(xs: seq<string>, sep: string): (r: string)
    ensures |xs| == 1 ==> r == xs[0]
    decreases |xs|
  {
    if |xs| == 0 then ""
    else if |xs| == 1 then xs[0]
    else xs[0] + sep + Join(xs[1..], sep)
  }

  /** Every joined element occurs in the joined text. */
  lemma {:induction false} JoinContains(xs: seq<string>, sep: string, i: nat)
    requires i < |xs|
    ensures exists k: nat :: OccursAt(Join(xs, sep), xs[i], k)
    decreases |xs|
  {
    var r := Join(xs, sep);
    if |xs| == 1 {
      assert OccursAt(r, xs[i], 0);
    } else if i == 0 {
      assert r == xs[0] + (sep + Join(xs[1..], sep));
      assert OccursAt(r, xs[0], 0);
    } else {
      JoinContains(xs[1..], sep, i - 1);
      var rest := Join(xs[1..], sep);
      var k: nat :| OccursAt(rest, xs[1..][i - 1], k);
      OccursAfterPrepend(xs[0] + sep, rest, xs[i], k);
      assert r == (xs[0] + sep) + rest;
    }
  }

  /** `s.split('\n')[0]`: the text before the first line feed. */
  function FirstLine(s: string): (r: string)
    ensures |r| <= |s| && r == s[..|r|]
    ensures '\n' !in r
    ensures |r| < |s| ==> s[|r|] == '\n'
  {
    if |s| == 0 then ""
    else if s[0] == '\n' then ""
    else [s[0]] + FirstLine(s[1..])
  }

  function DigitChar(d: nat): char
    requires d < 10
  {
    "0123456789"[d]
  }

  /** Decimal rendering of a natural number, as template interpolation prints it. */
  function NatToString(n: nat): (r: string)
    ensures |r| > 0
    decreases n
  {
    if n < 10 then [DigitChar(n)] else NatToString(n / 10) + [DigitChar(n % 10)]
  }

  /** Decimal rendering of an integer. */
  function IntToString(n: int): string {
    if n < 0 then "-" + NatToString(-n) else NatToString(n)
  }

  /** Template interpolation of a boolean. */
  function BoolToString(b: bool): string {
    if b then "true" else "false"
  }
}
