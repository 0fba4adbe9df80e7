/**
 * Characters and strings as the extractor sees them: ASCII case folding
 * (`str.lower()`), the `in` substring test, the ASCII classes behind the
 * regular-expression escapes `\d` and `\s`, and `int()` on a digit string.
 */
module Text {

  /** `\d` and the digits `int()` accepts, restricted to ASCII. */
  predicate IsDigit(c: char) {
    '0' <= c <= '9'
  }

  /** `\s` restricted to ASCII: tab, line feed, vertical tab, form feed,
      carriage return, the separators 0x1C-0x1F, and space. */
  predicate IsSpace(c: char) {
    c == ' ' || '\t' <= c <= '\r' || '\U{1C}' <= c <= '\U{1F}'
  }

  predicate IsUpper(c: char) {
    'A' <= c <= 'Z'
  }

  /** `str.lower()` on one ASCII character. */
  function LowerChar(c: char): (r: char)
    ensures !IsUpper(r)
    ensures IsUpper(c) ==> r as int == c as int + 32
    ensures !IsUpper(c) ==> r == c
  {
    if IsUpper(c) then (c as int + 32) as char else c
  }

  /** `str.lower()`, character by character. */
  function Lower(s: string): (r: string)
    ensures |r| == |s|
    ensures forall i :: 0 <= i < |s| ==> r[i] == LowerChar(s[i])
  {
    seq(|s|, i requires 0 <= i < |s| => LowerChar(s[i]))
  }

  lemma LowerAppend(a: string, b: string)
    ensures Lower(a + b) == Lower(a) + Lower(b)
  {
    assert forall i :: 0 <= i < |a + b| ==> Lower(a + b)[i] == (Lower(a) + Lower(b))[i];
  }

  /** Text with no upper-case letter is its own lower case. */
  lemma LowerKeepsLower(s: string)
    requires forall i :: 0 <= i < |s| ==> !IsUpper(s[i])
    ensures Lower(s) == s
  {
  }

  /** `w` occurs in `s` at position `i`. */
  predicate StartsAt(s: string, i: nat, w: string) {
    i + |w| <= |s| && s[i..i + |w|] == w
  }

  /** Python's `w in s` on strings. */
  predicate Contains(s: string, w: string) {
    exists i: nat | i <= |s| :: StartsAt(s, i, w)
  }

  /** Python's `any(w in s for w in ws)`. */
  predicate ContainsAny(s: string, ws: seq<string>) {
    exists k | 0 <= k < |ws| :: Contains(s, ws[k])
  }

  /** An occurrence of `w` that lies inside `s[k..e]` is an occurrence in that slice. */
  lemma ContainsInSlice(s: string, k: nat, e: nat, x: nat, w: string)
    requires k <= x && x + |w| <= e <= |s|
    requires StartsAt(s, x, w)
    ensures Contains(s[k..e], w)
  {
    forall j | 0 <= j < |w|
      ensures s[k..e][x - k..x - k + |w|][j] == w[j]
    {
      assert s[x..x + |w|][j] == w[j];
    }
    assert s[k..e][x - k..x - k + |w|] == w;
    assert StartsAt(s[k..e], x - k, w);
  }

  /** Whoever contains `big` contains every word that occurs inside `big`. */
  lemma ContainsWithin(s: string, big: string, w: string, off: nat)
    requires StartsAt(big, off, w)
    requires Contains(s, big)
    ensures Contains(s, w)
  {
    var i: nat :| i <= |s| && StartsAt(s, i, big);
    forall j | 0 <= j < |w|
      ensures s[i + off..i + off + |w|][j] == w[j]
    {
      assert s[i..i + |big|][off + j] == big[off + j];
      assert big[off..off + |w|][j] == w[j];
    }
    assert s[i + off..i + off + |w|] == w;
    assert StartsAt(s, i + off, w);
  }

  /** The characters of an occurrence, one by one. */
  lemma StartsAtChars(s: string, i: nat, w: string)
    requires StartsAt(s, i, w)
    ensures forall x :: 0 <= x < |w| ==> s[i + x] == w[x]
  {
    forall x | 0 <= x < |w|
      ensures s[i + x] == w[x]
    {
      assert s[i..i + |w|][x] == s[i + x];
    }
  }

  /** Part of an occurrence is an occurrence of that part. */
  lemma StartsAtPart(s: string, i: nat, w: string, a: nat, b: nat)
    requires StartsAt(s, i, w) && a <= b <= |w|
    ensures StartsAt(s, i + a, w[a..b])
  {
    StartsAtChars(s, i, w);
    assert s[i + a..i + b] == w[a..b];
  }

  /** A word found in the middle part is found in the whole. */
  lemma ContainsInMiddle(a: string, b: string, c: string, w: string)
    requires Contains(b, w)
    ensures Contains(a + b + c, w)
  {
    var i: nat :| i <= |b| && StartsAt(b, i, w);
    forall x | 0 <= x < |w|
      ensures (a + b + c)[|a| + i + x] == w[x]
    {
      assert b[i..i + |w|][x] == b[i + x];
    }
    assert (a + b + c)[|a| + i..|a| + i + |w|] == w;
    assert StartsAt(a + b + c, |a| + i, w);
  }

  /** The middle part of a concatenation, cut out again. */
  lemma MiddleOf(a: string, b: string, c: string)
    ensures (a + b + c)[|a|..|a| + |b|] == b
    ensures forall x :: 0 <= x < |b| ==> (a + b + c)[|a| + x] == b[x]
  {
    assert (a + b + c)[|a|..|a| + |b|] == b;
  }

  /** A word with a character that never occurs in `s` does not occur in `s`. */
  lemma NotContainsAbsentChar(s: string, w: string, x: nat)
    requires x < |w| && w[x] !in s
    ensures !Contains(s, w)
  {
    forall i: nat | i <= |s|
      ensures !StartsAt(s, i, w)
    {
      if i + |w| <= |s| {
        assert s[i..i + |w|][x] == s[i + x];
        assert s[i + x] in s;
      }
    }
  }

  /** `w` has no space in it. */
  predicate SpaceFree(w: string) {
    forall x :: 0 <= x < |w| ==> w[x] != ' '
  }

  /** No character of an occurrence of a space-free word is a space. */
  lemma SpaceFreeOccurrence(s: string, i: nat, w: string, p: nat)
    requires StartsAt(s, i, w) && SpaceFree(w)
    ensures i <= p < i + |w| ==> s[p] != ' '
  {
    if i <= p < i + |w| {
      assert s[i..i + |w|][p - i] == s[p];
    }
  }

  /** An occurrence of a space-free word in `a + " " + b` lies wholly in
      `a` or wholly in `b`: it cannot straddle the space. */
  lemma OccurrenceBesideSpace(a: string, b: string, w: string, i: nat)
    requires SpaceFree(w)
    ensures StartsAt(a + " " + b, i, w) ==>
      StartsAt(a, i, w) || (i >= |a| + 1 && StartsAt(b, i - |a| - 1, w))
  {
    var s := a + " " + b;
    if StartsAt(s, i, w) {
      SpaceFreeOccurrence(s, i, w, |a|);
      assert s[|a|] == ' ';
      if i + |w| <= |a| {
        assert s[i..i + |w|] == a[i..i + |w|];
      } else if i >= |a| + 1 {
        assert s[i..i + |w|] == b[i - |a| - 1..i - |a| - 1 + |w|];
      }
    }
  }

  /** The character classes that greedy repetitions in the patterns run over. */
  datatype CharClass = SpaceClass | DigitClass | ColonOrSpaceClass

  predicate InClass(c: char, k: CharClass) {
    match k
    case SpaceClass => IsSpace(c)
    case DigitClass => IsDigit(c)
    case ColonOrSpaceClass => c == ':' || IsSpace(c)
  }

  /** Where a greedy `[k]*` that starts at `i` stops. */
  function RunEnd(s: string, i: nat, k: CharClass): (j: nat)
    requires i <= |s|
    decreases |s| - i
    ensures i <= j <= |s|
    ensures forall x :: i <= x < j ==> InClass(s[x], k)
    ensures j == |s| || !InClass(s[j], k)
  {
    if i < |s| && InClass(s[i], k) then RunEnd(s, i + 1, k) else i
  }

  /** A run of class `k` from `i` to `e` that stops at `e` is where `RunEnd` stops. */
  lemma {:induction false} RunEndAt(s: string, i: nat, e: nat, k: CharClass)
    requires i <= e <= |s|
    requires forall x :: i <= x < e ==> InClass(s[x], k)
    requires e == |s| || !InClass(s[e], k)
    decreases e - i
    ensures RunEnd(s, i, k) == e
  {
    if i < e {
      RunEndAt(s, i + 1, e, k);
    }
  }

  /** A greedy run depends on nothing before its start. */
  lemma {:induction false} RunEndShift(p: string, y: string, j: nat, k: CharClass)
    requires j <= |y|
    decreases |y| - j
    ensures RunEnd(p + y, |p| + j, k) == |p| + RunEnd(y, j, k)
  {
    if j < |y| {
      assert (p + y)[|p| + j] == y[j];
      if InClass(y[j], k) {
        RunEndShift(p, y, j + 1, k);
      }
    }
  }

  function DigitValue(c: char): nat
    requires IsDigit(c)
  {
    c as int - '0' as int
  }

  predicate AllDigits(d: string) {
    forall j :: 0 <= j < |d| ==> IsDigit(d[j])
  }

  /** `int(d)` for a string of ASCII digits (leading zeros allowed, as in Python). */
  function DecimalValue(d: string): (n: nat)
    requires AllDigits(d)
    ensures |d| == 1 ==> n == DigitValue(d[0])
    decreases |d|
  {
    if d == [] then 0 else 10 * DecimalValue(d[..|d| - 1]) + DigitValue(d[|d| - 1])
  }

  function DigitChar(v: nat): (c: char)
    requires v < 10
    ensures IsDigit(c) && DigitValue(c) == v
  {
    ('0' as int + v) as char
  }

  /** `str(n)`: the decimal numeral of `n`, without leading zeros. */
  function DecimalString(n: nat): (d: string)
    ensures |d| > 0 && AllDigits(d)
  {
    if n < 10 then [DigitChar(n)] else DecimalString(n / 10) + [DigitChar(n % 10)]
  }

  /** `int(str(n)) == n`. */
  lemma {:induction false} DecimalRoundTrip(n: nat)
    ensures DecimalValue(DecimalString(n)) == n
  {
    if n >= 10 {
      var d := DecimalString(n);
      assert d[..|d| - 1] == DecimalString(n / 10);
      DecimalRoundTrip(n / 10);
    }
  }
}
