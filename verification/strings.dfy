/** The Python string operations the extractors and decoders rely on:
    `find`, `rfind`, `startswith` and `strip`, over `seq<char>`. */
module Strings {

  /** `w` occurs in `t` starting at index `i`. */
  predicate OccursAt(t: string, w: string, i: int) {
    0 <= i && i + |w| <= |t| && t[i..i + |w|] == w
  }

  /** `w in t` for two strings. */
  predicate Contains(t: string, w: string) {
    exists i | 0 <= i <= |t| :: OccursAt(t, w, i)
  }

  /** How `str.find` reads its `start` argument: a negative start counts
      from the end and is clipped at 0. */
  function StartIndex(t: string, start: int): (s: nat)
    ensures start >= 0 ==> s == start
  {
    if start >= 0 then start else if |t| + start >= 0 then |t| + start else 0
  }

  /** The first occurrence of `w` at or after `i`, or -1. */
  function FindFrom(t: string, w: string, i: nat): (r: int)
    decreases |t| - i
    ensures r == -1 || (i <= r && OccursAt(t, w, r))
    ensures r == -1 ==> forall j :: i <= j ==> !OccursAt(t, w, j)
    ensures r != -1 ==> forall j :: i <= j < r ==> !OccursAt(t, w, j)
  {
    if |t| < i + |w| then -1
    else if OccursAt(t, w, i) then i
    else FindFrom(t, w, i + 1)
  }

  /** `t.find(w, start)`. */
  function Find(t: string, w: string, start: int): (r: int)
    ensures r == -1 || (StartIndex(t, start) <= r && OccursAt(t, w, r))
    ensures r == -1 ==> forall j :: StartIndex(t, start) <= j ==> !OccursAt(t, w, j)
    ensures r != -1 ==> forall j :: StartIndex(t, start) <= j < r ==> !OccursAt(t, w, j)
  {
    FindFrom(t, w, StartIndex(t, start))
  }

  /** The last occurrence of `w` starting below `n`, or -1. */
  function RFindBelow(t: string, w: string, n: nat): (r: int)
    ensures r == -1 || (0 <= r < n && OccursAt(t, w, r))
    ensures r == -1 ==> forall j :: j < n ==> !OccursAt(t, w, j)
    ensures r != -1 ==> forall j :: r < j < n ==> !OccursAt(t, w, j)
  {
    if n == 0 then -1
    else if OccursAt(t, w, n - 1) then n - 1
    else RFindBelow(t, w, n - 1)
  }

  /** `t.rfind(w)`: the last occurrence of `w`, or -1 when there is none. */
  function RFind(t: string, w: string): (r: int)
    ensures r == -1 <==> forall j :: !OccursAt(t, w, j)
    ensures r != -1 ==> OccursAt(t, w, r) && forall j :: r < j ==> !OccursAt(t, w, j)
  {
    RFindBelow(t, w, |t| + 1)
  }

  /** An occurrence with none after it is what `rfind` returns. */
  lemma RFindIs(t: string, w: string, k: int)
    requires OccursAt(t, w, k)
    requires forall j :: k < j ==> !OccursAt(t, w, j)
    ensures RFind(t, w) == k
  {
  }

  /** An occurrence at or after `i` with none between is what `find`
      returns. */
  lemma FindIs(t: string, w: string, i: nat, k: int)
    requires i <= k && OccursAt(t, w, k)
    requires forall j :: i <= j < k ==> !OccursAt(t, w, j)
    ensures Find(t, w, i) == k
  {
  }

  /** `t.startswith(p)`. */
  predicate StartsWith(t: string, p: string) {
    |p| <= |t| && t[..|p|] == p
  }

  /** The ASCII whitespace that `strip()` removes. */
  predicate IsSpace(c: char) {
    c == ' ' || c == '\t' || c == '\n' || c == '\r' || c == '\U{000B}' || c == '\U{000C}'
  }

  function StripLeft(t: string): (r: string)
    ensures |r| <= |t| && r == t[|t| - |r|..]
    ensures |r| > 0 ==> !IsSpace(r[0])
    ensures forall i :: 0 <= i < |t| - |r| ==> IsSpace(t[i])
  {
    if |t| > 0 && IsSpace(t[0]) then StripLeft(t[1..]) else t
  }

  function StripRight(t: string): (r: string)
    ensures |r| <= |t| && r == t[..|r|]
    ensures |r| > 0 ==> !IsSpace(r[|r| - 1])
    ensures forall i :: |r| <= i < |t| ==> IsSpace(t[i])
  {
    if |t| > 0 && IsSpace(t[|t| - 1]) then StripRight(t[..|t| - 1]) else t
  }

  /** `t.strip()`: `t` without leading and trailing whitespace. */
  function Strip(t: string): (r: string)
    ensures |r| <= |t|
    ensures |r| > 0 ==> !IsSpace(r[0]) && !IsSpace(r[|r| - 1])
    ensures exists a, b :: (0 <= a <= b <= |t| && r == t[a..b] &&
                            forall i :: (0 <= i < a || b <= i < |t|) ==> IsSpace(t[i]))
  {
    var l := StripLeft(t);
    var r := StripRight(l);
    TrimmedEnds(t, |t| - |l|, l, r);
    r
  }

  /** Trimming `t[a..]` down to its prefix `r` leaves a slice of `t` whose cut-off ends are whitespace. */
  lemma TrimmedEnds(t: string, a: nat, l: string, r: string)
    requires a <= |t| && l == t[a..] && |r| <= |l| && r == l[..|r|]
    requires forall i :: 0 <= i < a ==> IsSpace(t[i])
    requires forall i :: |r| <= i < |l| ==> IsSpace(l[i])
    ensures exists a, b :: (0 <= a <= b <= |t| && r == t[a..b] &&
                            forall i :: (0 <= i < a || b <= i < |t|) ==> IsSpace(t[i]))
  {
    var b := a + |r|;
    assert r == t[a..b];
    assert forall i :: b <= i < |t| ==> l[i - a] == t[i];
  }

  /** A string without whitespace is its own `strip()`. */
  lemma StripNoSpace(t: string)
    requires forall i :: 0 <= i < |t| ==> !IsSpace(t[i])
    ensures Strip(t) == t
  {
    assert StripLeft(t) == t;
    assert StripRight(t) == t;
  }

  /** Leading whitespace before a text that starts with a non-space is
      what `lstrip()` removes. */
  lemma {:induction false} StripLeftPadded(pre: string, y: string)
    requires forall i :: 0 <= i < |pre| ==> IsSpace(pre[i])
    requires |y| > 0 && !IsSpace(y[0])
    ensures StripLeft(pre + y) == y
  {
    if |pre| == 0 {
      assert pre + y == y;
    } else {
      assert (pre + y)[1..] == pre[1..] + y;
      StripLeftPadded(pre[1..], y);
    }
  }

  /** Trailing whitespace after a text that ends with a non-space is what
      `rstrip()` removes. */
  lemma {:induction false} StripRightPadded(y: string, post: string)
    requires forall i :: 0 <= i < |post| ==> IsSpace(post[i])
    requires |y| > 0 && !IsSpace(y[|y| - 1])
    ensures StripRight(y + post) == y
  {
    if |post| == 0 {
      assert y + post == y;
    } else {
      var p := post[..|post| - 1];
      assert (y + post)[..|y + post| - 1] == y + p;
      StripRightPadded(y, p);
    }
  }

  /** Whitespace around a text whose ends are not whitespace is exactly what
      `strip()` removes. */
  lemma StripPadded(pre: string, x: string, post: string)
    requires forall i :: 0 <= i < |pre| ==> IsSpace(pre[i])
    requires forall i :: 0 <= i < |post| ==> IsSpace(post[i])
    requires |x| > 0 && !IsSpace(x[0]) && !IsSpace(x[|x| - 1])
    ensures Strip(pre + x + post) == x
  {
    assert pre + x + post == pre + (x + post);
    StripLeftPadded(pre, x + post);
    StripRightPadded(x, post);
  }

  /** An occurrence inside a slice is an occurrence in the whole string. */
  lemma OccursInSlice(t: string, a: nat, b: nat, w: string, p: int)
    requires a <= b <= |t|
    ensures OccursAt(t[a..b], w, p) ==> OccursAt(t, w, a + p)
  {
    if OccursAt(t[a..b], w, p) {
      forall m | 0 <= m < |w| ensures t[a + p + m] == w[m] {
        assert t[a..b][p..p + |w|][m] == w[m];
      }
    }
  }

  /** An occurrence that lies inside `t[a..b]` is an occurrence in that slice. */
  lemma OccursWithinSlice(t: string, a: nat, b: nat, w: string, i: int)
    requires a <= i && i + |w| <= b <= |t|
    ensures OccursAt(t, w, i) ==> OccursAt(t[a..b], w, i - a)
  {
    if OccursAt(t, w, i) {
      forall m | 0 <= m < |w| ensures t[a..b][i - a + m] == w[m] {
        assert t[i..i + |w|][m] == w[m];
      }
    }
  }

  /** If `w` has `c` only at its first position, an occurrence of `w` never
      covers a `c` of the text anywhere but at its own start. */
  lemma NoInnerChar(t: string, w: string, c: char, i: int, k: int)
    requires forall m :: 0 < m < |w| ==> w[m] != c
    requires 0 <= i < k < i + |w| && k < |t| && t[k] == c
    ensures !OccursAt(t, w, i)
  {
    if i + |w| <= |t| {
      assert t[i..i + |w|][k - i] == t[k];
    }
  }

  /** If `t` has no character equal to the first character of `w` at or after
      `k`, then `w` does not occur at or after `k`. */
  lemma NoOccurrenceWithoutFirstChar(t: string, w: string, k: nat)
    requires |w| > 0 && k <= |t|
    requires w[0] !in t[k..]
    ensures forall j :: k <= j ==> !OccursAt(t, w, j)
  {
    forall j | k <= j
      ensures !OccursAt(t, w, j)
    {
      if j + |w| <= |t| {
        assert t[j..j + |w|][0] == t[j] == t[k..][j - k];
      }
    }
  }

  /** A single-character pattern occurs exactly where that character is. */
  lemma OccursChar(t: string, c: char, i: int)
    ensures OccursAt(t, [c], i) <==> 0 <= i < |t| && t[i] == c
  {
    if 0 <= i < |t| {
      assert t[i..i + 1] == [t[i]];
    }
  }
}
