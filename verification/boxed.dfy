/** `boxed` (tooling/utils/extractor/boxed.py): the text from the last
    `boxed{` up to, not including, the first `}` after it. */
module Boxed {
  import opened Wrappers
  import opened Errors
  import opened Strings

  const Opener: string := "boxed{"

  /** The function as written: line 9 calls `text.lfind`, which Python's
      `str` does not have, so every call raises `AttributeError` before the
      `None` check is reached. */
  function BoxedAsWritten(text: string): Result<Option<string>, Exception> {
    var _ := RFind(text, Opener);
    Err(Raised(AttributeError, "'str' object has no attribute 'lfind'"))
  }

  /** The evident intent, with `find` in place of `lfind`: the slice from the
      last `boxed{` (kept in the result) to the first `}` after it; `None`
      when either is missing. */
  function Boxed(text: string): Option<string> {
    var start := RFind(text, Opener);
    var end := Find(text, "}", start);
    if start == -1 || end == -1 then None else Some(text[start..end])
  }

  /** No `boxed{` gives `None`; after the last `boxed{`, a missing `}`
      gives `None`, and otherwise the result runs from that `boxed{` to the
      first `}` after it. */
  lemma BoxedSpec(text: string)
    ensures (forall j :: !OccursAt(text, Opener, j)) ==> Boxed(text) == None
    ensures var k := RFind(text, Opener);
      k != -1 ==> (Boxed(text) == None <==> forall j :: k <= j ==> !OccursAt(text, "}", j))
    ensures Boxed(text).Some? ==>
      var k := RFind(text, Opener);
      exists e :: k <= e && OccursAt(text, "}", e) && Boxed(text).value == text[k..e] &&
        forall j :: k <= j < e ==> !OccursAt(text, "}", j)
  {
  }

  /** A result keeps the `boxed{` prefix, holds no `}`, and no `boxed{`
      starts after the one it begins with: nesting is cut at the first
      closing brace. */
  lemma BoxedShape(text: string)
    requires Boxed(text).Some?
    ensures StartsWith(Boxed(text).value, Opener)
    ensures forall i :: 0 <= i < |Boxed(text).value| ==> Boxed(text).value[i] != '}'
    ensures var k := RFind(text, Opener);
      OccursAt(text, Opener, k) && forall j :: k < j ==> !OccursAt(text, Opener, j)
  {
    var v := Boxed(text).value;
    var k := RFind(text, Opener);
    var e := Find(text, "}", k);
    assert v == text[k..e];
    forall i | 0 <= i < |v| ensures v[i] != '}' {
      OccursChar(text, '}', k + i);
    }
    assert text[k..k + 6] == Opener;
    forall j | k <= j < k + 6 ensures !OccursAt(text, "}", j) {
      OccursChar(text, '}', j);
      assert text[j] == text[k..k + 6][j - k];
    }
    assert e >= k + 6;
    assert v[..6] == text[k..k + 6];
  }

  /** The layout `text == p + "boxed{" + s + "}" + q`. */
  predicate Layout(text: string, s: string, q: string, A: nat, C: nat) {
    C == A + |Opener| + |s| && C + 1 + |q| == |text| &&
    text[A..A + |Opener|] == Opener && text[A + |Opener|..C] == s && text[C] == '}' && text[C + 1..] == q
  }

  lemma OpenerIsLast(text: string, s: string, q: string, A: nat, C: nat, j: int)
    requires Layout(text, s, q, A, C)
    requires !Contains(s, Opener) && !Contains(q, Opener)
    requires A < j
    ensures !OccursAt(text, Opener, j)
  {
    var B := A + |Opener|;
    if j < B {
      assert text[j] == text[A..B][j - A];
      if j + 6 <= |text| {
        assert text[j..j + 6][0] == text[j];
      }
    } else if j + 6 <= C {
      OccursWithinSlice(text, B, C, Opener, j);
    } else if j <= C {
      if j + 6 <= |text| {
        assert text[j..j + 6][C - j] == text[C];
      }
    } else if j + 6 <= |text| {
      OccursWithinSlice(text, C + 1, |text|, Opener, j);
      assert text[C + 1..|text|] == q;
    }
  }

  /** `boxed(p + "boxed{" + s + "}" + q) == "boxed{" + s` when `s` holds no
      `}` and neither `s` nor `q` holds `boxed{`. */
  lemma BoxedRoundTrip(p: string, s: string, q: string)
    requires '}' !in s
    requires !Contains(s, Opener) && !Contains(q, Opener)
    ensures Boxed(p + Opener + s + "}" + q) == Some(Opener + s)
  {
    var text := p + Opener + s + "}" + q;
    var A := |p|;
    var C := A + |Opener| + |s|;
    assert Layout(text, s, q, A, C);
    assert OccursAt(text, Opener, A);
    forall j | A < j ensures !OccursAt(text, Opener, j) {
      OpenerIsLast(text, s, q, A, C, j);
    }
    RFindIs(text, Opener, A);
    OccursChar(text, '}', C);
    forall j | A <= j < C ensures !OccursAt(text, "}", j) {
      OccursChar(text, '}', j);
      if j < A + |Opener| {
        assert text[j] == text[A..A + |Opener|][j - A];
      } else {
        assert text[j] == text[A + |Opener|..C][j - A - |Opener|];
      }
    }
    FindIs(text, "}", A, C);
    assert text[A..C] == Opener + s;
  }

  lemma FracExample(t: string)
    requires t == "\\" + Opener + "\\frac{1" + "}" + "{2}}"
    ensures Boxed(t) == Some("boxed{\\frac{1")
  {
    var s := "\\frac{1";
    assert s[0..] == s;
    NoOccurrenceWithoutFirstChar(s, Opener, 0);
    BoxedRoundTrip("\\", s, "{2}}");
    assert Opener + s == "boxed{\\frac{1";
  }

  /** Nesting is cut at the first brace: `\boxed{\frac{1}{2}}` gives
      `boxed{\frac{1`. */
  lemma BoxedNestedCut()
    ensures Boxed("\\boxed{\\frac{1}{2}}") == Some("boxed{\\frac{1")
  {
    FracExample("\\boxed{\\frac{1}{2}}");
  }

  /** The defect: as written, `boxed` fails on every input, including one
      where the evident intent extracts a value. */
  lemma BoxedLfindDefect(text: string)
    ensures BoxedAsWritten(text).Err? && BoxedAsWritten(text).error.Raised?
    ensures BoxedAsWritten(text).error.kind == AttributeError
    ensures Boxed("\\boxed{42}") == Some("boxed{42")
  {
    FortyTwoExample("\\boxed{42}");
  }

  lemma FortyTwoExample(t: string)
    requires t == "\\" + Opener + "42" + "}" + ""
    ensures Boxed(t) == Some("boxed{42")
  {
    BoxedRoundTrip("\\", "42", "");
    assert Opener + "42" == "boxed{42";
  }
}
