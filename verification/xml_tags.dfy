/** `xml_tag_extractor` (tooling/utils/extractor/xml_tags.py): the text
    between the LAST opening tag and the FIRST closing tag after it. */
module XmlTags {
  import opened Wrappers
  import opened Strings

  function Open(tag: string): string {
    "<" + tag + ">"
  }

  function Close(tag: string): string {
    "</" + tag + ">"
  }

  /** `xml_tag_extractor(text, tag)`: `rfind` of the opening tag, then
      `find` of the closing tag from the end of it. */
  function XmlTagExtractor(text: string, tag: string): Option<string> {
    var start := RFind(text, Open(tag));
    var valueStart := start + |Open(tag)|;
    var end := Find(text, Close(tag), valueStart);
    if start == -1 || end == -1 then None else Some(text[valueStart..end])
  }

  /** The last `<tag>` is paired with the first `</tag>` that begins at or
      after its end; the result is `None` when either is missing, and may be
      the empty string, which is not `None`. */
  lemma XmlTagExtractorSpec(text: string, tag: string)
    ensures (forall j :: !OccursAt(text, Open(tag), j)) ==> XmlTagExtractor(text, tag) == None
    ensures var k := RFind(text, Open(tag)); var a := k + |Open(tag)|;
      k != -1 ==> (XmlTagExtractor(text, tag) == None <==> forall j :: a <= j ==> !OccursAt(text, Close(tag), j))
    ensures XmlTagExtractor(text, tag).Some? ==>
      var k := RFind(text, Open(tag)); var a := k + |Open(tag)|;
      exists e :: a <= e && OccursAt(text, Close(tag), e) && XmlTagExtractor(text, tag).value == text[a..e] &&
        forall j :: a <= j < e ==> !OccursAt(text, Close(tag), j)
  {
  }

  /** An extracted value never contains the closing tag (it stops at the
      first one) nor the opening tag (it starts after the last one). */
  lemma XmlTagMarkerFree(text: string, tag: string)
    requires XmlTagExtractor(text, tag).Some?
    ensures !Contains(XmlTagExtractor(text, tag).value, Close(tag))
    ensures !Contains(XmlTagExtractor(text, tag).value, Open(tag))
  {
    var v := XmlTagExtractor(text, tag).value;
    var k := RFind(text, Open(tag));
    var a := k + |Open(tag)|;
    var e := Find(text, Close(tag), a);
    assert v == text[a..e];
    forall p ensures !OccursAt(v, Close(tag), p) && !OccursAt(v, Open(tag), p) {
      OccursInSlice(text, a, e, Close(tag), p);
      OccursInSlice(text, a, e, Open(tag), p);
    }
  }

  predicate NoAngles(tag: string) {
    forall i :: 0 <= i < |tag| ==> tag[i] != '<' && tag[i] != '>'
  }

  /** Only the first character of `<tag>` and of `</tag>` is `<`. */
  lemma AngleOnlyFirst(tag: string)
    requires NoAngles(tag)
    ensures forall m :: 0 < m < |Open(tag)| ==> Open(tag)[m] != '<'
    ensures forall m :: 0 < m < |Close(tag)| ==> Close(tag)[m] != '<'
  {
  }

  /** `<tag>` never occurs at the start of `</tag>`. */
  lemma OpenNotAtClose(tag: string, t: string, c: nat)
    requires NoAngles(tag)
    requires c + |Close(tag)| <= |t| && t[c..c + |Close(tag)|] == Close(tag)
    ensures !OccursAt(t, Open(tag), c)
  {
    var n := |tag| + 1;
    assert Open(tag)[n] == '>';
    assert Close(tag)[n] != '>';
    assert t[c..c + |Close(tag)|][n] == t[c + n];
    assert t[c..c + |Open(tag)|][n] == t[c + n];
  }

  /** The layout `text == p + <tag> + s + </tag> + q`, by the four
      boundaries A <= B <= C <= D. */
  predicate Layout(text: string, tag: string, s: string, q: string, A: nat, B: nat, C: nat, D: nat) {
    B == A + |Open(tag)| && C == B + |s| && D == C + |Close(tag)| && D + |q| == |text| &&
    text[A..B] == Open(tag) && text[B..C] == s && text[C..D] == Close(tag) && text[D..] == q
  }

  lemma LayoutOf(p: string, tag: string, s: string, q: string)
    ensures var text := p + Open(tag) + s + Close(tag) + q;
      Layout(text, tag, s, q, |p|, |p| + |Open(tag)|, |p| + |Open(tag)| + |s|, |p| + |Open(tag)| + |s| + |Close(tag)|)
  {
  }

  /** No opening tag starts after A in the layout. */
  lemma OpenIsLast(text: string, tag: string, s: string, q: string, A: nat, B: nat, C: nat, D: nat, j: int)
    requires NoAngles(tag) && Layout(text, tag, s, q, A, B, C, D)
    requires !Contains(s, Open(tag)) && !Contains(q, Open(tag))
    requires A < j
    ensures !OccursAt(text, Open(tag), j)
  {
    var open := Open(tag);
    AngleOnlyFirst(tag);
    assert text[C] == '<' by { assert text[C..D][0] == Close(tag)[0]; }
    if j < B {
      assert text[j] == text[A..B][j - A];
      if j + |open| <= |text| {
        assert text[j..j + |open|][0] == text[j];
      }
    } else if j < C {
      if j + |open| <= C {
        OccursWithinSlice(text, B, C, open, j);
      } else {
        NoInnerChar(text, open, '<', j, C);
      }
    } else if j == C {
      OpenNotAtClose(tag, text, C);
    } else if j < D {
      assert text[j] == text[C..D][j - C];
      if j + |open| <= |text| {
        assert text[j..j + |open|][0] == text[j];
      }
    } else if j + |open| <= |text| {
      OccursWithinSlice(text, D, |text|, open, j);
      assert text[D..|text|] == q;
    }
  }

  /** No closing tag starts in [B, C) in the layout. */
  lemma CloseIsFirst(text: string, tag: string, s: string, q: string, A: nat, B: nat, C: nat, D: nat, j: int)
    requires NoAngles(tag) && Layout(text, tag, s, q, A, B, C, D)
    requires !Contains(s, Close(tag))
    requires B <= j < C
    ensures !OccursAt(text, Close(tag), j)
  {
    AngleOnlyFirst(tag);
    assert text[C] == '<' by { assert text[C..D][0] == Close(tag)[0]; }
    if j + |Close(tag)| <= C {
      OccursWithinSlice(text, B, C, Close(tag), j);
    } else {
      NoInnerChar(text, Close(tag), '<', j, C);
    }
  }

  /** Extracting from `p + "<tag>" + s + "</tag>" + q` gives back `s` when `s`
      holds neither tag and `q` holds no opening tag. */
  lemma XmlTagRoundTrip(p: string, tag: string, s: string, q: string)
    requires NoAngles(tag)
    requires !Contains(s, Open(tag)) && !Contains(s, Close(tag))
    requires !Contains(q, Open(tag))
    ensures XmlTagExtractor(p + Open(tag) + s + Close(tag) + q, tag) == Some(s)
  {
    var text := p + Open(tag) + s + Close(tag) + q;
    var B := |p| + |Open(tag)|;
    LastOpenAt(p, tag, s, q);
    FirstCloseAt(p, tag, s, q);
    ExtractorAt(text, tag, |p|, B + |s|);
    assert text[B..B + |s|] == s;
  }

  /** In the layout, the last `<tag>` is the one after `p`. */
  lemma LastOpenAt(p: string, tag: string, s: string, q: string)
    requires NoAngles(tag)
    requires !Contains(s, Open(tag)) && !Contains(q, Open(tag))
    ensures RFind(p + Open(tag) + s + Close(tag) + q, Open(tag)) == |p|
  {
    var text := p + Open(tag) + s + Close(tag) + q;
    var A := |p|;
    var B := A + |Open(tag)|;
    var C := B + |s|;
    var D := C + |Close(tag)|;
    LayoutOf(p, tag, s, q);
    assert OccursAt(text, Open(tag), A);
    forall j | A < j ensures !OccursAt(text, Open(tag), j) {
      OpenIsLast(text, tag, s, q, A, B, C, D, j);
    }
    RFindIs(text, Open(tag), A);
  }

  /** In the layout, the first `</tag>` after the opener ends `s`. */
  lemma FirstCloseAt(p: string, tag: string, s: string, q: string)
    requires NoAngles(tag)
    requires !Contains(s, Close(tag))
    ensures Find(p + Open(tag) + s + Close(tag) + q, Close(tag), |p| + |Open(tag)|) ==
      |p| + |Open(tag)| + |s|
  {
    var text := p + Open(tag) + s + Close(tag) + q;
    var A := |p|;
    var B := A + |Open(tag)|;
    var C := B + |s|;
    var D := C + |Close(tag)|;
    LayoutOf(p, tag, s, q);
    assert OccursAt(text, Close(tag), C);
    forall j | B <= j < C ensures !OccursAt(text, Close(tag), j) {
      CloseIsFirst(text, tag, s, q, A, B, C, D, j);
    }
    FindIs(text, Close(tag), B, C);
  }

  /** The extractor's value once both tags are located. */
  lemma ExtractorAt(text: string, tag: string, a: int, c: int)
    requires a != -1 && RFind(text, Open(tag)) == a
    requires c != -1 && Find(text, Close(tag), a + |Open(tag)|) == c
    ensures a + |Open(tag)| <= c <= |text|
    ensures XmlTagExtractor(text, tag) == Some(text[a + |Open(tag)|..c])
  {
  }

  /** The final verdict tag wins: `"<answer>1</answer>..<answer>2</answer>"`
      gives `"2"`. */
  lemma XmlTagLastAnswerWins()
    ensures XmlTagExtractor("<answer>1</answer>..<answer>2</answer>", "answer") == Some("2")
  {
    assert "<answer>1</answer>..<answer>2</answer>" == "<answer>1</answer>.." + Open("answer") + "2" + Close("answer") + "";
    XmlTagRoundTrip("<answer>1</answer>..", "answer", "2", "");
  }

  lemma TailHasNoOpen()
    ensures !Contains("z</a>", Open("a"))
  {
    var q := "z</a>";
    forall j | 0 <= j <= |q| ensures !OccursAt(q, Open("a"), j) {
      if j + 3 <= |q| {
        assert q[j..j + 3][0] == q[j];
        assert q[j..j + 3][1] == q[j + 1];
      }
    }
  }

  /** Last opener, first closer: `"<a>x<a>y</a>z</a>"` gives `"y"`. */
  lemma XmlTagFirstCloseAfterLastOpen()
    ensures XmlTagExtractor("<a>x<a>y</a>z</a>", "a") == Some("y")
  {
    NestedExample("<a>x<a>y</a>z</a>");
  }

  /** In the same text the last closing tag starts at 13, so pairing the
      last opener with the last closer would have given `"y</a>z"`. */
  lemma LastCloseWouldDiffer()
    ensures OccursAt("<a>x<a>y</a>z</a>", Close("a"), 13)
    ensures forall j :: 13 < j ==> !OccursAt("<a>x<a>y</a>z</a>", Close("a"), j)
    ensures "<a>x<a>y</a>z</a>"[7..13] == "y</a>z"
  {
  }

  lemma NestedExample(t: string)
    requires t == "<a>x" + Open("a") + "y" + Close("a") + "z</a>"
    ensures XmlTagExtractor(t, "a") == Some("y")
  {
    TailHasNoOpen();
    XmlTagRoundTrip("<a>x", "a", "y", "z</a>");
  }

  /** A closing tag before the last opener does not count:
      `"</a><a>x"` gives `None`. */
  lemma XmlTagEarlierCloseIgnored()
    ensures XmlTagExtractor("</a><a>x", "a") == None
  {
    var t := "</a><a>x";
    assert OccursAt(t, Open("a"), 4);
    assert !OccursAt(t, Open("a"), 5) by { assert t[5] == 'a'; }
  }
}
