/** tooling/utils/extractor/extractors.py: a second copy of `boxed` and of
    `xml_tag_extractor`, written out again rather than imported. */
module Extractors {
  import opened Wrappers
  import opened Errors
  import opened Strings
  import X = XmlTags
  import B = Boxed

  /** The copy of `boxed` as written: the same call to the missing
      `str.lfind` (line 9), so every call raises `AttributeError`. */
  function BoxedAsWritten(text: string): (r: Result<Option<string>, Exception>)
    ensures r == B.BoxedAsWritten(text)
    ensures r.Err? && r.error == Raised(AttributeError, "'str' object has no attribute 'lfind'")
  {
    var _ := RFind(text, B.Opener);
    Err(Raised(AttributeError, "'str' object has no attribute 'lfind'"))
  }

  /** The copy of `boxed` with `find` for `lfind`; it agrees with the
      definition in the `Boxed` module on every input. */
  function Boxed(text: string): (r: Option<string>)
    ensures r == B.Boxed(text)
  {
    var start := RFind(text, "boxed{");
    var end := Find(text, "}", start);
    if start == -1 || end == -1 then None else Some(text[start..end])
  }

  /** The copy of `xml_tag_extractor`; it agrees with the definition in the
      `XmlTags` module on every input. */
  function XmlTagExtractor(text: string, tag: string): (r: Option<string>)
    ensures r == X.XmlTagExtractor(text, tag)
  {
    var start := RFind(text, "<" + tag + ">");
    var valueStart := start + |"<" + tag + ">"|;
    var end := Find(text, "</" + tag + ">", valueStart);
    if start == -1 || end == -1 then None else Some(text[valueStart..end])
  }

  /** The copy's result lies between the last opening tag and the first
      closing tag after it, and holds neither marker. */
  lemma XmlTagCopyBetweenMarkers(text: string, tag: string)
    requires XmlTagExtractor(text, tag).Some?
    ensures var k := RFind(text, X.Open(tag));
      var a := k + |X.Open(tag)|;
      exists e :: a <= e && OccursAt(text, X.Close(tag), e) &&
        XmlTagExtractor(text, tag).value == text[a..e]
    ensures !Contains(XmlTagExtractor(text, tag).value, X.Close(tag))
    ensures !Contains(XmlTagExtractor(text, tag).value, X.Open(tag))
  {
    X.XmlTagExtractorSpec(text, tag);
    X.XmlTagMarkerFree(text, tag);
  }

  /** The copy's `boxed` result keeps the `boxed{` prefix and holds no `}`. */
  lemma BoxedCopyShape(text: string)
    requires Boxed(text).Some?
    ensures StartsWith(Boxed(text).value, "boxed{")
    ensures '}' !in Boxed(text).value
  {
    B.BoxedShape(text);
  }
}
