/** tooling/utils/extractor/combined.py: `CombinedParser` chains parsers,
    feeding each one the previous one's output. A parser may raise; the
    exception then leaves the loop, and the parsers after it do not run. */
module Combined {
  import opened Wrappers
  import opened Errors
  import XmlTags
  import Boxed
  import Strings

  /** A parser: its output for an input, or the exception it raises. */
  type Parser<!T> = T -> Result<T, Exception>

  /** The parsers applied in order to `t`: `ps[n-1](... ps[0](t))`, or the
      exception of the first parser that raises. */
  function Pipeline<T>(ps: seq<Parser<T>>, t: T): Result<T, Exception>
  {
    if |ps| == 0 then Ok(t)
    else
      var x :- Pipeline(ps[..|ps| - 1], t);
      ps[|ps| - 1](x)
  }

  /** The same order, read from the front: apply `ps[0]`, then run the rest
      on its output unless it raised. */
  function ApplyFrom<T>(ps: seq<Parser<T>>, t: T): Result<T, Exception>
  {
    if |ps| == 0 then Ok(t)
    else
      var x :- ps[0](t);
      ApplyFrom(ps[1..], x)
  }

  /** Splitting the parsers in two: running all of them is running the
      first group, then the second group on its output; an exception in the
      first group is the outcome, and the second group never runs. */
  lemma {:induction false} PipelineSplit<T>(a: seq<Parser<T>>, b: seq<Parser<T>>, t: T)
    ensures Pipeline(a, t).Err? ==> Pipeline(a + b, t) == Pipeline(a, t)
    ensures Pipeline(a, t).Ok? ==> Pipeline(a + b, t) == Pipeline(b, Pipeline(a, t).value)
  {
    if |b| == 0 {
      assert a + b == a;
    } else {
      var b' := b[..|b| - 1];
      assert (a + b)[..|a + b| - 1] == a + b';
      assert (a + b)[|a + b| - 1] == b[|b| - 1];
      PipelineSplit(a, b', t);
    }
  }

  /** The fold read from the back and from the front agree: the first parser
      runs first and the last one produces the result. */
  lemma {:induction false} PipelineFirstToLast<T>(ps: seq<Parser<T>>, t: T)
    ensures Pipeline(ps, t) == ApplyFrom(ps, t)
  {
    if |ps| > 0 {
      PipelineSplit([ps[0]], ps[1..], t);
      assert [ps[0]] + ps[1..] == ps;
      assert [ps[0]][..0] == [];
      if ps[0](t).Ok? {
        PipelineFirstToLast(ps[1..], ps[0](t).value);
      }
    }
  }

  /** A single parser behaves exactly as that parser. */
  lemma PipelineSingle<T>(p: Parser<T>, t: T)
    ensures Pipeline([p], t) == p(t)
  {
    assert [p][..0] == [];
  }

  /** The outcome is an exception exactly when some parser raises on the
      output of all those before it, which all succeeded; that first
      exception is the one that escapes. When no parser raises, every
      prefix of the chain succeeds. */
  lemma {:induction false} PipelineFirstError<T>(ps: seq<Parser<T>>, t: T)
    ensures Pipeline(ps, t).Err? ==>
      exists i :: 0 <= i < |ps| && Pipeline(ps[..i], t).Ok? &&
                  ps[i](Pipeline(ps[..i], t).value) == Pipeline(ps, t)
    ensures Pipeline(ps, t).Ok? ==> forall i :: 0 <= i <= |ps| ==> Pipeline(ps[..i], t).Ok?
  {
    if |ps| > 0 {
      var n := |ps| - 1;
      var front := ps[..n];
      PipelineFirstError(front, t);
      if Pipeline(front, t).Err? {
        var i :| 0 <= i < n && Pipeline(front[..i], t).Ok? &&
                 front[i](Pipeline(front[..i], t).value) == Pipeline(front, t);
        assert front[..i] == ps[..i];
      } else if Pipeline(ps, t).Err? {
        assert ps[..n] == front;
      } else {
        forall i | 0 <= i <= |ps|
          ensures Pipeline(ps[..i], t).Ok?
        {
          if i <= n {
            assert front[..i] == ps[..i];
          } else {
            assert ps[..i] == ps;
          }
        }
      }
    }
  }

  /** An object holding a fixed sequence of parsers. */
  class CombinedParser<T> {
    const parsers: seq<Parser<T>>

    constructor(parsers: seq<Parser<T>>)
      ensures this.parsers == parsers
    {
      this.parsers := parsers;
    }

    /** `__call__`: each parser in turn replaces the current value; an
        exception leaves the loop at once. The stored parsers are left as
        they were. */
    method Call(text: T) returns (r: Result<T, Exception>)
      ensures r == Pipeline(parsers, text)
      ensures r == ApplyFrom(parsers, text)
      ensures |parsers| == 0 ==> r == Ok(text)
    {
      PipelineFirstToLast(parsers, text);
      var current := text;
      var i := 0;
      while i < |parsers|
        invariant 0 <= i <= |parsers|
        invariant Pipeline(parsers[..i], text) == Ok(current)
      {
        assert parsers[..i + 1][..i] == parsers[..i];
        var next := parsers[i](current);
        if next.Err? {
          PipelineSplit(parsers[..i + 1], parsers[i + 1..], text);
          assert parsers[..i + 1] + parsers[i + 1..] == parsers;
          return next;
        }
        current := next.value;
        i := i + 1;
      }
      assert parsers[..i] == parsers;
      r := Ok(current);
    }
  }

  /** A stage that always answers `None`. */
  function Drop(o: Option<string>): Result<Option<string>, Exception> {
    Ok(None)
  }

  /** A stage that replaces `None` by a default. */
  function Fill(o: Option<string>): Result<Option<string>, Exception> {
    Ok(if o.None? then Some("fallback") else o)
  }

  /** No short-circuit on `None`: a `None` from one stage reaches the next
      stage as its input, and a later stage may turn it back into a value. */
  lemma NoneIsPassedOn(t: Option<string>)
    ensures Pipeline([Drop, Fill], t) == Ok(Some("fallback"))
  {
    var ps := [Drop, Fill];
    assert ps[1..] == [Fill] && ps[1..][1..] == [];
    assert ps[0](t) == Ok(None);
    assert ApplyFrom([Fill], None) == Ok(Some("fallback"));
    assert ApplyFrom(ps, t) == Ok(Some("fallback"));
    PipelineFirstToLast(ps, t);
  }

  /** `text.rfind(...)` on `None`: the first thing both extractors do. */
  const NoRfind := Raised(AttributeError, "'NoneType' object has no attribute 'rfind'")

  /** `xml_tag_extractor(v, tag)` as a stage: a string is searched, `None`
      has no `rfind`. */
  function XmlStage(tag: string): Parser<Option<string>> {
    (v: Option<string>) => if v.None? then Err(NoRfind) else Ok(XmlTags.XmlTagExtractor(v.value, tag))
  }

  /** `boxed(v)` as a stage, as written. */
  function BoxedStage(): Parser<Option<string>> {
    (v: Option<string>) => if v.None? then Err(NoRfind) else Boxed.BoxedAsWritten(v.value)
  }

  /** Chaining the tag extractor and `boxed` on a text without the tag: the
      extractor's `None` is handed to `boxed`, which raises
      `AttributeError`, and that exception is the outcome of the call. */
  lemma NoneBreaksNextExtractor()
    ensures Pipeline([XmlStage("a"), BoxedStage()], Some("no tags")) == Err(NoRfind)
  {
    var text := "no tags";
    assert XmlTags.Open("a")[0] == '<';
    assert text[0..] == text;
    Strings.NoOccurrenceWithoutFirstChar(text, XmlTags.Open("a"), 0);
    XmlTags.XmlTagExtractorSpec(text, "a");
    PipelineFirstToLast([XmlStage("a"), BoxedStage()], Some(text));
  }
}
