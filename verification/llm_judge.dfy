/** tooling/benchmarking/rubric/llm_judge.py: the judge formats a prompt
    from the answer and the ground truth, asks a model, reads the integer
    inside the last `<answer>...</answer>` of the reply, and fails with
    `JudgeError` when that is not an integer. */
module LlmJudge {
  import opened Wrappers
  import opened Errors
  import opened Strings
  import opened Numerals
  import opened Json
  import X = XmlTags
  import E = Extractors
  import M = Models

  // ---------------------------------------------------------------- str.format

  /** Which numbering the replacement fields have used so far. */
  datatype Numbering = Unset | Automatic(next: nat) | Manual

  /** The first `}` at or after `j`, or `|t|` when there is none. */
  function CloseBrace(t: string, j: nat): (k: nat)
    requires j <= |t|
    decreases |t| - j
    ensures j <= k <= |t|
    ensures k < |t| ==> t[k] == '}'
    ensures forall m :: j <= m < k ==> t[m] != '}'
  {
    if j == |t| || t[j] == '}' then j else CloseBrace(t, j + 1)
  }

  /** The messages of the `ValueError` and `IndexError` that `format`
      raises. */
  const ManualToAutomatic: string :=
    "cannot switch from manual field specification " + "to automatic field numbering"
  const AutomaticToManual: string :=
    "cannot switch from automatic field numbering " + "to manual field specification"
  const SingleOpen: string := "Single '{' encountered in format string"
  const SingleClose: string := "Single '}' encountered in format string"
  const UnclosedField: string := "expected '}' before end of string"

  function IndexOutOfRange(index: nat): string {
    "Replacement index " + NatToString(index) + " out of range for positional args tuple"
  }

  /** The value of one replacement field `{name}`: an automatic or explicit
      positional index, or a keyword. */
  function Field(name: string, num: Numbering, args: seq<string>, kwargs: map<string, string>)
    : (r: Result<(string, Numbering), Exception>)
    ensures name != [] && !AllDigits(name) ==>
      (r.Ok? <==> name in kwargs) &&
      (r.Ok? ==> r.value == (kwargs[name], num)) &&
      (r.Err? ==> r.error == Raised(KeyError, "'" + name + "'"))
  {
    if name == [] then
      var index := match num
        case Unset => 0
        case Automatic(n) => n
        case Manual => 0;
      if num.Manual? then
        Err(Raised(ValueError, ManualToAutomatic))
      else if index < |args| then Ok((args[index], Automatic(index + 1)))
      else Err(Raised(IndexError, IndexOutOfRange(index)))
    else if AllDigits(name) then
      var index := DigitsValue(name);
      if num.Automatic? then
        Err(Raised(ValueError, AutomaticToManual))
      else if index < |args| then Ok((args[index], Manual))
      else Err(Raised(IndexError, IndexOutOfRange(index)))
    else if name in kwargs then Ok((kwargs[name], num))
    else Err(Raised(KeyError, "'" + name + "'"))
  }

  /** `s` in front of a successful result; an error is kept. */
  function Prefix(s: string, r: Result<string, Exception>): Result<string, Exception> {
    if r.Ok? then Ok(s + r.value) else r
  }

  /** One piece of the template starting at `i`: a doubled brace, one
      ordinary character, or a replacement field. It gives the text the
      piece stands for, where the next piece starts, and the numbering
      after it; a single `}` or an unclosed `{` is a `ValueError`. */
  function NextPiece(t: string, i: nat, num: Numbering, args: seq<string>, kwargs: map<string, string>)
    : (r: Result<(string, nat, Numbering), Exception>)
    requires i < |t|
    ensures r.Ok? ==> i < r.value.1 <= |t|
  {
    if t[i] == '{' then
      if i + 1 < |t| && t[i + 1] == '{' then Ok(("{", i + 2, num))
      else if i + 1 == |t| then Err(Raised(ValueError, SingleOpen))
      else
        var j := CloseBrace(t, i + 1);
        if j == |t| then Err(Raised(ValueError, UnclosedField))
        else
          var field :- Field(t[i + 1..j], num, args, kwargs);
          Ok((field.0, j + 1, field.1))
    else if t[i] == '}' then
      if i + 1 < |t| && t[i + 1] == '}' then Ok(("}", i + 2, num))
      else Err(Raised(ValueError, SingleClose))
    else Ok(([t[i]], i + 1, num))
  }

  /** `t[i..].format(*args, **kwargs)`, piece by piece from the left; the
      first failing piece decides the error. */
  function FormatFrom(t: string, i: nat, num: Numbering, args: seq<string>, kwargs: map<string, string>)
    : Result<string, Exception>
    requires i <= |t|
    decreases |t| - i
  {
    if i == |t| then Ok("")
    else
      var piece :- NextPiece(t, i, num, args, kwargs);
      Prefix(piece.0, FormatFrom(t, piece.1, piece.2, args, kwargs))
  }

  function Format(t: string, args: seq<string>, kwargs: map<string, string>): Result<string, Exception> {
    FormatFrom(t, 0, Unset, args, kwargs)
  }

  /** The `n` characters from `i` on, when none is a brace, are copied as
      they are. */
  lemma {:induction false} FormatLiteral(t: string, i: nat, n: nat, num: Numbering,
                                         args: seq<string>, kwargs: map<string, string>)
    requires i + n <= |t|
    requires forall m :: i <= m < i + n ==> t[m] != '{' && t[m] != '}'
    ensures FormatFrom(t, i, num, args, kwargs) == Prefix(t[i..i + n], FormatFrom(t, i + n, num, args, kwargs))
    decreases n
  {
    var r := FormatFrom(t, i + n, num, args, kwargs);
    if n > 0 {
      OrdinaryStep(t, i, num, args, kwargs);
      FormatLiteral(t, i + 1, n - 1, num, args, kwargs);
      PrefixConcat([t[i]], t[i + 1..i + n], r);
      assert [t[i]] + t[i + 1..i + n] == t[i..i + n];
    } else if r.Ok? {
      assert t[i..i] + r.value == r.value;
    }
  }

  /** Two prefixes in turn are one prefix. */
  lemma PrefixConcat(x: string, y: string, r: Result<string, Exception>)
    ensures Prefix(x, Prefix(y, r)) == Prefix(x + y, r)
  {
    if r.Ok? {
      assert x + (y + r.value) == (x + y) + r.value;
    }
  }

  /** A character other than a brace is copied as it is. */
  lemma OrdinaryStep(t: string, i: nat, num: Numbering, args: seq<string>, kwargs: map<string, string>)
    requires i < |t| && t[i] != '{' && t[i] != '}'
    ensures FormatFrom(t, i, num, args, kwargs) == Prefix([t[i]], FormatFrom(t, i + 1, num, args, kwargs))
  {
    assert NextPiece(t, i, num, args, kwargs) == Ok(([t[i]], i + 1, num));
  }

  /** A keyword field `{name}` is replaced by its value, or raises
      `KeyError` when the keyword is missing. */
  lemma NamedField(t: string, i: nat, name: string, num: Numbering,
                   args: seq<string>, kwargs: map<string, string>)
    requires name != [] && name[0] != '{' && !AllDigits(name) && '}' !in name
    requires i + |name| + 2 <= |t| && t[i..i + |name| + 2] == "{" + name + "}"
    ensures FormatFrom(t, i, num, args, kwargs) ==
      if name in kwargs then Prefix(kwargs[name], FormatFrom(t, i + |name| + 2, num, args, kwargs))
      else Err(Raised(KeyError, "'" + name + "'"))
  {
    var j := i + 1 + |name|;
    assert t[i] == '{';
    assert t[i + 1] == name[0];
    assert t[j] == '}';
    forall m | 0 <= m < |name| ensures t[i + 1 + m] == name[m] {
      assert t[i..i + |name| + 2][1 + m] == ("{" + name + "}")[1 + m];
    }
    assert t[i + 1..j] == name;
    forall m | i + 1 <= m < j ensures t[m] != '}' {
      assert t[m] == name[m - i - 1];
    }
    assert CloseBrace(t, i + 1) == j;
  }

  /** Text free of braces, so `format` copies it as it is. */
  predicate BraceFree(s: string) {
    '{' !in s && '}' !in s
  }

  /** A keyword field name: not empty, not a number, not an escaped brace,
      and without `}`. */
  predicate KeywordName(name: string) {
    name != [] && name[0] != '{' && !IsDigit(name[0]) && '}' !in name
  }

  /** `CloseBrace` does not look before its starting point. */
  lemma {:induction false} CloseBraceSuffix(a: string, b: string, k: nat)
    requires k <= |b|
    ensures CloseBrace(a + b, |a| + k) == |a| + CloseBrace(b, k)
    decreases |b| - k
  {
    assert (a + b)[|a|..] == b;
    if k < |b| {
      assert (a + b)[|a| + k] == b[k];
      if b[k] != '}' {
        CloseBraceSuffix(a, b, k + 1);
      }
    }
  }

  /** The same piece, found `d` positions further on. */
  function Shift(r: Result<(string, nat, Numbering), Exception>, d: nat): Result<(string, nat, Numbering), Exception> {
    if r.Ok? then Ok((r.value.0, d + r.value.1, r.value.2)) else r
  }

  /** A piece reads the same with text in front of it, at a shifted
      position. */
  lemma NextPieceSuffix(a: string, b: string, k: nat, num: Numbering,
                        args: seq<string>, kwargs: map<string, string>)
    requires k < |b|
    ensures NextPiece(a + b, |a| + k, num, args, kwargs) == Shift(NextPiece(b, k, num, args, kwargs), |a|)
  {
    var t := a + b;
    var i := |a| + k;
    assert t[i] == b[k];
    if k + 1 < |b| {
      assert t[i + 1] == b[k + 1];
    }
    if b[k] == '{' && k + 1 < |b| && b[k + 1] != '{' {
      FieldPieceSuffix(a, b, k, num, args, kwargs);
    }
  }

  /** The field case of `NextPieceSuffix`: the field's name is found at the
      shifted position. */
  lemma FieldPieceSuffix(a: string, b: string, k: nat, num: Numbering,
                         args: seq<string>, kwargs: map<string, string>)
    requires k + 1 < |b| && b[k] == '{' && b[k + 1] != '{'
    ensures NextPiece(a + b, |a| + k, num, args, kwargs) == Shift(NextPiece(b, k, num, args, kwargs), |a|)
  {
    var t := a + b;
    var i := |a| + k;
    assert t[i] == b[k] && t[i + 1] == b[k + 1];
    CloseBraceSuffix(a, b, k + 1);
    var j := CloseBrace(b, k + 1);
    if j < |b| {
      assert t[i + 1..|a| + j] == b[k + 1..j];
    }
  }

  /** Formatting from a position does not look before it: text already
      behind it makes no difference. */
  lemma {:induction false} FormatSuffix(a: string, b: string, k: nat, num: Numbering,
                                        args: seq<string>, kwargs: map<string, string>)
    requires k <= |b|
    ensures FormatFrom(a + b, |a| + k, num, args, kwargs) == FormatFrom(b, k, num, args, kwargs)
    decreases |b| - k
  {
    if k < |b| {
      NextPieceSuffix(a, b, k, num, args, kwargs);
      var q := NextPiece(b, k, num, args, kwargs);
      assert q.Ok? ==> NextPiece(a + b, |a| + k, num, args, kwargs).value == (q.value.0, |a| + q.value.1, q.value.2);
      if q.Ok? {
        FormatSuffix(a, b, q.value.1, q.value.2, args, kwargs);
      }
    }
  }

  /** Brace-free text in front is copied to the front of the result. */
  lemma LiteralThen(lit: string, rest: string, num: Numbering, args: seq<string>, kwargs: map<string, string>)
    requires BraceFree(lit)
    ensures FormatFrom(lit + rest, 0, num, args, kwargs) == Prefix(lit, FormatFrom(rest, 0, num, args, kwargs))
  {
    var t := lit + rest;
    assert t[0..|lit|] == lit;
    forall m | 0 <= m < |lit| ensures t[m] != '{' && t[m] != '}' {
      assert t[m] == lit[m];
    }
    FormatLiteral(t, 0, |lit|, num, args, kwargs);
    FormatSuffix(lit, rest, 0, num, args, kwargs);
  }

  /** A keyword field in front is replaced by its value, or raises
      `KeyError`. */
  lemma FieldThen(name: string, rest: string, num: Numbering, args: seq<string>, kwargs: map<string, string>)
    requires KeywordName(name)
    ensures FormatFrom("{" + name + "}" + rest, 0, num, args, kwargs) ==
      if name in kwargs then Prefix(kwargs[name], FormatFrom(rest, 0, num, args, kwargs))
      else Err(Raised(KeyError, "'" + name + "'"))
  {
    var f := "{" + name + "}";
    assert (f + rest)[0..|name| + 2] == f;
    assert !AllDigits(name);
    NamedField(f + rest, 0, name, num, args, kwargs);
    FormatSuffix(f, rest, 0, num, args, kwargs);
  }

  /** A template with two keyword fields is filled left to right: the first
      missing keyword raises `KeyError`, otherwise both values are put in
      place of their fields. */
  lemma FormatTwoFields(pre: string, n1: string, mid: string, n2: string, post: string,
                        args: seq<string>, kwargs: map<string, string>)
    requires BraceFree(pre) && BraceFree(mid) && BraceFree(post)
    requires KeywordName(n1) && KeywordName(n2)
    ensures Format(pre + ("{" + n1 + "}") + mid + ("{" + n2 + "}") + post, args, kwargs) ==
      if n1 !in kwargs then Err(Raised(KeyError, "'" + n1 + "'"))
      else if n2 !in kwargs then Err(Raised(KeyError, "'" + n2 + "'"))
      else Ok(pre + kwargs[n1] + mid + kwargs[n2] + post)
  {
    var f1 := "{" + n1 + "}";
    var f2 := "{" + n2 + "}";
    var s2 := mid + (f2 + post);
    var s0 := pre + (f1 + s2);
    Regroup(pre, f1, mid, f2, post);
    LiteralThen(pre, f1 + s2, Unset, args, kwargs);
    FieldThen(n1, s2, Unset, args, kwargs);
    if n1 in kwargs {
      LiteralThen(mid, f2 + post, Unset, args, kwargs);
      FieldThen(n2, post, Unset, args, kwargs);
      if n2 in kwargs {
        LiteralOnly(post, Unset, args, kwargs);
        Regroup(pre, kwargs[n1], mid, kwargs[n2], post);
      }
    }
  }

  /** Five pieces joined from the right are joined from the left. */
  lemma Regroup(a: string, b: string, c: string, d: string, e: string)
    ensures a + (b + (c + (d + e))) == a + b + c + d + e
  {
    assert b + (c + (d + e)) == b + c + d + e;
  }

  /** Brace-free text formats to itself. */
  lemma LiteralOnly(lit: string, num: Numbering, args: seq<string>, kwargs: map<string, string>)
    requires BraceFree(lit)
    ensures FormatFrom(lit, 0, num, args, kwargs) == Ok(lit)
  {
    LiteralThen(lit, "", num, args, kwargs);
    assert lit + "" == lit;
  }

  // ---------------------------------------------------------------- the prompt

  /** Text made of `chunks`, one after the other. */
  function Joined(chunks: seq<string>): string {
    if |chunks| == 0 then "" else Joined(chunks[..|chunks| - 1]) + chunks[|chunks| - 1]
  }

  lemma {:induction false} JoinedFree(chunks: seq<string>)
    requires forall i :: 0 <= i < |chunks| ==> BraceFree(chunks[i])
    ensures BraceFree(Joined(chunks))
  {
    if |chunks| > 0 {
      JoinedFree(chunks[..|chunks| - 1]);
      var a := Joined(chunks[..|chunks| - 1]);
      var b := chunks[|chunks| - 1];
      assert forall c :: c in a + b ==> c in a || c in b;
    }
  }

  /** The text of `PROMPT` before, between and after its two fields. */
  const PreambleChunks: seq<string> :=
    ["\n\nYou are an ", "LLM judge your ", "goal is to judge ", "whether the ",
     "following is ", "correct\n\nGround ", "Truth "]
  const Preamble: string := Joined(PreambleChunks)
  const Between: string := "\n\nAnswer "
  const ClosingChunks: seq<string> :=
    ["\n\n\nOutput your ", "answer 0 for ", "incorrect 1 for ", "correct in ", "<answer> tags\n"]
  const Closing: string := Joined(ClosingChunks)

  /** `PROMPT`, with its two keyword fields. */
  const Template: string := Preamble + ("{" + "ground_truth" + "}") + Between + ("{" + "answer" + "}") + Closing

  lemma PreambleFree()
    ensures BraceFree(Preamble)
  {
    assert BraceFree(PreambleChunks[0]);
    assert BraceFree(PreambleChunks[1]);
    assert BraceFree(PreambleChunks[2]);
    assert BraceFree(PreambleChunks[3]);
    assert BraceFree(PreambleChunks[4]);
    assert BraceFree(PreambleChunks[5]);
    assert BraceFree(PreambleChunks[6]);
    JoinedFree(PreambleChunks);
  }

  lemma BetweenFree()
    ensures BraceFree(Between)
  {
  }

  lemma ClosingFree()
    ensures BraceFree(Closing)
  {
    assert BraceFree(ClosingChunks[0]);
    assert BraceFree(ClosingChunks[1]);
    assert BraceFree(ClosingChunks[2]);
    assert BraceFree(ClosingChunks[3]);
    assert BraceFree(ClosingChunks[4]);
    JoinedFree(ClosingChunks);
  }

  lemma FieldNames()
    ensures KeywordName("ground_truth") && KeywordName("answer")
  {
  }

  /** `PROMPT.format(ground_truth, answer)` as written: positional arguments
      do not fill keyword fields, so the first field raises `KeyError`. */
  lemma PositionalFormatFails(groundTruth: string, answer: string)
    ensures Format(Template, [groundTruth, answer], map[]) == Err(Raised(KeyError, "'ground_truth'"))
  {
    PreambleFree();
    BetweenFree();
    ClosingFree();
    FieldNames();
    FormatTwoFields(Preamble, "ground_truth", Between, "answer", Closing, [groundTruth, answer], map[]);
    assert "'" + "ground_truth" + "'" == "'ground_truth'";
  }

  /** With keyword arguments the template gives the judge prompt with the
      ground truth and the answer in their places. */
  lemma KeywordFormat(groundTruth: string, answer: string)
    ensures Format(Template, [], map["ground_truth" := groundTruth, "answer" := answer])
      == Ok(Preamble + groundTruth + Between + answer + Closing)
  {
    PreambleFree();
    BetweenFree();
    ClosingFree();
    FieldNames();
    FormatTwoFields(Preamble, "ground_truth", Between, "answer", Closing, [],
                    map["ground_truth" := groundTruth, "answer" := answer]);
  }

  // ---------------------------------------------------------------- the verdict

  const IntOfNone: string :=
    "int() argument must be a string, a bytes-like object or a real number, not 'NoneType'"

  /** Extraction and `int()` as written: a reply that is not a string has no
      `rfind`; a missing tag gives `int(None)`, a `TypeError` the
      `except ValueError` does not catch; text that is not an integer is a
      `ValueError`, turned into `JudgeError`. */
  function VerdictAsWritten(output: Json): (r: Result<int, Exception>)
    ensures !output.JStr? ==> r == Err(Raised(AttributeError, "'" + TypeName(output) + "' object has no attribute 'rfind'"))
    ensures output.JStr? && E.XmlTagExtractor(output.s, "answer").None? ==> r == Err(Raised(TypeError, IntOfNone))
    ensures output.JStr? && E.XmlTagExtractor(output.s, "answer").Some? ==>
      var v := E.XmlTagExtractor(output.s, "answer").value;
      (r.Ok? <==> ParseInt(v).Some?) && (r.Ok? ==> r.value == ParseInt(v).value) &&
      (r.Err? ==> r.error == JudgeError)
  {
    if !output.JStr? then Err(Raised(AttributeError, "'" + TypeName(output) + "' object has no attribute 'rfind'"))
    else
      match E.XmlTagExtractor(output.s, "answer")
      case None => Err(Raised(TypeError, IntOfNone))
      case Some(v) =>
        match ParseInt(v)
        case None => Err(JudgeError)
        case Some(n) => Ok(n)
  }

  /** The evident intent: a missing tag is a `JudgeError` too, like any
      other reply without an integer verdict. */
  function Verdict(output: Json): (r: Result<int, Exception>)
    ensures !output.JStr? ==> r == VerdictAsWritten(output)
    ensures output.JStr? ==> (r.Ok? <==> E.XmlTagExtractor(output.s, "answer").Some? &&
                                         ParseInt(E.XmlTagExtractor(output.s, "answer").value).Some?)
    ensures output.JStr? && r.Err? ==> r.error == JudgeError
    ensures r.Ok? ==> r == VerdictAsWritten(output)
  {
    if !output.JStr? then Err(Raised(AttributeError, "'" + TypeName(output) + "' object has no attribute 'rfind'"))
    else
      match E.XmlTagExtractor(output.s, "answer")
      case None => Err(JudgeError)
      case Some(v) =>
        match ParseInt(v)
        case None => Err(JudgeError)
        case Some(n) => Ok(n)
  }

  /** The defect: a reply without the tag escapes as `TypeError` as written,
      and is a `JudgeError` in the corrected reading. */
  lemma MissingTagDefect()
    ensures VerdictAsWritten(JStr("")) == Err(Raised(TypeError, IntOfNone))
    ensures Verdict(JStr("")) == Err(JudgeError)
  {
    assert !OccursAt("", X.Open("answer"), RFind("", X.Open("answer")));
  }

  /** Decimal text holds no `<`, so no tag marker occurs in it. */
  lemma NoMarkerInNumber(n: int, w: string)
    requires |w| > 0 && w[0] == '<'
    ensures !Contains(IntToString(n), w)
  {
    var s := IntToString(n);
    forall i | 0 <= i < |s| ensures s[i] != '<' {
      if n < 0 {
        if i > 0 {
          assert s[i] == NatToString(-n)[i - 1];
        }
      }
    }
    assert s[0..] == s;
    NoOccurrenceWithoutFirstChar(s, w, 0);
  }

  /** The score is the integer inside the last `<answer>` tag, whatever its
      value: negative numbers and numbers above 1 are returned as they are. */
  lemma {:induction false} VerdictReadsLastAnswer(p: string, n: int, q: string)
    requires !Contains(q, X.Open("answer"))
    ensures Verdict(JStr(p + X.Open("answer") + IntToString(n) + X.Close("answer") + q)) == Ok(n)
    ensures VerdictAsWritten(JStr(p + X.Open("answer") + IntToString(n) + X.Close("answer") + q)) == Ok(n)
  {
    var s := IntToString(n);
    assert X.NoAngles("answer");
    NoMarkerInNumber(n, X.Open("answer"));
    NoMarkerInNumber(n, X.Close("answer"));
    X.XmlTagRoundTrip(p, "answer", s, q);
    ParseIntRoundTrip(n);
  }

  // ---------------------------------------------------------------- the judge

  /** The settings of `Model("gpt-4o-mini")`: the constructor's defaults. */
  predicate IsDefaultMarker(m: M.Model) {
    m.model == "gpt-4o-mini" && m.maxTokens == 1024 && m.temperature == 0.7 &&
    m.topP == 0.95 && m.topK == None && !m.stream && m.kwargs == map[]
  }

  /** A model call, standing for `await marker.generate(prompt)`. */
  type Generator = (M.Model, string) -> Result<Json, Exception>

  class LLMJudge {
    const marker: M.Model
    const batchSize: int

    /** `LLMJudge.__init__`: a fresh default marker when none is given (a
        `Model` instance is always truthy). `batch_size` is kept but never
        read. */
    constructor(marker: Option<M.Model>, batchSize: int)
      ensures marker.Some? ==> this.marker == marker.value
      ensures marker.None? ==> fresh(this.marker) && IsDefaultMarker(this.marker)
      ensures this.batchSize == batchSize
    {
      var default := new M.Model("gpt-4o-mini", 1024, 0.7, 0.95, None, false, map[]);
      this.marker := if marker.Some? then marker.value else default;
      this.batchSize := batchSize;
    }

    /** The model that answers a call: the per-call one when given. */
    function Chosen(model: Option<M.Model>): M.Model {
      if model.Some? then model.value else marker
    }

    /** `__call__` as written: formatting fails before any model is asked. */
    function CallAsWritten(answer: string, groundTruth: string, model: Option<M.Model>, generate: Generator)
      : Result<int, Exception>
    {
      var prompt :- Format(Template, [groundTruth, answer], map[]);
      var output :- generate(Chosen(model), prompt);
      VerdictAsWritten(output)
    }

    /** `__call__` with the evident intent: keyword formatting, the chosen
        model, then the verdict. */
    function Call(answer: string, groundTruth: string, model: Option<M.Model>, generate: Generator)
      : Result<int, Exception>
    {
      var prompt :- Format(Template, [], map["ground_truth" := groundTruth, "answer" := answer]);
      var output :- generate(Chosen(model), prompt);
      Verdict(output)
    }
  }

  /** As written, every call fails with `KeyError` before any model is
      asked. */
  lemma CallAsWrittenFails(j: LLMJudge, answer: string, groundTruth: string, model: Option<M.Model>,
                           generate: Generator)
    ensures j.CallAsWritten(answer, groundTruth, model, generate) == Err(Raised(KeyError, "'ground_truth'"))
  {
    PositionalFormatFails(groundTruth, answer);
  }

  /** With the evident intent, a call asks the chosen model with the filled
      prompt and takes the verdict of its reply; a failed model call is
      passed on as it is. */
  lemma CallAsksChosenModel(j: LLMJudge, answer: string, groundTruth: string, model: Option<M.Model>,
                            generate: Generator)
    ensures var output := generate(j.Chosen(model), Preamble + groundTruth + Between + answer + Closing);
      j.Call(answer, groundTruth, model, generate) ==
        if output.Err? then Err(output.error) else Verdict(output.value)
  {
    KeywordFormat(groundTruth, answer);
  }

  /** A per-call model replaces the stored marker, and the batch size plays
      no part in the score. */
  lemma PerCallModelUsed(j: LLMJudge, k: LLMJudge, m: M.Model, answer: string, groundTruth: string,
                         generate: Generator)
    ensures j.Call(answer, groundTruth, Some(m), generate) == k.Call(answer, groundTruth, Some(m), generate)
  {
    CallAsksChosenModel(j, answer, groundTruth, Some(m), generate);
    CallAsksChosenModel(k, answer, groundTruth, Some(m), generate);
  }

  /** The judge's score for a reply ending in `<answer>n</answer>` is `n`. */
  lemma CallScoresLastAnswer(j: LLMJudge, answer: string, groundTruth: string, generate: Generator,
                             p: string, n: int)
    requires generate(j.marker, Preamble + groundTruth + Between + answer + Closing)
      == Ok(JStr(p + X.Open("answer") + IntToString(n) + X.Close("answer")))
    ensures j.Call(answer, groundTruth, None, generate) == Ok(n)
  {
    CallAsksChosenModel(j, answer, groundTruth, None, generate);
    VerdictReadsLastAnswer(p, n, "");
    assert p + X.Open("answer") + IntToString(n) + X.Close("answer") + "" ==
      p + X.Open("answer") + IntToString(n) + X.Close("answer");
  }
}
