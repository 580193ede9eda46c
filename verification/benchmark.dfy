/** tooling/benchmarking/benchmark/benchmark.py: score every solution with
    a marker and report a fraction of the dataset size. */
module Benchmarks {
  import opened Wrappers
  import opened Errors
  import opened Datasets

  /** A marker scores one solution, or raises. */
  type Marker = string -> Result<int, Exception>

  /** The scores of `solutions` in order, or the error of the first
      solution the marker fails on. */
  function Scores(solutions: seq<string>, marker: Marker): (r: Result<seq<int>, Exception>)
    ensures r.Ok? ==> |r.value| == |solutions|
    ensures r.Ok? ==> forall i :: 0 <= i < |solutions| ==> marker(solutions[i]) == Ok(r.value[i])
  {
    if |solutions| == 0 then Ok([])
    else
      var earlier :- Scores(solutions[..|solutions| - 1], marker);
      var score :- marker(solutions[|solutions| - 1]);
      Ok(earlier + [score])
  }

  /** A failed run fails with the error of the first solution the marker
      raises on; every solution before it was scored. */
  lemma {:induction false} ScoresFirstFailure(solutions: seq<string>, marker: Marker)
    requires Scores(solutions, marker).Err?
    ensures exists i :: FirstFailure(solutions, marker, i, Scores(solutions, marker).error)
  {
    var init := solutions[..|solutions| - 1];
    var earlier := Scores(init, marker);
    if earlier.Err? {
      ScoresFirstFailure(init, marker);
      var i :| FirstFailure(init, marker, i, earlier.error);
      assert FirstFailure(solutions, marker, i, earlier.error);
    } else {
      assert forall j :: 0 <= j < |solutions| - 1 ==> solutions[j] == init[j];
      assert FirstFailure(solutions, marker, |solutions| - 1, Scores(solutions, marker).error);
    }
  }

  /** Solution `i` is the first the marker raises on, with `error`. */
  predicate FirstFailure(solutions: seq<string>, marker: Marker, i: int, error: Exception) {
    0 <= i < |solutions| && marker(solutions[i]) == Err(error) &&
    forall j :: 0 <= j < i ==> marker(solutions[j]).Ok?
  }

  function Sum(xs: seq<int>): int {
    if |xs| == 0 then 0 else Sum(xs[..|xs| - 1]) + xs[|xs| - 1]
  }

  /** An empty `model_solutions` sends `benchmark` to generation, which
      calls `batch_generate` with a `batch_size` keyword it does not take. */
  const GenerationError: Exception :=
    Raised(TypeError, "Model.batch_generate() got an unexpected keyword argument 'batch_size'")

  const DivisionByZero: Exception := Raised(ZeroDivisionError, "division by zero")

  /** What `benchmark` returns as written: the LAST score divided by the
      dataset size. */
  function BenchmarkAsWritten(datasetLen: nat, solutions: seq<string>, marker: Marker): (r: Result<real, Exception>)
    ensures |solutions| == 0 ==> r == Err(GenerationError)
    ensures |solutions| > 0 && Scores(solutions, marker).Err? ==> r == Err(Scores(solutions, marker).error)
    ensures |solutions| > 0 && Scores(solutions, marker).Ok? && datasetLen == 0 ==> r == Err(DivisionByZero)
    ensures r.Ok? <==> |solutions| > 0 && Scores(solutions, marker).Ok? && datasetLen > 0
    ensures r.Ok? ==> marker(solutions[|solutions| - 1]).Ok?
    ensures r.Ok? ==> r.value == marker(solutions[|solutions| - 1]).value as real / datasetLen as real
  {
    if |solutions| == 0 then Err(GenerationError)
    else
      var scores :- Scores(solutions, marker);
      if datasetLen == 0 then Err(DivisionByZero)
      else Ok(scores[|scores| - 1] as real / datasetLen as real)
  }

  /** The evident intent: the mean score, the total over the dataset size. */
  function MeanScore(datasetLen: nat, solutions: seq<string>, marker: Marker): (r: Result<real, Exception>)
    ensures r.Ok? <==> BenchmarkAsWritten(datasetLen, solutions, marker).Ok?
    ensures r.Err? ==> r == BenchmarkAsWritten(datasetLen, solutions, marker)
    ensures r.Ok? ==> r.value * datasetLen as real == Sum(Scores(solutions, marker).value) as real
  {
    if |solutions| == 0 then Err(GenerationError)
    else
      var scores :- Scores(solutions, marker);
      if datasetLen == 0 then Err(DivisionByZero)
      else Ok(Sum(scores) as real / datasetLen as real)
  }

  /** `benchmark` with the solutions given: the loop calls the marker once
      per solution, in order, adding each score to `total`; the last score
      is what is returned. */
  method Benchmark<T>(dataset: Dataset<T>, solutions: seq<string>, marker: Marker)
    returns (r: Result<real, Exception>, ghost total: int)
    ensures r == BenchmarkAsWritten(dataset.Len(), solutions, marker)
    ensures r.Ok? ==> total == Sum(Scores(solutions, marker).value)
  {
    total := 0;
    if |solutions| == 0 {
      r := Err(GenerationError);
      return;
    }
    var score := 0;
    var i := 0;
    while i < |solutions|
      invariant 0 <= i <= |solutions|
      invariant Scores(solutions[..i], marker).Ok?
      invariant total == Sum(Scores(solutions[..i], marker).value)
      invariant i > 0 ==> score == Scores(solutions[..i], marker).value[i - 1]
    {
      assert solutions[..i + 1][..i] == solutions[..i];
      var s := marker(solutions[i]);
      if s.Err? {
        ScoresPrefixError(solutions, i + 1, marker);
        r := Err(s.error);
        return;
      }
      score := s.value;
      total := total + score;
      i := i + 1;
    }
    assert solutions[..i] == solutions;
    if dataset.Len() == 0 {
      r := Err(DivisionByZero);
    } else {
      r := Ok(score as real / dataset.Len() as real);
    }
  }

  /** A failure on a prefix is the failure of the whole run. */
  lemma {:induction false} ScoresPrefixError(solutions: seq<string>, n: nat, marker: Marker)
    requires n <= |solutions|
    requires Scores(solutions[..n], marker).Err?
    ensures Scores(solutions, marker) == Scores(solutions[..n], marker)
    decreases |solutions| - n
  {
    if n < |solutions| {
      assert solutions[..n + 1][..n] == solutions[..n];
      ScoresPrefixError(solutions, n + 1, marker);
    } else {
      assert solutions[..n] == solutions;
    }
  }

  /** Scoring one more solution appends its score, or stops at the first
      failure. */
  lemma ScoresSnoc(solutions: seq<string>, s: string, marker: Marker)
    ensures Scores(solutions + [s], marker) ==
      if Scores(solutions, marker).Err? then Scores(solutions, marker)
      else if marker(s).Err? then Err(marker(s).error)
      else Ok(Scores(solutions, marker).value + [marker(s).value])
  {
    assert (solutions + [s])[..|solutions|] == solutions;
  }

  /** A marker that never raises scores every solution. */
  lemma {:induction false} ScoresAllOk(solutions: seq<string>, marker: Marker)
    requires forall i :: 0 <= i < |solutions| ==> marker(solutions[i]).Ok?
    ensures Scores(solutions, marker).Ok?
  {
    if |solutions| > 0 {
      ScoresAllOk(solutions[..|solutions| - 1], marker);
    }
  }

  /** A sum of scores each 0 or 1 lies between 0 and the number of scores. */
  lemma {:induction false} SumOfBinary(xs: seq<int>)
    requires forall i :: 0 <= i < |xs| ==> xs[i] == 0 || xs[i] == 1
    ensures 0 <= Sum(xs) <= |xs|
  {
    if |xs| > 0 {
      SumOfBinary(xs[..|xs| - 1]);
    }
  }

  /** A quotient `v` of `total` by `d` lies in [0, 1] when `total` does
      not exceed `d`. */
  lemma FractionBound(total: int, d: nat, v: real)
    requires 0 <= total <= d && 0 < d && v * d as real == total as real
    ensures 0.0 <= v <= 1.0
  {
    if v > 1.0 {
      var excess := v - 1.0;
      assert v * d as real == d as real + excess * d as real;
      assert excess * d as real > 0.0;
    }
  }

  /** With a marker that answers 0 or 1, and no more solutions than
      dataset entries, the mean score is a fraction between 0 and 1. */
  lemma MeanIsFraction(datasetLen: nat, solutions: seq<string>, marker: Marker)
    requires 0 < |solutions| <= datasetLen
    requires forall i :: 0 <= i < |solutions| ==> marker(solutions[i]) == Ok(0) || marker(solutions[i]) == Ok(1)
    ensures MeanScore(datasetLen, solutions, marker).Ok?
    ensures 0.0 <= MeanScore(datasetLen, solutions, marker).value <= 1.0
  {
    ScoresAllOk(solutions, marker);
    var scores := Scores(solutions, marker).value;
    forall i | 0 <= i < |scores|
      ensures scores[i] == 0 || scores[i] == 1
    {
      assert marker(solutions[i]) == Ok(scores[i]);
    }
    var total := Sum(scores);
    SumOfBinary(scores);
    var v := total as real / datasetLen as real;
    assert MeanScore(datasetLen, solutions, marker) == Ok(v);
    FractionBound(total, datasetLen, v);
  }

  /** Scores 1, 0, 1, 1 over a dataset of four: the mean is 3/4, but the
      value returned as written is the last score over four, 1/4. */
  lemma LastScoreDefect(marker: Marker, solutions: seq<string>)
    requires solutions == ["a", "", "a", "a"]
    requires marker("a") == Ok(1) && marker("") == Ok(0)
    ensures BenchmarkAsWritten(4, solutions, marker) == Ok(0.25)
    ensures MeanScore(4, solutions, marker) == Ok(0.75)
  {
    FourScores(marker, solutions);
    assert Sum([1, 0, 1, 1]) == 3 by {
      assert [1, 0, 1, 1][..3] == [1, 0, 1];
      assert [1, 0, 1][..2] == [1, 0];
      assert [1, 0][..1] == [1];
      assert [1][..0] == [];
    }
  }

  lemma FourScores(marker: Marker, solutions: seq<string>)
    requires solutions == ["a", "", "a", "a"]
    requires marker("a") == Ok(1) && marker("") == Ok(0)
    ensures Scores(solutions, marker) == Ok([1, 0, 1, 1])
  {
    assert solutions[0] == "a" && solutions[1] == "" && solutions[2] == "a" && solutions[3] == "a";
    ScoresAllOk(solutions, marker);
    var v := Scores(solutions, marker).value;
    assert marker(solutions[0]) == Ok(v[0]) && marker(solutions[1]) == Ok(v[1]);
    assert marker(solutions[2]) == Ok(v[2]) && marker(solutions[3]) == Ok(v[3]);
    assert v == [1, 0, 1, 1];
  }

  /** The number of solutions is never compared with the dataset size:
      two solutions scored 1 over a dataset of one give a mean of 2. */
  lemma LengthsNotCompared(marker: Marker, solutions: seq<string>)
    requires solutions == ["a", "a"]
    requires marker("a") == Ok(1)
    ensures BenchmarkAsWritten(1, solutions, marker) == Ok(1.0)
    ensures MeanScore(1, solutions, marker) == Ok(2.0)
  {
    assert solutions[0] == "a" && solutions[1] == "a";
    ScoresAllOk(solutions, marker);
    var v := Scores(solutions, marker).value;
    assert marker(solutions[0]) == Ok(v[0]) && marker(solutions[1]) == Ok(v[1]);
    assert v == [1, 1];
    assert v[..1] == [1] && v[..1][..0] == [];
    assert Sum(v[..1]) == 1;
    assert Sum(v) == 2;
  }
}
