/** tooling/datasets/dataset.py: an immutable wrapper around a list. */
module Datasets {
  import opened Wrappers
  import opened Errors

  datatype Dataset<T> = Dataset(data: seq<T>)
  {
    /** `len(ds)`: the length of the wrapped list. */
    function Len(): (n: nat)
      ensures n == |data|
    {
      |data|
    }

    /** `ds[index]` for an integer index: negative indices count from the
        end, and an index outside the list raises `IndexError`. */
    function Get(index: int): (r: Result<T, Exception>)
      ensures r.Ok? <==> -|data| <= index < |data|
      ensures 0 <= index < |data| ==> r == Ok(data[index])
      ensures -|data| <= index < 0 ==> r == Ok(data[|data| + index])
      ensures r.Err? ==> r.error == Raised(IndexError, "list index out of range")
    {
      if 0 <= index < |data| then Ok(data[index])
      else if -|data| <= index < 0 then Ok(data[|data| + index])
      else Err(Raised(IndexError, "list index out of range"))
    }

    /** `ds.filter(func)`: a new dataset built from `func(ds.data)`; the
        receiver is a value and stays as it is. */
    function Filter(func: seq<T> -> Option<seq<T>>): (r: Dataset<T>)
      ensures func(data).Some? ==> r.data == func(data).value
      ensures func(data).None? ==> r.data == []
    {
      NewDataset(func(data))
    }
  }

  /** `Dataset(data)`: `None` and the empty list both give an empty
      dataset; any other list is kept as it is. */
  function NewDataset<T>(data: Option<seq<T>>): (d: Dataset<T>)
    ensures data.None? ==> d.data == []
    ensures data.Some? ==> d.data == data.value
    ensures d.Len() == if data.Some? then |data.value| else 0
  {
    match data
    case None => Dataset([])
    case Some(xs) => if |xs| > 0 then Dataset(xs) else Dataset([])
  }

  /** The elements of `xs` that satisfy `keep`, in their order. */
  function Keep<T>(xs: seq<T>, keep: T -> bool): (r: seq<T>)
    ensures |r| <= |xs|
    ensures forall i :: 0 <= i < |r| ==> keep(r[i]) && r[i] in xs
    ensures forall x :: x in xs && keep(x) ==> x in r
  {
    if |xs| == 0 then []
    else
      var rest := Keep(xs[..|xs| - 1], keep);
      assert forall x :: x in xs[..|xs| - 1] ==> x in xs;
      if keep(xs[|xs| - 1]) then rest + [xs[|xs| - 1]] else rest
  }

  /** A one-element list keeps its element exactly when it satisfies `keep`. */
  lemma KeepSingle<T>(x: T, keep: T -> bool)
    ensures Keep([x], keep) == if keep(x) then [x] else []
  {
    assert [x][..0] == [];
  }

  /** Keeping distributes over concatenation: the kept elements of `a + b`
      are those of `a` followed by those of `b`, so the order and the
      number of copies of each element are preserved. */
  lemma {:induction false} KeepAppend<T>(a: seq<T>, b: seq<T>, keep: T -> bool)
    ensures Keep(a + b, keep) == Keep(a, keep) + Keep(b, keep)
    decreases |b|
  {
    if |b| == 0 {
      assert a + b == a;
    } else {
      var b' := b[..|b| - 1];
      assert (a + b)[..|a + b| - 1] == a + b';
      assert (a + b)[|a + b| - 1] == b[|b| - 1];
      KeepAppend(a, b', keep);
    }
  }

  /** Filtering with a function that keeps the elements satisfying a
      predicate gives exactly those elements, in order; the source dataset
      is untouched. */
  lemma FilterKeeps<T>(ds: Dataset<T>, keep: T -> bool)
    ensures var r := ds.Filter(xs => Some(Keep(xs, keep)));
      r.data == Keep(ds.data, keep) &&
      (forall i :: 0 <= i < |r.data| ==> keep(r.data[i]) && r.data[i] in ds.data) &&
      (forall x :: x in ds.data && keep(x) ==> x in r.data)
  {
  }

  /** Every dataset can be indexed from both ends: `ds[i]` and
      `ds[i - len(ds)]` are the same element. */
  lemma GetBothEnds<T>(ds: Dataset<T>, i: int)
    requires 0 <= i < ds.Len()
    ensures ds.Get(i) == ds.Get(i - ds.Len())
    ensures ds.Get(i).Ok?
    ensures ds.Get(ds.Len()).Err? && ds.Get(-(ds.Len() as int) - 1).Err?
  {
  }
}
