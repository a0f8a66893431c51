/** The folds the projection applies to its yearly columns, and the optional value it uses
    where the source stores null. */
module Folds {

  datatype Option<T> = None | Some(value: T)

  /** The sum of a column, accumulated from the first element on, as a reduce with seed 0 does. */
  function Sum(xs: seq<real>): real
  {
    if |xs| == 0 then 0.0 else Sum(xs[..|xs| - 1]) + xs[|xs| - 1]
  }

  /** Summing a prefix one element longer adds exactly that element. */
  lemma SumExtend(xs: seq<real>, m: nat)
    requires m < |xs|
    ensures Sum(xs[..m + 1]) == Sum(xs[..m]) + xs[m]
  {
    assert xs[..m + 1][..m] == xs[..m];
  }

  /** Putting an element in front adds it to the sum. */
  lemma {:induction false} SumPrepend(x: real, xs: seq<real>)
    ensures Sum([x] + xs) == x + Sum(xs)
  {
    if |xs| == 0 {
      assert ([x] + xs)[..0] == [];
    } else {
      var ys := [x] + xs;
      assert ys[..|ys| - 1] == [x] + xs[..|xs| - 1];
      SumPrepend(x, xs[..|xs| - 1]);
    }
  }

  /** A column that holds the same value in every entry sums to its length times that value. */
  lemma {:induction false} SumConstant(xs: seq<real>, c: real)
    requires forall k :: 0 <= k < |xs| ==> xs[k] == c
    ensures Sum(xs) == |xs| as real * c
  {
    if |xs| > 0 {
      SumConstant(xs[..|xs| - 1], c);
    }
  }

  /** The entries that are present, in their order: a filter that drops the nulls. */
  function Present(xs: seq<Option<real>>): (r: seq<real>)
    ensures |r| <= |xs|
  {
    if |xs| == 0 then []
    else Present(xs[..|xs| - 1]) + (if xs[|xs| - 1].Some? then [xs[|xs| - 1].value] else [])
  }

  /** If exactly the first n entries are present, the filter keeps those n values in order. */
  lemma {:induction false} PresentPrefix(xs: seq<Option<real>>, n: nat)
    requires n <= |xs|
    requires forall k :: 0 <= k < |xs| ==> (xs[k].Some? <==> k < n)
    ensures |Present(xs)| == n
    ensures forall k :: 0 <= k < n ==> Present(xs)[k] == xs[k].value
  {
    if |xs| > 0 {
      var init := xs[..|xs| - 1];
      if n == |xs| {
        PresentPrefix(init, n - 1);
      } else {
        PresentPrefix(init, n);
      }
    }
  }
}
