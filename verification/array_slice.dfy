/** Loop-based sums over a slice of ints and over several slices. */
module ArraySlice {

  /** The arithmetic sum of `xs`. */
  function Total(xs: seq<int>): int {
    if xs == [] then 0 else xs[0] + Total(xs[1..])
  }

  /** Adding one more element at the end adds its value. */
  lemma {:induction false} TotalSnoc(xs: seq<int>, x: int)
    ensures Total(xs + [x]) == Total(xs) + x
  {
    if xs != [] {
      assert (xs + [x])[1..] == xs[1..] + [x];
      TotalSnoc(xs[1..], x);
    }
  }

  /** Accumulates the elements of `numbers` from left to right. */
  method Sum(numbers: seq<int>) returns (result: int)
    ensures result == Total(numbers)
  {
    result := 0;
    for i := 0 to |numbers|
      invariant result == Total(numbers[..i])
    {
      TotalSnoc(numbers[..i], numbers[i]);
      assert numbers[..i + 1] == numbers[..i] + [numbers[i]];
      result := result + numbers[i];
    }
    assert numbers[..|numbers|] == numbers;
  }

  /** One sum per input slice, in input order. */
  method SumAll(numbersToSum: seq<seq<int>>) returns (result: seq<int>)
    ensures |result| == |numbersToSum|
    ensures forall i :: 0 <= i < |numbersToSum| ==> result[i] == Total(numbersToSum[i])
  {
    result := [];
    for k := 0 to |numbersToSum|
      invariant |result| == k
      invariant forall i :: 0 <= i < k ==> result[i] == Total(numbersToSum[i])
    {
      var sumOfNumber := Sum(numbersToSum[k]);
      result := result + [sumOfNumber];
    }
  }

  /** The sums the tests expect: [1,2,3] gives 6, [5,2,3,4] gives 14, [1,3] gives 4 and
      [4,5,6] gives 15. */
  lemma SumExamples()
    ensures Total([1, 2, 3]) == 6 && Total([5, 2, 3, 4]) == 14
    ensures Total([1, 3]) == 4 && Total([4, 5, 6]) == 15
  {
  }

  /** The SumAll tests: ([1,2,3], [4,5,6]) gives [6, 15] and ([1,3], [4,5,6]) gives [4, 15]. */
  method SumAllScenario() returns (first: seq<int>, second: seq<int>)
    ensures first == [6, 15] && second == [4, 15]
  {
    SumExamples();
    first := SumAll([[1, 2, 3], [4, 5, 6]]);
    second := SumAll([[1, 3], [4, 5, 6]]);
  }
}
