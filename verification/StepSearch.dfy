/** The single step of a float parameter's spin box: a power of ten that fits the parameter's range. */
module StepSearch {

  /** maximum - minimum, which may overflow. */
  datatype Range = Finite(size: real) | Infinite

  /** 10 to the power of k. */
  ghost function Ten(k: int): (t: real)
    ensures t > 0.0
    decreases if k < 0 then -k else k
  {
    if k == 0 then 1.0 else if k > 0 then 10.0 * Ten(k - 1) else Ten(k + 1) / 10.0
  }

  /** Between 300 and 3000 steps fit into a small range, and between 30 and 300 into a large one. */
  ghost predicate Fits(step: real, size: real) {
    if size > 300.0 then 30.0 * step < size <= 300.0 * step else 300.0 * step <= size < 3000.0 * step
  }

  lemma TenNext(k: int)
    ensures Ten(k + 1) == 10.0 * Ten(k)
  {}

  lemma {:induction false} TenGrows(j: int, k: int)
    requires j < k
    ensures 10.0 * Ten(j) <= Ten(k)
    decreases k - j
  {
    TenNext(k - 1);
    if j < k - 1 { TenGrows(j, k - 1); }
  }

  /** No other power of ten fits. */
  lemma OnlyOneFits(j: int, k: int, size: real)
    requires Fits(Ten(j), size) && Fits(Ten(k), size)
    ensures j == k
  {
    if j < k { TenGrows(j, k); } else if k < j { TenGrows(k, j); }
  }

  lemma DividedByTen(x: real)
    requires x >= 1.0
    ensures 0 <= (x / 10.0).Floor < x.Floor
  {
    assert x / 10.0 <= x - 0.9 * x;
    if x < 10.0 { assert x / 10.0 < 1.0; } else { assert x / 10.0 <= x - 9.0; }
  }

  lemma Quotient(x: real, y: real)
    requires 0.0 < y <= x
    ensures x / y >= 1.0 && x / (y * 10.0) == (x / y) / 10.0 && (x / 10.0) / y == (x / y) / 10.0
  {
    var q := x / y;
    assert x == q * y;
    assert q >= 1.0;
    assert x == (q / 10.0) * (y * 10.0);
  }

  /** The search as it is in the code; the results for a range that is not positive and finite are 1. */
  method SingleStep(range: Range) returns (step: real)
    ensures exists k :: step == Ten(k)
    ensures range.Finite? && range.size > 0.0 ==> Fits(step, range.size)
    ensures range.Infinite? || range.size <= 0.0 ==> step == 1.0
  {
    step := 1.0;
    ghost var k := 0;
    if range.Finite? && range.size > 0.0 {
      var size := range.size;
      if size > 300.0 {
        while step * 300.0 < size
          invariant step == Ten(k) && step * 30.0 < size
          decreases (size / step).Floor
        {
          Quotient(size, step);
          DividedByTen(size / step);
          TenNext(k);
          step := step * 10.0;
          k := k + 1;
        }
      } else {
        while step * 300.0 > size
          invariant step == Ten(k) && size < step * 3000.0
          decreases (step * 300.0 / size).Floor
        {
          Quotient(step * 300.0, size);
          DividedByTen(step * 300.0 / size);
          TenNext(k - 1);
          assert step / 10.0 * 300.0 == step * 300.0 / 10.0;
          step := step / 10.0;
          k := k - 1;
        }
      }
    }
    assert step == Ten(k);
  }
}
