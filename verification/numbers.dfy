/** Arithmetic shared by every stage of the LBO pipeline.
    JavaScript numbers are modelled as exact reals; percentages are whole
    numbers (5 means 5%) and are divided by 100 where they are used. */
module Numbers {

  /** `None` stands for a quotient the program computes with a zero divisor
      (JavaScript's Infinity or NaN). */
  datatype Option<+T> = None | Some(value: T)

  /** `Math.max` on two numbers. */
  function Max(a: real, b: real): (r: real)
    ensures r >= a && r >= b && (r == a || r == b)
  {
    if a >= b then a else b
  }

  /** `Math.min` on two numbers. */
  function Min(a: real, b: real): (r: real)
    ensures r <= a && r <= b && (r == a || r == b)
  {
    if a <= b then a else b
  }

  /** `num / den` as JavaScript computes it: `None` when the divisor is 0
      (Infinity or NaN there), the exact quotient otherwise. */
  function Ratio(num: real, den: real): (r: Option<real>)
    ensures r.None? <==> den == 0.0
    ensures r.Some? ==> r.value * den == num
  {
    if den == 0.0 then None else Some(num / den)
  }

  /** A quotient is determined by what it multiplies back to. */
  lemma RatioUnique(num: real, den: real, v: real)
    requires den != 0.0 && v * den == num
    ensures Ratio(num, den) == Some(v)
  {
    assert v == num / den;
  }

  /** `x * (p / 100)`: the share `p` percent of `x`. */
  function Pct(x: real, p: real): real {
    x * (p / 100.0)
  }

  /** A share of a non-negative amount at a non-negative rate is not negative. */
  lemma PctNonnegative(x: real, p: real)
    ensures x >= 0.0 && p >= 0.0 ==> Pct(x, p) >= 0.0
  {
    if x >= 0.0 && p >= 0.0 {
      assert x * (p / 100.0) >= 0.0;
    }
  }

  /** Left-to-right running total, the way a `+=` loop accumulates it. */
  function Sum(xs: seq<real>): real {
    if |xs| == 0 then 0.0 else Sum(xs[..|xs| - 1]) + xs[|xs| - 1]
  }

  lemma SumAppend(xs: seq<real>, x: real)
    ensures Sum(xs + [x]) == Sum(xs) + x
  {
    assert (xs + [x])[..|xs|] == xs;
  }

  lemma {:induction false} SumConcat(xs: seq<real>, ys: seq<real>)
    ensures Sum(xs + ys) == Sum(xs) + Sum(ys)
    decreases |ys|
  {
    if |ys| == 0 {
      assert xs + ys == xs;
    } else {
      var init := ys[..|ys| - 1];
      var last := ys[|ys| - 1];
      assert ys == init + [last];
      assert xs + ys == (xs + init) + [last];
      SumAppend(xs + init, last);
      SumConcat(xs, init);
      SumAppend(init, last);
    }
  }

  /** The first element can be split off a running total as well. */
  lemma SumCons(x: real, xs: seq<real>)
    ensures Sum([x] + xs) == x + Sum(xs)
  {
    SumConcat([x], xs);
    assert Sum([x]) == Sum([x][..0]) + x;
  }

  lemma Distributes(c: real, s: real, x: real, t: real)
    requires t == s + x
    ensures c * s + c * x == c * t
  {
  }

  /** Scaling every term scales the running total. */
  lemma {:induction false} SumScaled(c: real, xs: seq<real>, ys: seq<real>)
    requires |xs| == |ys|
    requires forall i :: 0 <= i < |xs| ==> xs[i] == c * ys[i]
    ensures Sum(xs) == c * Sum(ys)
    decreases |xs|
  {
    if |xs| > 0 {
      var n := |xs| - 1;
      SumScaled(c, xs[..n], ys[..n]);
      Distributes(c, Sum(ys[..n]), ys[n], Sum(ys));
    }
  }
}
