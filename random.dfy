/** The random oracle behind `Math.random`.

    A call of `Math.random()` yields a double in [0, 1). The model receives such
    values from its environment as a `Draw`: a natural number r below 2^53 that
    stands for the fraction r / 2^53. The model assumes that the engine returns
    multiples of 2^-53, which the language leaves to the engine. Uniformity is
    not modelled. */
module Random {

  /** 2^53, the denominator of a drawn fraction. */
  const RandomScale: nat := 0x20_0000_0000_0000

  /** One result of `Math.random()`, as the numerator of r / 2^53. */
  type Draw = r: nat | r < RandomScale

  /** `Math.floor(Math.random() * n)` for the draw r: the largest j with
      j <= (r / 2^53) * n. For n > 0 it is an index into a list of length n;
      for n == 0 it is 0. */
  function RandomIndex(draw: Draw, n: nat): (j: nat)
    ensures n == 0 ==> j == 0
    ensures n > 0 ==> j < n
  {
    RandomIndexIsFloor(draw, n);
    draw * n / RandomScale
  }

  /** The index is the floor of the scaled draw: j <= (r / 2^53) * n < j + 1,
      written without fractions. */
  lemma RandomIndexIsFloor(draw: Draw, n: nat)
    ensures var j := draw * n / RandomScale;
            j * RandomScale <= draw * n < j * RandomScale + RandomScale &&
            (n > 0 ==> j < n)
  {
    if n > 0 {
      assert (RandomScale - draw) * n > 0;
    }
  }
}
