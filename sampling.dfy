/** The few calls into Python's `random` module the terrain carver makes, with the
    generator's raw output passed in as a value. CPython defines
      randint(a, b)  = randrange(a, b + 1) = a + randbelow(b - a + 1), ValueError on an empty range
      uniform(a, b)  = a + (b - a) * random(), with random() in [0, 1)
      choice(xs)     = xs[randbelow(len(xs))]
    An arbitrary natural number `draw` stands for the generator's state; `draw % n` ranges
    over exactly the values randbelow(n) can return. */
module Sampling {
  import opened RealArith

  datatype Option<T> = None | Some(value: T)

  /** A raw draw of random.random(): a real in [0, 1). */
  predicate IsUnit(u: real) {
    0.0 <= u < 1.0
  }

  /** random.randint(a, b): None stands for the ValueError raised on an empty range. */
  function RandInt(a: int, b: int, draw: nat): (r: Option<int>)
    ensures r.Some? <==> a <= b
    ensures r.Some? ==> a <= r.value <= b
  {
    if b < a then None else Some(a + draw % (b - a + 1))
  }

  /** Every value of a non-empty range is some draw's outcome: the model does not
      narrow the set of integers randint can produce. */
  lemma RandIntCovers(a: int, b: int, k: int)
    requires a <= k <= b
    ensures RandInt(a, b, k - a) == Some(k)
  {
    assert (k - a) % (b - a + 1) == k - a;
  }

  /** random.uniform(a, b) for a raw draw u of random.random(). */
  function Uniform(a: real, b: real, u: real): (r: real)
    requires IsUnit(u)
    ensures a <= b ==> a <= r <= b
    ensures a < b ==> r < b
  {
    a + Scaled(b - a, u)
  }

  /** A span d scaled by a unit draw: between 0 and d, and short of d when d > 0. */
  function Scaled(d: real, u: real): (p: real)
    requires IsUnit(u)
    ensures d >= 0.0 ==> 0.0 <= p <= d
    ensures d > 0.0 ==> p < d
  {
    ScaledBounds(d, u);
    d * u
  }

  lemma ScaledBounds(d: real, u: real)
    requires IsUnit(u)
    ensures d >= 0.0 ==> 0.0 <= d * u <= d
    ensures d > 0.0 ==> d * u < d
  {
    if d >= 0.0 {
      MulNonneg(d, u);
      MulNonneg(d, 1.0 - u);
      Distribute(d, u);
    }
    if d > 0.0 {
      MulPos(d, 1.0 - u);
    }
  }

  /** Every real in [a, b) is some draw's outcome. */
  lemma UniformCovers(a: real, b: real, r: real)
    requires a <= r < b
    ensures IsUnit((r - a) / (b - a)) && Uniform(a, b, (r - a) / (b - a)) == r
  {
    DivUnit(r - a, b - a);
    MulDivCancel(r - a, b - a);
  }

  /** random.choice([True, False]): the draw selects index 0 (True) or 1 (False). */
  function ChoiceTrueFalse(draw: nat): bool {
    [true, false][draw % 2]
  }

  /** Both outcomes of the coin are reachable. */
  lemma ChoiceCovers(b: bool)
    ensures ChoiceTrueFalse(if b then 0 else 1) == b
  {
  }
}
