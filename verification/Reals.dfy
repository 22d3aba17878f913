/** Exact arithmetic that both rate limiters compute with. */
module Reals {

  function Min(a: real, b: real): real { if a < b then a else b }

  lemma ProductIsNonnegative(a: real, b: real)
    requires a >= 0.0 && b >= 0.0
    ensures a * b >= 0.0
  {
  }

  lemma ProductIsMonotone(a: real, b: real, r: real)
    requires a <= b && r >= 0.0
    ensures a * r <= b * r
  {
    assert (b - a) * r >= 0.0;
  }

  /** The bound on a run, put together from its first call and the calls after it. */
  lemma BoundAdds(n: nat, more: nat, level: real, before: real, here: real, later: real)
    requires level + n as real <= before + here && more as real <= level + later
    ensures (n + more) as real <= before + (here + later)
  {
  }

  lemma ProductDistributes(a: real, b: real, r: real)
    ensures (a + b) * r == a * r + b * r
  {
  }
}
