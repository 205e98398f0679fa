/** Shared vocabulary. */
module Basics {
  datatype Option<+T> = None | Some(value: T)

  lemma MulAtLeast(k: nat, m: nat)
    requires k >= 1
    ensures k * m >= m
  {
    assert k * m == m + (k - 1) * m;
  }
}
