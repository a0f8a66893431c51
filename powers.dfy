/** Integer powers of reals: the projection only ever raises rates to whole year counts. */
module Powers {

  /** x raised to the n-th power. */
  function Pow(x: real, n: nat): real
  {
    if n == 0 then 1.0 else x * Pow(x, n - 1)
  }

  lemma {:induction false} PowPositive(x: real, n: nat)
    requires x > 0.0
    ensures Pow(x, n) > 0.0
  {
    if n > 0 {
      PowPositive(x, n - 1);
      assert Pow(x, n) == x * Pow(x, n - 1);
    }
  }

  lemma {:induction false} PowNonZero(x: real, n: nat)
    requires x != 0.0
    ensures Pow(x, n) != 0.0
  {
    if n > 0 {
      PowNonZero(x, n - 1);
      assert Pow(x, n) == x * Pow(x, n - 1);
    }
  }

  lemma {:induction false} PowOfOne(n: nat)
    ensures Pow(1.0, n) == 1.0
  {
    if n > 0 {
      PowOfOne(n - 1);
    }
  }

  /** A base of at least one never yields a power below one. */
  lemma {:induction false} PowAtLeastOne(x: real, n: nat)
    requires x >= 1.0
    ensures Pow(x, n) >= 1.0
  {
    if n > 0 {
      PowAtLeastOne(x, n - 1);
      var p := Pow(x, n - 1);
      assert x * p - p == (x - 1.0) * p;
      assert (x - 1.0) * p >= 0.0;
    }
  }

  /** For a base above one, powers grow strictly with the exponent. */
  lemma {:induction false} PowIncreasing(x: real, m: nat, n: nat)
    requires x > 1.0 && m < n
    ensures 1.0 <= Pow(x, m) < Pow(x, n)
  {
    PowAtLeastOne(x, m);
    PowAtLeastOne(x, n - 1);
    var p := Pow(x, n - 1);
    assert Pow(x, n) == x * p;
    assert x * p - p == (x - 1.0) * p;
    assert (x - 1.0) * p > 0.0;
    if m < n - 1 {
      PowIncreasing(x, m, n - 1);
    }
  }

  /** For a base strictly between zero and one, powers stay in (0, 1] and shrink strictly. */
  lemma {:induction false} PowDecreasing(x: real, n: nat)
    requires 0.0 < x < 1.0
    ensures 0.0 < Pow(x, n) <= 1.0
    ensures Pow(x, n + 1) < Pow(x, n)
  {
    PowPositive(x, n);
    var p := Pow(x, n);
    assert Pow(x, n + 1) == x * p;
    assert p - x * p == (1.0 - x) * p;
    assert (1.0 - x) * p > 0.0;
    if n > 0 {
      PowDecreasing(x, n - 1);
    }
  }
}
