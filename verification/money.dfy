/** Money as exact rationals. The source stores money in IEEE doubles and repairs them with
    `+x.toFixed(2)`; here the repair is `Round2`, applied at exactly the same places. */
module Money {

  /** `x` is a whole number of cents. */
  predicate IsCents(x: real) {
    (x * 100.0).Floor as real == x * 100.0
  }

  /** The integer number of cents of a value, after rounding it to cents. */
  function CentsOf(x: real): (k: int)
    ensures IsCents(x) ==> k as real == x * 100.0
  {
    if x >= 0.0 then
      var m := (x * 100.0 + 0.5).Floor;
      assert IsCents(x) ==> m == (x * 100.0).Floor;
      m
    else
      var m := ((-x) * 100.0 + 0.5).Floor;
      assert IsCents(x) ==> m == ((-x) * 100.0).Floor by {
        if IsCents(x) {
          assert (-x) * 100.0 == -(x * 100.0);
          assert ((-x) * 100.0).Floor == -(x * 100.0).Floor;
        }
      }
      -m
  }

  /** `+x.toFixed(2)`: round to two decimals; halves go away from zero, as `toFixed` does
      (it rounds the magnitude and restores the sign). */
  function Round2(x: real): (r: real)
    ensures IsCents(r)
    ensures r * 100.0 == CentsOf(x) as real
    ensures x >= 0.0 ==> x - 0.005 < r <= x + 0.005
    ensures x < 0.0 ==> x - 0.005 <= r < x + 0.005
    ensures IsCents(x) ==> r == x
    ensures x >= 0.0 ==> r >= 0.0
  {
    var k := CentsOf(x);
    var r := k as real / 100.0;
    assert r * 100.0 == k as real;
    assert (r * 100.0).Floor == k;
    r
  }

  /** Cents are closed under addition. */
  lemma CentsAdd(a: real, b: real)
    requires IsCents(a) && IsCents(b)
    ensures IsCents(a + b)
  {
    var ka := (a * 100.0).Floor;
    var kb := (b * 100.0).Floor;
    assert (a + b) * 100.0 == (ka + kb) as real;
  }

  /** A whole number of cents is its cents over one hundred. */
  lemma CentsBack(x: real)
    requires IsCents(x)
    ensures CentsOf(x) as real / 100.0 == x
  {
  }

  /** Rounding to cents moves a value by at most half a cent either way. */
  lemma RoundWithinHalfCent(x: real)
    ensures -0.005 <= Round2(x) - x <= 0.005
  {
  }
}
