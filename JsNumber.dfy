/** The few JavaScript number idioms the engine relies on, over exact reals. */
module JsNumber {
  import opened Wrappers

  /** `o || fallback` on a possibly-absent number: absent and 0 are both falsy. */
  function Or(o: Option<real>, fallback: real): real
  {
    if o.Some? && o.value != 0.0 then o.value else fallback
  }

  /** Rounding a non-negative value to two decimals, ties going up. */
  function RoundUp2(x: real): (r: real)
    requires x >= 0.0
    ensures x - 0.005 < r <= x + 0.005
    ensures r >= 0.0
    ensures (r * 100.0).Floor as real == r * 100.0
  {
    var n := (x * 100.0 + 0.5).Floor;
    assert n as real <= x * 100.0 + 0.5 < n as real + 1.0;
    assert (n as real / 100.0) * 100.0 == n as real;
    n as real / 100.0
  }

  /** `Number(x.toFixed(2))`: the nearest multiple of 0.01, ties away from zero
      (toFixed rounds the magnitude and then restores the sign). */
  function Round2(x: real): (r: real)
    ensures x - 0.005 <= r <= x + 0.005
    ensures (r * 100.0).Floor as real == r * 100.0
  {
    if x < 0.0 then
      var u := RoundUp2(-x);
      NegatedCents(u);
      -u
    else
      RoundUp2(x)
  }

  /** A whole number of hundredths stays one when negated. */
  lemma NegatedCents(u: real)
    requires (u * 100.0).Floor as real == u * 100.0
    ensures (-u * 100.0).Floor as real == -u * 100.0
  {
    var n := (u * 100.0).Floor;
    assert -u * 100.0 == (-n) as real;
  }

  /** Rounding an already rounded value changes nothing. */
  lemma Round2Idempotent(x: real)
    ensures Round2(Round2(x)) == Round2(x)
  {
    var r := Round2(x);
    var n := (r * 100.0).Floor;
    assert r == n as real / 100.0;
    if r < 0.0 {
      assert (-r * 100.0 + 0.5).Floor == -n;
    } else {
      assert (r * 100.0 + 0.5).Floor == n;
    }
  }

  /** Rounding keeps a value inside the grade scale [0, 10]. */
  lemma Round2WithinScale(x: real)
    requires 0.0 <= x <= 10.0
    ensures 0.0 <= Round2(x) <= 10.0
  {
    assert (x * 100.0 + 0.5).Floor <= 1000;
  }

  /** `Math.min(hi, Math.max(lo, x))`. */
  function Clamp(lo: real, hi: real, x: real): (r: real)
    requires lo <= hi
    ensures lo <= r <= hi
    ensures lo <= x <= hi ==> r == x
  {
    if x < lo then lo else if x > hi then hi else x
  }
}
