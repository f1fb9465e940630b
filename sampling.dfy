/** The fixed-point sampling gate shared by TargetedLoss and SimpleReorder.
    A probability is an integer out of 2^28 (SAMPLING_SHIFT fractional bits);
    a 32-bit random draw is masked to its low 28 bits and compared with it. */
module Sampling {
  import opened Common

  const SAMPLING_SHIFT: nat := 28
  /** (1 << SAMPLING_SHIFT) - 1 */
  const SAMPLING_MASK: u32 := 0x0FFF_FFFF
  /** 1 << SAMPLING_SHIFT: the fixed-point representation of 1.0 */
  const SAMPLING_ONE: u32 := 0x1000_0000

  /** `draw & SAMPLING_MASK`: for an unsigned value, masking with 2^28 - 1
      keeps the remainder modulo 2^28. */
  function Masked(draw: u32): (m: u32)
    ensures m <= SAMPLING_MASK
    ensures draw <= SAMPLING_MASK ==> m == draw
  {
    draw % SAMPLING_ONE
  }

  /** The gate `(draw & SAMPLING_MASK) <= prob`: TargetedLoss starts a burst and
      SimpleReorder holds a packet exactly when it is true. Any probability of
      at least 2^28 - 1 (the configured default 0xFFFFFFFF among them) always
      samples, and probability 0 still samples a draw whose low 28 bits are 0. */
  function Sampled(draw: u32, prob: u32): (r: bool)
    ensures prob >= SAMPLING_MASK ==> r
    ensures prob == 0 ==> (r <==> draw % SAMPLING_ONE == 0)
  {
    Masked(draw) <= prob
  }

  /** A write to the sampling_prob handler: the value parsed by
      FixedPointArg(SAMPLING_SHIFT), or None when the text did not parse.
      Returns the probability to store, or None for a rejected write. */
  function ProbWrite(parsed: Option<u32>): (r: Option<u32>)
    ensures r.Some? <==> parsed.Some? && parsed.value <= SAMPLING_ONE
    ensures r.Some? ==> r.value == parsed.value && r.value <= SAMPLING_ONE
  {
    if parsed.None? || parsed.value > SAMPLING_ONE then None else parsed
  }
}
