/** The cycle frequency printed for each detector output (`cmd_count_cycles`
    in scope_motor.py). One sample is taken to last 1.14 ms, so a cycle of
    `n` samples lasts `1.14 * n` ms. Values are exact reals. */
module Frequency {

  /** Duration of one sample in milliseconds, as the source states it. */
  const SampleMillis: real := 1.14

  /** The expression as written, `1000. / n * 1.14`: the division happens
      first, so the sample duration multiplies the result instead of the
      period. */
  function PrintedFrequency(n: nat): (f: real)
    requires n > 0
    ensures f * n as real == 1000.0 * SampleMillis
  {
    1000.0 / n as real * SampleMillis
  }

  /** The frequency in hertz of a cycle of `n` samples: one second over the
      cycle's period. */
  function FrequencyHz(n: nat): (f: real)
    requires n > 0
    ensures f * (n as real * SampleMillis) == 1000.0
  {
    1000.0 / (n as real * SampleMillis)
  }

  /** The printed value is the intended one scaled by the square of the
      sample duration, so it is wrong for every cycle length. */
  lemma PrintedIsOffBySquare(n: nat)
    requires n > 0
    ensures PrintedFrequency(n) == FrequencyHz(n) * SampleMillis * SampleMillis
    ensures PrintedFrequency(n) != FrequencyHz(n)
  {
    var f, g := PrintedFrequency(n), FrequencyHz(n);
    assert f * n as real == g * n as real * SampleMillis * SampleMillis;
  }

  /** A concrete instance: a cycle of 100 samples lasts 114 ms, about
      8.77 Hz; the printed value is 11.4 Hz. */
  lemma PrintedAtHundredSamples()
    ensures PrintedFrequency(100) == 11.4
    ensures FrequencyHz(100) == 1000.0 / 114.0
  {
  }

  /** The corrected frequency recovers the cycle length: `n` samples of
      1.14 ms at `FrequencyHz(n)` cycles per second fill one second. */
  lemma FrequencyRoundTrip(n: nat)
    requires n > 0
    ensures 1000.0 / (FrequencyHz(n) * SampleMillis) == n as real
  {
    var f := FrequencyHz(n);
    assert f * SampleMillis * n as real == 1000.0;
  }
}
