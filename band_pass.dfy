/** The band-pass filter (`band_pass` in scope_motor.py): a long window slides
    over the input one value at a time; each output is the kernel-weighted
    mean of a centred short sub-window minus the kernel-weighted mean of the
    whole long window. Values are exact reals; the two kernels (normalised
    Hamming windows in the source) are parameters of the given lengths. */
module BandPass {
  import opened Common

  /** Result of running the filter over a finite input: the values it emits
      before the input runs out, or the failed assertion `short < long`. */
  datatype Filtered = Filtered(values: seq<real>) | InvalidConfiguration

  /** `numpy.sum(a * b)` for two arrays of one length. */
  function Dot(a: seq<real>, b: seq<real>): real
    requires |a| == |b|
  {
    if |a| == 0 then 0.0 else a[0] * b[0] + Dot(a[1..], b[1..])
  }

  /** A window of `n` copies of `c`. */
  function Constant(c: real, n: nat): (w: seq<real>)
    ensures |w| == n && forall i :: 0 <= i < n ==> w[i] == c
  {
    seq(n, _ => c)
  }

  /** `numpy.roll(w, -1)`: every element moves one place towards the front and
      the first becomes the last. */
  function RollLeft(w: seq<real>): (r: seq<real>)
    requires |w| > 0
    ensures |r| == |w| && r[|w| - 1] == w[0]
    ensures forall i :: 0 <= i < |w| - 1 ==> r[i] == w[i + 1]
  {
    w[1..] + [w[0]]
  }

  /** Offset of the short window inside the long one, `long/2 - short/2`.
      The short window lies inside the long one, with the margins on its two
      sides differing by at most one. */
  function ShortStart(shortSize: nat, longSize: nat): (start: nat)
    requires shortSize < longSize
    ensures start + shortSize <= longSize
    ensures -1 <= (longSize - start - shortSize) - start <= 1
  {
    longSize / 2 - shortSize / 2
  }

  /** The value emitted for one full long window. */
  function Response(window: seq<real>, shortSize: nat, shortKernel: seq<real>, longKernel: seq<real>): real
    requires shortSize < |window| && |shortKernel| == shortSize && |longKernel| == |window|
  {
    var start := ShortStart(shortSize, |window|);
    Dot(window[start..start + shortSize], shortKernel) - Dot(window, longKernel)
  }

  /** The responses to the first `count` windows of the input, in order. */
  function Responses(inputs: seq<real>, shortSize: nat, shortKernel: seq<real>, longKernel: seq<real>,
                     count: nat): (r: seq<real>)
    requires shortSize < |longKernel| && |shortKernel| == shortSize
    requires count + |longKernel| <= |inputs|
    ensures |r| == count
  {
    seq(count, k requires 0 <= k < count =>
      Response(inputs[k..k + |longKernel|], shortSize, shortKernel, longKernel))
  }

  /** One more window, one more response at the end. */
  lemma ResponsesNext(inputs: seq<real>, shortSize: nat, shortKernel: seq<real>, longKernel: seq<real>,
                      count: nat)
    requires shortSize < |longKernel| && |shortKernel| == shortSize
    requires count + 1 + |longKernel| <= |inputs|
    ensures Responses(inputs, shortSize, shortKernel, longKernel, count + 1)
         == Responses(inputs, shortSize, shortKernel, longKernel, count)
            + [Response(inputs[count..count + |longKernel|], shortSize, shortKernel, longKernel)]
  {
  }

  /** The filter run until its input is exhausted. It emits one value per input
      read after the first `longSize + 1`, so `|inputs| - longSize` values in
      all; value `k` is the response to the window `inputs[k..k + longSize]`.
      The filter reads one value ahead, so the last full window is never
      emitted. */
  method BandPass(inputs: seq<real>, shortSize: nat, longSize: nat,
                  shortKernel: seq<real>, longKernel: seq<real>) returns (r: Filtered)
    requires |shortKernel| == shortSize && |longKernel| == longSize
    ensures r.InvalidConfiguration? <==> longSize <= shortSize
    ensures r.Filtered? ==> |r.values| == Max(0, |inputs| - longSize)
    ensures r.Filtered? ==> forall k :: 0 <= k < |r.values| ==>
      r.values[k] == Response(inputs[k..k + longSize], shortSize, shortKernel, longKernel)
  {
    if !(shortSize < longSize) {
      return InvalidConfiguration;
    }
    var longWindow := Constant(0.0, longSize);
    var next := 0;  // index of the next input value
    for i := 0 to longSize
      invariant next == i && |longWindow| == longSize
      invariant i <= |inputs| && longWindow[..i] == inputs[..i]
    {
      if next == |inputs| {
        return Filtered([]);
      }
      longWindow := longWindow[i := inputs[next]];
      next := next + 1;
    }
    assert longWindow == inputs[..longSize];
    if next == |inputs| {
      return Filtered([]);
    }
    var out := Slide(inputs, shortSize, shortKernel, longKernel, longWindow);
    return Filtered(out);
  }

  /** The filter's main loop, entered with the long window primed with the
      first `|longWindow|` inputs: emit, shift the next input in, read ahead. */
  method Slide(inputs: seq<real>, shortSize: nat, shortKernel: seq<real>, longKernel: seq<real>,
               primed: seq<real>) returns (out: seq<real>)
    requires shortSize < |primed| < |inputs| && primed == inputs[..|primed|]
    requires |shortKernel| == shortSize && |longKernel| == |primed|
    ensures out == Responses(inputs, shortSize, shortKernel, longKernel, |inputs| - |primed|)
  {
    var longSize := |primed|;
    var longWindow := primed;
    var next := longSize;
    var v := inputs[next];
    next := next + 1;
    out := [];
    while true
      invariant longSize < next <= |inputs| && v == inputs[next - 1]
      invariant longWindow == inputs[next - 1 - longSize..next - 1]
      invariant out == Responses(inputs, shortSize, shortKernel, longKernel, next - 1 - longSize)
      decreases |inputs| - next
    {
      var start := longSize / 2 - shortSize / 2;
      var shortWindow := longWindow[start..start + shortSize];
      var emitted := Dot(shortWindow, shortKernel) - Dot(longWindow, longKernel);
      assert emitted == Response(longWindow, shortSize, shortKernel, longKernel);
      ResponsesNext(inputs, shortSize, shortKernel, longKernel, next - 1 - longSize);
      out := out + [emitted];
      ghost var w := longWindow;
      longWindow := RollLeft(longWindow);
      longWindow := longWindow[longSize - 1 := v];
      RollThenWriteLast(w, v);
      assert longWindow == inputs[next - longSize..next] by {
        assert w[1..] == inputs[next - longSize..next - 1];
      }
      if next == |inputs| {
        return;
      }
      v := inputs[next];
      next := next + 1;
    }
  }

  /** Rolling the window left and overwriting its last element drops the
      oldest value and appends the new one. */
  lemma RollThenWriteLast(w: seq<real>, v: real)
    requires |w| > 0
    ensures RollLeft(w)[|w| - 1 := v] == w[1..] + [v]
  {
  }

  /** The weighted sum of a constant window is the constant times the sum of
      the weights. */
  lemma {:induction false} DotConstant(c: real, k: seq<real>)
    ensures Dot(Constant(c, |k|), k) == c * Sum(k)
  {
    if |k| > 0 {
      DotConstant(c, k[1..]);
      assert Constant(c, |k|)[1..] == Constant(c, |k| - 1);
    }
  }

  /** Zero DC gain: with both kernels normalised to sum to one, a constant
      input window gives output zero. */
  lemma ConstantWindowGivesZero(c: real, shortSize: nat, longSize: nat,
                                shortKernel: seq<real>, longKernel: seq<real>)
    requires shortSize < longSize && |shortKernel| == shortSize && |longKernel| == longSize
    requires Sum(shortKernel) == 1.0 && Sum(longKernel) == 1.0
    ensures Response(Constant(c, longSize), shortSize, shortKernel, longKernel) == 0.0
  {
    var start := ShortStart(shortSize, longSize);
    assert Constant(c, longSize)[start..start + shortSize] == Constant(c, shortSize);
    DotConstant(c, shortKernel);
    DotConstant(c, longKernel);
  }
}
