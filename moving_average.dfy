/** The windowed mean (`moving_average` in scope_motor.py): a prefix sum, then
    differences of prefix sums `n` apart, then every complete window divided
    by `n`. Values are exact reals. */
module MovingAverage {
  import opened Common

  /** `numpy.cumsum`: the running total, accumulated left to right. */
  function CumSum(a: seq<real>): (r: seq<real>)
    ensures |r| == |a|
  {
    if a == [] then []
    else
      var before := CumSum(a[..|a| - 1]);
      before + [(if before == [] then 0.0 else before[|before| - 1]) + a[|a| - 1]]
  }

  /** The in-place update `ret[n:] = ret[n:] - ret[:-n]`: the right-hand side
      is evaluated in full before it is stored, so every element from `n` on
      loses the prefix sum `n` places before it, and the first `n` are kept. */
  function WindowSums(ret: seq<real>, n: nat): (w: seq<real>)
    requires n >= 1
    ensures |w| == |ret|
    ensures forall i :: 0 <= i < n && i < |ret| ==> w[i] == ret[i]
    ensures forall i :: n <= i < |ret| ==> w[i] == ret[i] - ret[i - n]
  {
    seq(|ret|, i requires 0 <= i < |ret| => if i >= n then ret[i] - ret[i - n] else ret[i])
  }

  /** `ret[n - 1:] / n`: the entries that close a complete window. */
  function MovingAverage(a: seq<real>, n: nat): (m: seq<real>)
    requires n >= 1
    ensures |m| == Max(0, |a| - n + 1)
  {
    var w := WindowSums(CumSum(a), n);
    seq(Max(0, |a| - n + 1), i requires 0 <= i < Max(0, |a| - n + 1) => w[i + n - 1] / n as real)
  }

  /** Each prefix sum is the sum of the prefix. */
  lemma {:induction false} CumSumIsPrefixSum(a: seq<real>)
    ensures forall i :: 0 <= i < |a| ==> CumSum(a)[i] == Sum(a[..i + 1])
  {
    if a != [] {
      var a' := a[..|a| - 1];
      CumSumIsPrefixSum(a');
      forall i | 0 <= i < |a|
        ensures CumSum(a)[i] == Sum(a[..i + 1])
      {
        if i < |a| - 1 {
          assert a[..i + 1] == a'[..i + 1];
        } else {
          assert a[..i + 1] == a;
          SumSplit(a, i);
          assert a[i..] == [a[i]] && Sum([a[i]]) == a[i];
          if i > 0 {
            assert a'[..i] == a' == a[..i];
          }
        }
      }
    }
  }

  /** There are `|a| - n + 1` outputs (none when the input is shorter than a
      window), and output `i` is the mean of the window `a[i..i + n]`. */
  lemma MovingAverageIsWindowMean(a: seq<real>, n: nat)
    requires n >= 1
    ensures |MovingAverage(a, n)| == Max(0, |a| - n + 1)
    ensures forall i :: 0 <= i < |MovingAverage(a, n)| ==>
      MovingAverage(a, n)[i] == Sum(a[i..i + n]) / n as real
  {
    var c := CumSum(a);
    CumSumIsPrefixSum(a);
    forall i | 0 <= i < |MovingAverage(a, n)|
      ensures MovingAverage(a, n)[i] == Sum(a[i..i + n]) / n as real
    {
      var j := i + n - 1;
      SumSplit(a[..j + 1], i);
      assert a[..j + 1][..i] == a[..i] && a[..j + 1][i..] == a[i..i + n];
      if i > 0 {
        assert c[i - 1] == Sum(a[..i]);
      } else {
        assert a[..i] == [];
      }
    }
  }
}
