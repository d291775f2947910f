/** Types shared by the host and the device models. */
module Common {

  /** One octet on the serial link. */
  newtype Byte = x: int | 0 <= x < 256

  /** A value that may be absent: a sample or the end of a stream, a cycle
      measurement or nothing, the index of the last transition or none yet. */
  datatype Option<T> = None | Some(value: T)

  function Min(a: int, b: int): int { if a <= b then a else b }

  function Max(a: int, b: int): int { if a <= b then b else a }

  /** `numpy.sum` of a one-dimensional array of reals. */
  function Sum(a: seq<real>): real
  {
    if |a| == 0 then 0.0 else a[0] + Sum(a[1..])
  }

  /** The sum of a sequence is the sum of its two parts. */
  lemma {:induction false} SumSplit(a: seq<real>, i: nat)
    requires i <= |a|
    ensures Sum(a) == Sum(a[..i]) + Sum(a[i..])
  {
    if i > 0 {
      SumSplit(a[1..], i - 1);
      assert a[1..][..i - 1] == a[..i][1..];
      assert a[1..][i - 1..] == a[i..];
    }
  }
}
