/** The cycle detector (`schmitt_trigger` in scope_motor.py). The input is cut
    into buffers of `bufferSize` values; for each buffer a lower and an upper
    threshold are taken as percentiles of the buffer, and a two-state
    hysteresis detector walks the buffer with a running sample count,
    emitting the count distance between successive low-to-high transitions.

    The percentile function is a parameter (the source uses numpy's or
    scipy's); it is evaluated afresh for every value, as in the source, and
    is constant over a walk because the buffer is not written during it. The
    source's loop never ends; the model runs a given number of refills. */
module SchmittTrigger {
  import opened Common

  /** Default percentiles of the source. */
  const DefaultLowerPercentile: real := 30.0
  const DefaultUpperPercentile: real := 70.0

  /** The detector's parameters: buffer size, percentile function, and the
      lower and upper percentiles. */
  datatype Config = Config(bufferSize: nat, percentile: (seq<real>, real) -> real,
                           lowerPct: real, upperPct: real)

  /** The source's configuration for a given buffer size and percentile
      function: the default percentiles 30 and 70. */
  function DefaultConfig(bufferSize: nat, percentile: (seq<real>, real) -> real): (c: Config)
    ensures c.bufferSize == bufferSize && c.percentile == percentile
    ensures c.lowerPct < c.upperPct
  {
    Config(bufferSize, percentile, DefaultLowerPercentile, DefaultUpperPercentile)
  }

  /** The detector state: `low`, `last_low_high_transition` and `count`. */
  datatype Detector = Detector(low: bool, last: Option<int>, count: nat)

  const Initial: Detector := Detector(true, None, 0)

  function AsSeq(e: Option<int>): seq<int>
  {
    if e.Some? then [e.value] else []
  }

  /** One value through the detector, with thresholds `lo` and `hi`: the
      low-to-high test comes first, then the high-to-low test sees the same
      value, then the count advances. The second component is what is
      yielded, if anything. */
  function Step(d: Detector, v: real, lo: real, hi: real): (r: (Detector, Option<int>))
    ensures r.0.count == d.count + 1
    ensures d.low && !r.0.low ==> v >= hi
    ensures !d.low && r.0.low ==> v < lo
    ensures r.1.Some? ==> d.low && v >= hi && d.last.Some? && r.1.value == d.count - d.last.value
  {
    var rises := d.low && v >= hi;
    var low := if rises then false else d.low;
    var emitted := if rises && d.last.Some? then Some(d.count - d.last.value) else None;
    var last := if rises then Some(d.count) else d.last;
    (Detector(if !low && v < lo then true else low, last, d.count + 1), emitted)
  }

  /** What a walk over one buffer produces: the final detector state, the
      values yielded, and the counts at which the detector went from low to
      high. */
  datatype Walked = Walked(detector: Detector, yielded: seq<int>, rises: seq<int>)

  /** The walk over the first `n` values of one buffer. */
  function Walk(d: Detector, buf: seq<real>, n: nat, lo: real, hi: real): (r: Walked)
    requires n <= |buf|
    ensures r.detector.count == d.count + n
  {
    if n == 0 then Walked(d, [], []) else WalkStep(Walk(d, buf, n - 1, lo, hi), buf[n - 1], lo, hi)
  }

  /** One more value through a walk. */
  function WalkStep(w: Walked, v: real, lo: real, hi: real): (r: Walked)
    ensures r.detector.count == w.detector.count + 1
  {
    var step := Step(w.detector, v, lo, hi);
    var rise := if w.detector.low && v >= hi then [w.detector.count] else [];
    Walked(step.0, w.yielded + AsSeq(step.1), w.rises + rise)
  }

  /** Differences of consecutive elements. */
  function Diffs(a: seq<int>): (r: seq<int>)
    ensures |a| > 0 ==> |r| == |a| - 1
  {
    if |a| <= 1 then [] else seq(|a| - 1, i requires 0 <= i < |a| - 1 => a[i + 1] - a[i])
  }

  function LastOf(a: seq<int>): Option<int>
  {
    if a == [] then None else Some(a[|a| - 1])
  }

  /** The scan over the input: detector, buffer contents, how much input has
      been taken, everything yielded so far, and (for the specification) the
      counts of all low-to-high transitions so far. */
  datatype Scan = Scan(detector: Detector, buf: seq<real>, next: nat, out: seq<int>, rises: seq<int>)

  /** Number of input values one refill takes. */
  function Taken(buf: seq<real>, inputs: seq<real>, next: nat): nat
    requires next <= |inputs|
  {
    Min(|buf|, |inputs| - next)
  }

  /** The refill: `islice` hands over up to `|buf|` further values, which
      overwrite a prefix of the buffer; when the input runs short, the rest of
      the buffer keeps its previous contents. */
  function Refill(buf: seq<real>, inputs: seq<real>, next: nat): (b: seq<real>)
    requires next <= |inputs|
    ensures |b| == |buf|
  {
    var n := Taken(buf, inputs, next);
    inputs[next..next + n] + buf[n..]
  }

  /** A refill takes the next `Taken` inputs, in order, into the front of the
      buffer and leaves the rest of the buffer as it was. */
  lemma RefillContents(buf: seq<real>, inputs: seq<real>, next: nat)
    requires next <= |inputs|
    ensures forall i :: 0 <= i < Taken(buf, inputs, next) ==> Refill(buf, inputs, next)[i] == inputs[next + i]
    ensures forall i :: Taken(buf, inputs, next) <= i < |buf| ==> Refill(buf, inputs, next)[i] == buf[i]
  {
  }

  function Lower(c: Config, buf: seq<real>): real { c.percentile(buf, c.lowerPct) }

  function Upper(c: Config, buf: seq<real>): real { c.percentile(buf, c.upperPct) }

  /** One iteration of the outer loop: refill, then walk the buffer. */
  function Round(c: Config, inputs: seq<real>, s: Scan): (t: Scan)
    requires s.next <= |inputs|
    ensures t.next <= |inputs| && |t.buf| == |s.buf|
    ensures t.detector.count == s.detector.count + |s.buf|
  {
    var buf := Refill(s.buf, inputs, s.next);
    var w := Walk(s.detector, buf, |buf|, Lower(c, buf), Upper(c, buf));
    Scan(w.detector, buf, s.next + Taken(s.buf, inputs, s.next), s.out + w.yielded, s.rises + w.rises)
  }

  /** The first `k` iterations of the outer loop. `count` grows by exactly
      the buffer size per refill. */
  function Rounds(c: Config, inputs: seq<real>, k: nat): (t: Scan)
    ensures t.next <= |inputs| && |t.buf| == c.bufferSize
    ensures t.detector.count == k * c.bufferSize
  {
    if k == 0 then Scan(Initial, seq(c.bufferSize, _ => 0.0), 0, [], [])
    else Round(c, inputs, Rounds(c, inputs, k - 1))
  }

  /** The detector run for `rounds` refills of its buffer. */
  method SchmittTrigger(inputs: seq<real>, c: Config, rounds: nat) returns (out: seq<int>)
    ensures out == Rounds(c, inputs, rounds).out
  {
    var buf := new real[c.bufferSize](_ => 0.0);
    var low := true;
    var last: Option<int> := None;
    var count := 0;
    var next := 0;
    out := [];
    ghost var rises := [];
    for round := 0 to rounds
      invariant buf.Length == c.bufferSize
      invariant Scan(Detector(low, last, count), buf[..], next, out, rises) == Rounds(c, inputs, round)
    {
      ghost var s := Rounds(c, inputs, round);
      low, last, count, next, out := RefillAndWalk(c, inputs, buf, low, last, count, next, out, s);
      rises := Round(c, inputs, s).rises;
    }
  }

  /** One iteration of the outer loop on the buffer. */
  method RefillAndWalk(c: Config, inputs: seq<real>, buf: array<real>,
                       low: bool, last: Option<int>, count: nat, next: nat, out: seq<int>, ghost s: Scan)
    returns (low': bool, last': Option<int>, count': nat, next': nat, out': seq<int>)
    requires next <= |inputs|
    requires s == Scan(Detector(low, last, count), buf[..], next, out, s.rises)
    modifies buf
    ensures var t := Round(c, inputs, s);
      Scan(Detector(low', last', count'), buf[..], next', out', t.rises) == t
  {
    next' := RefillBuffer(buf, inputs, next);
    low', last', count', out' := WalkBuffer(c, buf, low, last, count, out);
  }

  /** `islice` into the buffer: copies the next values of the input over a
      prefix of the buffer and returns the new input position. */
  method RefillBuffer(buf: array<real>, inputs: seq<real>, next: nat) returns (next': nat)
    requires next <= |inputs|
    modifies buf
    ensures buf[..] == Refill(old(buf[..]), inputs, next)
    ensures next' == next + Taken(old(buf[..]), inputs, next)
  {
    ghost var b := buf[..];
    next' := next;
    var i := 0;
    while i < buf.Length && next' < |inputs|
      invariant 0 <= i <= buf.Length && next' == next + i <= |inputs|
      invariant forall j :: 0 <= j < i ==> buf[j] == inputs[next + j]
      invariant forall j :: i <= j < buf.Length ==> buf[j] == b[j]
    {
      buf[i] := inputs[next'];
      i := i + 1;
      next' := next' + 1;
    }
    assert buf[..] == inputs[next..next'] + b[i..];
  }

  /** The walk over the buffer, with the thresholds recomputed from the
      (unchanging) buffer for every value. */
  method WalkBuffer(c: Config, buf: array<real>, low: bool, last: Option<int>, count: nat, out: seq<int>)
    returns (low': bool, last': Option<int>, count': nat, out': seq<int>)
    ensures var w := Walk(Detector(low, last, count), buf[..], buf.Length, Lower(c, buf[..]), Upper(c, buf[..]));
      Detector(low', last', count') == w.detector && out' == out + w.yielded
  {
    ghost var d := Detector(low, last, count);
    ghost var lo, hi := Lower(c, buf[..]), Upper(c, buf[..]);
    low', last', count', out' := low, last, count, out;
    for j := 0 to buf.Length
      invariant Detector(low', last', count') == Walk(d, buf[..], j, lo, hi).detector
      invariant out' == out + Walk(d, buf[..], j, lo, hi).yielded
    {
      var v := buf[j];
      if low' && v >= c.percentile(buf[..], c.upperPct) {
        low' := false;
        if last'.Some? {
          out' := out' + [count' - last'.value];
        }
        last' := Some(count');
      }
      if !low' && v < c.percentile(buf[..], c.lowerPct) {
        low' := true;
      }
      count' := count' + 1;
    }
  }

  /** Once the input is exhausted, a refill takes nothing and the same stale
      buffer is walked again. */
  lemma ExhaustedInputRewalksStaleBuffer(c: Config, inputs: seq<real>, k: nat)
    requires Rounds(c, inputs, k).next == |inputs|
    ensures Rounds(c, inputs, k + 1).buf == Rounds(c, inputs, k).buf
    ensures Rounds(c, inputs, k + 1).next == |inputs|
  {
    var s := Rounds(c, inputs, k);
    assert Refill(s.buf, inputs, s.next) == s.buf;
  }

  /** Appending one element to a sequence appends one difference (none for
      the first element). */
  lemma DiffsSnoc(a: seq<int>, x: int)
    ensures Diffs(a + [x]) == Diffs(a) + (if a == [] then [] else [x - a[|a| - 1]])
  {
    var b := a + [x];
    if |a| >= 1 {
      assert |Diffs(b)| == |Diffs(a)| + 1;
      forall i | 0 <= i < |Diffs(b)|
        ensures Diffs(b)[i] == (Diffs(a) + [x - a[|a| - 1]])[i]
      {
        if i < |a| - 1 {
          assert b[i] == a[i] && b[i + 1] == a[i + 1];
        }
      }
    }
  }

  /** Differences across a concatenation: those of the first part, then those
      of the second part preceded by the first part's last element. */
  lemma DiffsAppend(a: seq<int>, b: seq<int>)
    ensures Diffs(a + b) == Diffs(a) + Diffs(AsSeq(LastOf(a)) + b)
  {
    if a == [] {
      assert a + b == b && AsSeq(LastOf(a)) + b == b;
    } else if b == [] {
      assert a + b == a;
    } else {
      var ab, lb := a + b, [a[|a| - 1]] + b;
      assert |Diffs(ab)| == |Diffs(a)| + |Diffs(lb)|;
      forall i | 0 <= i < |Diffs(ab)|
        ensures Diffs(ab)[i] == (Diffs(a) + Diffs(lb))[i]
      {
        if i >= |a| - 1 {
          var j := i - (|a| - 1);
          assert ab[i] == lb[j] && ab[i + 1] == lb[j + 1];
        }
      }
    }
  }

  /** Within one walk, the values yielded are exactly the differences of
      consecutive low-to-high counts, the first of them measured from the
      transition remembered when the walk began (so a first transition ever
      yields nothing), and the detector remembers the latest transition. */
  lemma {:induction false} WalkYieldsGaps(d: Detector, buf: seq<real>, n: nat, lo: real, hi: real)
    requires n <= |buf|
    ensures GapsSince(d.last, Walk(d, buf, n, lo, hi))
  {
    if n > 0 {
      WalkYieldsGaps(d, buf, n - 1, lo, hi);
      StepKeepsGaps(d.last, Walk(d, buf, n - 1, lo, hi), buf[n - 1], lo, hi);
    }
  }

  /** The walk has yielded the differences of consecutive low-to-high counts,
      starting from the transition `start` remembered when it began, and
      remembers the latest transition. */
  predicate GapsSince(start: Option<int>, w: Walked)
  {
    var all := AsSeq(start) + w.rises;
    w.yielded == Diffs(all) && w.detector.last == LastOf(all)
  }

  lemma StepKeepsGaps(start: Option<int>, w: Walked, v: real, lo: real, hi: real)
    requires GapsSince(start, w)
    ensures GapsSince(start, WalkStep(w, v, lo, hi))
  {
    var all := AsSeq(start) + w.rises;
    if w.detector.low && v >= hi {
      assert AsSeq(start) + WalkStep(w, v, lo, hi).rises == all + [w.detector.count];
      DiffsSnoc(all, w.detector.count);
    } else {
      assert AsSeq(start) + WalkStep(w, v, lo, hi).rises == all;
    }
  }

  /** The scan has yielded exactly the differences of consecutive
      low-to-high counts, and remembers the last of them. */
  predicate YieldsGaps(s: Scan)
  {
    s.out == Diffs(s.rises) && s.detector.last == LastOf(s.rises)
  }

  /** Over the whole run, the values yielded are the differences of
      consecutive low-to-high counts: the first transition yields nothing and
      every later one yields its distance from the one before. */
  lemma {:induction false} RoundsYieldGaps(c: Config, inputs: seq<real>, k: nat)
    ensures YieldsGaps(Rounds(c, inputs, k))
  {
    if k > 0 {
      RoundsYieldGaps(c, inputs, k - 1);
      RoundYieldsGaps(c, inputs, Rounds(c, inputs, k - 1));
    }
  }

  /** One iteration of the outer loop extends the yielded differences by
      those of its own low-to-high counts. */
  lemma RoundYieldsGaps(c: Config, inputs: seq<real>, s: Scan)
    requires s.next <= |inputs| && YieldsGaps(s)
    ensures YieldsGaps(Round(c, inputs, s))
  {
    var buf := Refill(s.buf, inputs, s.next);
    var lo, hi := Lower(c, buf), Upper(c, buf);
    var rises := Walk(s.detector, buf, |buf|, lo, hi).rises;
    WalkYieldsGaps(s.detector, buf, |buf|, lo, hi);
    DiffsAppend(s.rises, rises);
    LastOfAppend(s.rises, rises);
  }

  lemma LastOfAppend(a: seq<int>, b: seq<int>)
    ensures LastOf(a + b) == LastOf(AsSeq(LastOf(a)) + b)
  {
    if b == [] {
      assert a + b == a;
    }
  }

  /** A remembered transition lies before the current count, and a detector
      that is high has one. */
  predicate Ordered(d: Detector)
  {
    (d.last.Some? ==> 0 <= d.last.value < d.count) && (!d.low ==> d.last.Some?)
  }

  /** Ordered, and a detector that has gone back low is at least two counts
      past its last transition. */
  predicate Spaced(d: Detector)
  {
    Ordered(d) && (d.low && d.last.Some? ==> d.last.value + 2 <= d.count)
  }

  /** Every value yielded by a walk from an ordered state is at least 1,
      whatever the thresholds. */
  lemma {:induction false} WalkYieldsAtLeastOne(d: Detector, buf: seq<real>, n: nat, lo: real, hi: real)
    requires n <= |buf| && Ordered(d)
    ensures var w := Walk(d, buf, n, lo, hi);
      Ordered(w.detector) && forall i :: 0 <= i < |w.yielded| ==> w.yielded[i] >= 1
  {
    if n > 0 {
      WalkYieldsAtLeastOne(d, buf, n - 1, lo, hi);
    }
  }

  /** With the lower threshold not above the upper one, every value yielded
      by a walk from a spaced state is at least 2: a transition back to low
      needs a value below the lower threshold, so it cannot happen on the
      value that went high. */
  lemma {:induction false} WalkYieldsAtLeastTwo(d: Detector, buf: seq<real>, n: nat, lo: real, hi: real)
    requires n <= |buf| && lo <= hi && Spaced(d)
    ensures var w := Walk(d, buf, n, lo, hi);
      Spaced(w.detector) && forall i :: 0 <= i < |w.yielded| ==> w.yielded[i] >= 2
  {
    if n > 0 {
      WalkYieldsAtLeastTwo(d, buf, n - 1, lo, hi);
    }
  }

  /** Every value the detector yields is at least 1. */
  lemma {:induction false} YieldsAtLeastOne(c: Config, inputs: seq<real>, k: nat)
    ensures Ordered(Rounds(c, inputs, k).detector)
    ensures forall i :: 0 <= i < |Rounds(c, inputs, k).out| ==> Rounds(c, inputs, k).out[i] >= 1
  {
    if k > 0 {
      YieldsAtLeastOne(c, inputs, k - 1);
      var s := Rounds(c, inputs, k - 1);
      var buf := Refill(s.buf, inputs, s.next);
      WalkYieldsAtLeastOne(s.detector, buf, |buf|, Lower(c, buf), Upper(c, buf));
    }
  }

  /** When the percentile function never puts the lower threshold above the
      upper one, every value yielded is at least 2. */
  lemma {:induction false} YieldsAtLeastTwo(c: Config, inputs: seq<real>, k: nat)
    requires forall b :: c.percentile(b, c.lowerPct) <= c.percentile(b, c.upperPct)
    ensures Spaced(Rounds(c, inputs, k).detector)
    ensures forall i :: 0 <= i < |Rounds(c, inputs, k).out| ==> Rounds(c, inputs, k).out[i] >= 2
  {
    if k > 0 {
      YieldsAtLeastTwo(c, inputs, k - 1);
      var s := Rounds(c, inputs, k - 1);
      var buf := Refill(s.buf, inputs, s.next);
      assert Lower(c, buf) <= Upper(c, buf);
      WalkYieldsAtLeastTwo(s.detector, buf, |buf|, Lower(c, buf), Upper(c, buf));
    }
  }

  /** With the default percentiles and a percentile function that is
      monotone in the percentile (as numpy's is), every value yielded is at
      least 2. */
  lemma DefaultYieldsAtLeastTwo(bufferSize: nat, percentile: (seq<real>, real) -> real,
                                inputs: seq<real>, k: nat)
    requires forall b, x, y :: x <= y ==> percentile(b, x) <= percentile(b, y)
    ensures var out := Rounds(DefaultConfig(bufferSize, percentile), inputs, k).out;
      forall i :: 0 <= i < |out| ==> out[i] >= 2
  {
    var c := DefaultConfig(bufferSize, percentile);
    forall b
      ensures c.percentile(b, c.lowerPct) <= c.percentile(b, c.upperPct)
    {
      assert c.lowerPct <= c.upperPct;
    }
    YieldsAtLeastTwo(c, inputs, k);
  }
}
