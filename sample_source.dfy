/** The host's credit-based sample source (`sample_generator` in scope_motor.py).

    The Python generator is modelled as an object with an explicit suspension
    point: `Next()` runs the generator body up to its next `yield` (or to its
    end), `Close()` is what the runtime does when the consumer abandons a
    suspended generator (it raises at the `yield`, so the `finally` block runs).
    The serial port is an abstract channel that hands out a fixed stream of
    incoming bytes and records the control bytes written to it.

    Every method is proved against a pure specification over `Gen`, the
    generator's counters together with the channel's read and write counts;
    the protocol's properties are lemmas about that specification. */
module SampleSource {
  import opened Common

  /** Credit below which (inclusive) another chunk is requested. */
  const RequestLead: int := 500

  /** Samples the device sends for one request byte. */
  const ChunkSize: int := 100

  /** The control byte that asks the device for `ChunkSize` more samples. */
  const RequestByte: Byte := 1

  /** Where the generator body stands between two calls. */
  datatype Phase = Fresh | Suspended | Finished

  /** `requested` and `yielded` are the generator's `requested_remaining` and
      `total_yielded`; `readCount` and `writeCount` count the bytes read from and the
      request bytes written to the channel since the generator was created. */
  datatype Gen = Gen(phase: Phase, requested: int, yielded: int, readCount: int, writeCount: int)

  /** A generator that has been created but not yet started. */
  const Start: Gen := Gen(Fresh, 0, 0, 0, 0)

  /** The generator's `done()`: the limit, if any, has been reached. */
  predicate LimitReached(s: Gen, limit: Option<nat>)
  {
    limit.Some? && s.yielded == limit.value
  }

  /** The state at every evaluation of the loop conditions: every byte read
      was yielded, and what was read plus what is still owed is what was
      requested. */
  predicate AtCheck(s: Gen, limit: Option<nat>)
  {
    0 <= s.requested <= RequestLead + ChunkSize
    && 0 <= s.readCount == s.yielded && 0 <= s.writeCount
    && s.readCount + s.requested == ChunkSize * s.writeCount
    && (limit.None? || s.yielded <= limit.value)
  }

  /** What holds between calls. At the suspension point the byte just read has
      not yet been subtracted from the credit; a finished generator owes nothing,
      and has read at most one byte more than it requested. */
  predicate Inv(s: Gen, limit: Option<nat>)
  {
    0 <= s.readCount && 0 <= s.writeCount &&
    match s.phase
    case Fresh => s == Start
    case Suspended =>
      RequestLead < s.requested <= RequestLead + ChunkSize
      && s.readCount == s.yielded + 1
      && s.readCount + s.requested == ChunkSize * s.writeCount + 1
      && (limit.None? || s.yielded < limit.value)
    case Finished =>
      s.requested == 0 && ChunkSize * s.writeCount <= s.readCount <= ChunkSize * s.writeCount + 1
  }

  /** Number of request bytes written, from a loop check with credit `r` and
      the limit not reached, before the next byte is read. */
  function RequestsNeeded(r: int): nat
  {
    if r > RequestLead then 0 else (RequestLead - r) / ChunkSize + 1
  }

  /** The `finally` block: read and discard every byte still owed. */
  function Drained(s: Gen): (t: Gen)
    ensures t.phase == Finished
    ensures t.requested == Min(s.requested, 0)
    ensures t.readCount == s.readCount + Max(s.requested, 0)
    ensures t.yielded == s.yielded + Max(s.requested, 0)
    ensures t.writeCount == s.writeCount
    decreases s.requested
  {
    if s.requested > 0 then
      Drained(s.(yielded := s.yielded + 1, readCount := s.readCount + 1, requested := s.requested - 1))
    else
      s.(phase := Finished)
  }

  /** The loops of the generator body run from a loop check: read a byte and
      suspend at the `yield` if credit exceeds the lead, otherwise write a
      request byte and check again; once the limit is reached, drain. */
  function Resumed(s: Gen, limit: Option<nat>): (t: Gen)
    ensures t.phase == Finished <==> LimitReached(s, limit)
    ensures t.phase != Finished ==>
      t.phase == Suspended && t.requested > RequestLead
      && t.readCount == s.readCount + 1 && t.yielded == s.yielded && t.writeCount >= s.writeCount
    decreases if s.requested > RequestLead then 0 else RequestLead + 1 - s.requested
  {
    if LimitReached(s, limit) then Drained(s)
    else if s.requested > RequestLead then s.(phase := Suspended, readCount := s.readCount + 1)
    else Resumed(s.(writeCount := s.writeCount + 1, requested := s.requested + ChunkSize), limit)
  }

  /** One call of `next()` on the generator. A sample is produced exactly when
      the result is `Suspended`. */
  function AfterNext(s: Gen, limit: Option<nat>): (t: Gen)
    ensures t.phase != Fresh
    ensures s.phase == Finished ==> t == s
    ensures t.writeCount >= s.writeCount
  {
    match s.phase
    case Fresh => Resumed(s, limit)
    case Suspended => Resumed(s.(requested := s.requested - 1, yielded := s.yielded + 1), limit)
    case Finished => s
  }

  /** Abandoning the generator: an unstarted one just ends, a suspended one
      runs its `finally` block from the `yield`, before the credit for the
      byte just read has been subtracted. */
  function AfterClose(s: Gen): (t: Gen)
    ensures t.phase == Finished && t.writeCount == s.writeCount
    ensures s.phase == Suspended ==> t.readCount == s.readCount + Max(s.requested, 0)
  {
    match s.phase
    case Fresh => s.(phase := Finished)
    case Suspended => Drained(s)
    case Finished => s
  }

  /** The evidently intended abandonment: the byte yielded at the suspension
      point is accounted for before draining, so the drain reads exactly the
      bytes still in flight and the channel ends balanced. */
  function AfterCorrectedClose(s: Gen, limit: Option<nat>): (t: Gen)
    requires Inv(s, limit)
    ensures t.phase == Finished && t.requested == 0
    ensures s.phase != Finished ==> t.readCount == ChunkSize * t.writeCount
  {
    match s.phase
    case Fresh => s.(phase := Finished)
    case Suspended => Drained(s.(requested := s.requested - 1, yielded := s.yielded + 1))
    case Finished => s
  }

  /** Samples produced by the generator so far, for a generator not yet finished. */
  function Emitted(s: Gen): int
  {
    if s.phase == Suspended then s.yielded + 1 else s.yielded
  }

  /** `n` successive calls of `next()`: the final state and how many of the
      calls produced a sample. */
  function Pulls(s: Gen, limit: Option<nat>, n: nat): (Gen, nat)
    decreases n
  {
    if n == 0 then (s, 0)
    else
      var t := AfterNext(s, limit);
      var rest := Pulls(t, limit, n - 1);
      (rest.0, rest.1 + if t.phase == Suspended then 1 else 0)
  }

  /** The normalised voltage of one received byte, `1.1 * byte / 256`. */
  function Scale(b: Byte): (v: real)
    ensures 0.0 <= v < 1.1
  {
    11.0 * b as real / 2560.0
  }

  /** From a loop check, the generator either reaches its limit and drains,
      consuming exactly the requested bytes, or writes just enough request
      bytes to lift the credit above the lead and then reads one byte, with
      the credit in 501..600 at that read. */
  lemma {:induction false} ResumedFromCheck(s: Gen, limit: Option<nat>)
    requires AtCheck(s, limit)
    ensures var t := Resumed(s, limit);
      Inv(t, limit) && t.phase != Fresh
      && (LimitReached(s, limit) ==>
            t.phase == Finished && t.writeCount == s.writeCount && t.requested == 0
            && t.readCount == ChunkSize * s.writeCount)
      && (!LimitReached(s, limit) ==>
            t.phase == Suspended && t.yielded == s.yielded && t.readCount == s.readCount + 1
            && t.writeCount == s.writeCount + RequestsNeeded(s.requested))
    decreases RequestLead + 1 - s.requested
  {
    if !LimitReached(s, limit) && s.requested <= RequestLead {
      var s' := s.(writeCount := s.writeCount + 1, requested := s.requested + ChunkSize);
      ResumedFromCheck(s', limit);
      assert RequestsNeeded(s.requested) == RequestsNeeded(s'.requested) + 1;
    }
  }

  /** Writing a request byte at a loop check leaves the rest of the run unchanged. */
  lemma RequestStep(s: Gen, limit: Option<nat>)
    requires !LimitReached(s, limit) && s.requested <= RequestLead
    ensures Resumed(s, limit)
         == Resumed(s.(writeCount := s.writeCount + 1, requested := s.requested + ChunkSize), limit)
  {
  }

  /** `next()` keeps the invariant: credit never negative, and at every read
      it lies in 501..600. */
  lemma NextKeepsInv(s: Gen, limit: Option<nat>)
    requires Inv(s, limit)
    ensures Inv(AfterNext(s, limit), limit)
  {
    match s.phase
    case Fresh => ResumedFromCheck(s, limit);
    case Suspended => ResumedFromCheck(s.(requested := s.requested - 1, yielded := s.yielded + 1), limit);
    case Finished =>
  }

  /** Abandoning keeps the invariant. */
  lemma CloseKeepsInv(s: Gen, limit: Option<nat>)
    requires Inv(s, limit)
    ensures Inv(AfterClose(s), limit)
  {
  }

  /** No byte is read before six request bytes (600 samples of credit) have
      been written. */
  lemma SixRequestsBeforeFirstRead(limit: Option<nat>)
    requires limit != Some(0)
    ensures var t := AfterNext(Start, limit);
      t.phase == Suspended && t.readCount == 1 && t.writeCount == 6 && t.requested == 600
  {
    ResumedFromCheck(Start, limit);
  }

  /** Each call on a generator that has not finished produces a sample while
      the limit has not been reached, and otherwise completes, having read
      every byte it requested and no more. */
  lemma NextStep(s: Gen, limit: Option<nat>)
    requires Inv(s, limit) && s.phase != Finished
    ensures limit.None? || Emitted(s) <= limit.value
    ensures var t := AfterNext(s, limit);
      Inv(t, limit)
      && ((limit.None? || Emitted(s) < limit.value) ==>
            t.phase == Suspended && Emitted(t) == Emitted(s) + 1)
      && ((limit.Some? && Emitted(s) == limit.value) ==> Balanced(t))
  {
    NextKeepsInv(s, limit);
    if s.phase == Fresh {
      ResumedFromCheck(s, limit);
    } else {
      ResumedFromCheck(s.(requested := s.requested - 1, yielded := s.yielded + 1), limit);
    }
  }

  /** A finished generator stays finished and produces nothing. */
  lemma {:induction false} PullsFinished(s: Gen, limit: Option<nat>, n: nat)
    requires s.phase == Finished
    ensures Pulls(s, limit, n) == (s, 0)
  {
    if n > 0 {
      PullsFinished(s, limit, n - 1);
    }
  }

  /** A finished generator that has read exactly what it requested. */
  predicate Balanced(t: Gen)
  {
    t.phase == Finished && t.requested == 0 && t.readCount == ChunkSize * t.writeCount
  }

  /** One call, then the rest. */
  lemma PullsUnfold(s: Gen, limit: Option<nat>, n: nat)
    requires n > 0
    ensures var t := AfterNext(s, limit);
      Pulls(s, limit, n).0 == Pulls(t, limit, n - 1).0
      && Pulls(s, limit, n).1 == Pulls(t, limit, n - 1).1 + if t.phase == Suspended then 1 else 0
  {
  }

  /** From any reachable unfinished state, with limit `L`, the generator
      produces exactly the `L - Emitted(s)` samples still due and then
      completes with every requested byte consumed. */
  lemma {:induction false} PullsWithLimit(s: Gen, L: nat, n: nat)
    requires Inv(s, Some(L)) && s.phase != Finished
    ensures Emitted(s) <= L
    ensures Pulls(s, Some(L), n).1 == Min(n, L - Emitted(s))
    ensures n > L - Emitted(s) ==> Balanced(Pulls(s, Some(L), n).0)
    decreases n
  {
    NextStep(s, Some(L));
    if n > 0 {
      if Emitted(s) == L {
        PullsAtLimit(s, L, n);
      } else {
        PullsBelowLimit(s, L, n);
        PullsWithLimit(AfterNext(s, Some(L)), L, n - 1);
      }
    }
  }

  /** At the limit, the next call completes and nothing more is produced. */
  lemma PullsAtLimit(s: Gen, L: nat, n: nat)
    requires Inv(s, Some(L)) && s.phase != Finished && Emitted(s) == L && n > 0
    ensures Pulls(s, Some(L), n).1 == 0 && Balanced(Pulls(s, Some(L), n).0)
  {
    NextStep(s, Some(L));
    PullsUnfold(s, Some(L), n);
    PullsFinished(AfterNext(s, Some(L)), Some(L), n - 1);
  }

  /** Below the limit, the next call produces a sample and leaves a reachable
      unfinished state. */
  lemma PullsBelowLimit(s: Gen, L: nat, n: nat)
    requires Inv(s, Some(L)) && s.phase != Finished && Emitted(s) < L && n > 0
    ensures var t := AfterNext(s, Some(L));
      Inv(t, Some(L)) && t.phase == Suspended && Emitted(t) == Emitted(s) + 1
      && Pulls(s, Some(L), n) == (Pulls(t, Some(L), n - 1).0, Pulls(t, Some(L), n - 1).1 + 1)
  {
    NextStep(s, Some(L));
    PullsUnfold(s, Some(L), n);
  }

  /** With limit `L` the source yields exactly `L` samples and then stops,
      with the channel balanced: what was read is what was requested. */
  lemma LimitYieldsExactly(L: nat, n: nat)
    ensures Pulls(Start, Some(L), n).1 == Min(n, L)
    ensures n > L ==> Balanced(Pulls(Start, Some(L), n).0)
  {
    PullsWithLimit(Start, L, n);
  }

  /** Without a limit the source never completes: every call yields a sample. */
  lemma {:induction false} UnlimitedNeverCompletes(s: Gen, n: nat)
    requires Inv(s, None) && s.phase != Finished
    ensures Pulls(s, None, n).1 == n
    ensures n > 0 ==> Pulls(s, None, n).0.phase == Suspended
    decreases n
  {
    if n > 0 {
      NextStep(s, None);
      UnlimitedNeverCompletes(AfterNext(s, None), n - 1);
    }
  }

  /** As written, abandoning the generator at its `yield` drains the whole
      credit although the byte just yielded was already part of it: the
      channel is read one byte past everything that was requested. */
  lemma CloseAtYieldOverdrains(s: Gen, limit: Option<nat>)
    requires Inv(s, limit) && s.phase == Suspended
    ensures var t := AfterClose(s);
      t.readCount == s.readCount + s.requested && t.readCount == ChunkSize * t.writeCount + 1
  {
  }

  /** A concrete instance: take one sample from an unlimited source and
      abandon it. Six request bytes asked for 600 samples; 601 are read. */
  lemma OverdrainAfterFirstSample()
    ensures var t := AfterClose(AfterNext(Start, None));
      t.writeCount == 6 && t.readCount == 601 && t.readCount > ChunkSize * t.writeCount
  {
    SixRequestsBeforeFirstRead(None);
  }

  /** The serial port as seen by the source: a fixed stream of incoming bytes
      (what the device sends, in order) and the control bytes written so far. */
  class Channel {
    const incoming: nat -> Byte
    var position: nat
    var written: seq<Byte>

    constructor (incoming: nat -> Byte)
      ensures this.incoming == incoming && position == 0 && written == []
    {
      this.incoming := incoming;
      position := 0;
      written := [];
    }

    /** Blocking read of the next incoming byte. */
    method Read() returns (b: Byte)
      modifies this`position
      ensures position == old(position) + 1 && b == incoming(old(position))
    {
      b := incoming(position);
      position := position + 1;
    }

    /** Write one control byte. */
    method Write(b: Byte)
      modifies this`written
      ensures written == old(written) + [b]
    {
      written := written + [b];
    }
  }

  /** The generator object returned by `sample_generator(limit)`. */
  class SampleGenerator {
    const channel: Channel
    const limit: Option<nat>
    var requestedRemaining: int
    var totalYielded: int
    var phase: Phase
    ghost const readsBefore: nat
    ghost const writesBefore: nat

    /** The abstract state: counters and the channel traffic of this generator. */
    ghost function State(): Gen
      reads this, channel
    {
      Gen(phase, requestedRemaining, totalYielded,
          channel.position - readsBefore, |channel.written| - writesBefore)
    }

    /** The only control byte this generator ever writes is the request byte. */
    ghost predicate OnlyRequests()
      reads this, channel
    {
      writesBefore <= |channel.written|
      && forall i | writesBefore <= i < |channel.written| :: channel.written[i] == RequestByte
    }

    ghost predicate Valid()
      reads this, channel
    {
      readsBefore <= channel.position && OnlyRequests() && Inv(State(), limit)
    }

    constructor (channel: Channel, limit: Option<nat>)
      ensures this.channel == channel && this.limit == limit
      ensures Valid() && State() == Start
    {
      this.channel := channel;
      this.limit := limit;
      requestedRemaining := 0;
      totalYielded := 0;
      phase := Fresh;
      readsBefore := channel.position;
      writesBefore := |channel.written|;
    }

    /** The generator's `done()`; its assertion `total_yielded <= limit` is
        the precondition, proved at every call. */
    function Done(): (d: bool)
      reads this
      requires limit.None? || totalYielded <= limit.value
      ensures limit.None? ==> !d
      ensures d ==> totalYielded == limit.value
    {
      limit.Some? && totalYielded == limit.value
    }

    /** `next()`: resume after the `yield` (or start), then run the loops. */
    method Next() returns (sample: Option<real>)
      requires Valid()
      modifies this, channel
      ensures Valid()
      ensures State() == AfterNext(old(State()), limit)
      ensures old(channel.written) <= channel.written
      ensures phase == Suspended ==>
        channel.position > 0 && sample == Some(Scale(channel.incoming(channel.position - 1)))
      ensures phase != Suspended ==> sample == None
    {
      ghost var s0 := State();
      if phase == Finished {
        return None;
      }
      if phase == Suspended {
        // execution continues after the `yield`
        requestedRemaining := requestedRemaining - 1;
        totalYielded := totalYielded + 1;
      }
      ghost var s1 := State();
      assert AfterNext(s0, limit) == Resumed(s1, limit);
      assert AtCheck(s1, limit);
      sample := Run();
      NextKeepsInv(s0, limit);
    }

    /** The generator body's loops, from a loop check: until the next `yield`,
        or until the limit is reached and the `finally` block has run. */
    method Run() returns (sample: Option<real>)
      requires readsBefore <= channel.position && OnlyRequests() && AtCheck(State(), limit)
      modifies this, channel
      ensures readsBefore <= channel.position && OnlyRequests()
      ensures State() == Resumed(old(State()), limit)
      ensures old(channel.written) <= channel.written
      ensures phase == Suspended ==>
        channel.position > 0 && sample == Some(Scale(channel.incoming(channel.position - 1)))
      ensures phase != Suspended ==> sample == None
    {
      ghost var target := Resumed(State(), limit);
      while !Done()
        invariant readsBefore <= channel.position && OnlyRequests()
        invariant AtCheck(State(), limit) && Resumed(State(), limit) == target
        invariant old(channel.written) <= channel.written
        decreases RequestLead + 1 - requestedRemaining
      {
        // the inner loop: its body ends at the `yield`, and resuming
        // re-enters at this check (see `Next`)
        if !Done() && requestedRemaining > RequestLead {
          ghost var before := State();
          var c := channel.Read();
          phase := Suspended;
          assert State() == before.(phase := Suspended, readCount := before.readCount + 1);
          return Some(Scale(c));
        }
        if !Done() {
          ghost var before, w := State(), channel.written;
          channel.Write(RequestByte);
          requestedRemaining := requestedRemaining + ChunkSize;
          assert channel.written == w + [RequestByte];
          assert State() == before.(writeCount := before.writeCount + 1, requested := before.requested + ChunkSize);
          RequestStep(before, limit);
        }
      }
      assert target == Drained(State());
      Drain();
      return None;
    }

    /** The `finally` block: read and discard the bytes still owed. */
    method Drain()
      requires readsBefore <= channel.position && OnlyRequests()
      modifies this, channel
      ensures readsBefore <= channel.position && OnlyRequests()
      ensures State() == Drained(old(State()))
      ensures channel.written == old(channel.written)
    {
      while requestedRemaining > 0
        invariant readsBefore <= channel.position && OnlyRequests()
        invariant channel.written == old(channel.written)
        invariant Drained(State()) == Drained(old(State()))
      {
        totalYielded := totalYielded + 1;
        var _ := channel.Read();
        requestedRemaining := requestedRemaining - 1;
      }
      phase := Finished;
    }

    /** Abandoning the generator: if it is suspended at the `yield`, the
        `finally` block runs from there. */
    method Close()
      requires Valid()
      modifies this, channel
      ensures Valid()
      ensures State() == AfterClose(old(State()))
      ensures channel.written == old(channel.written)
    {
      CloseKeepsInv(State(), limit);
      if phase == Suspended {
        Drain();
      }
      phase := Finished;
    }

    /** The evidently intended abandonment: the byte already yielded is
        subtracted from the credit before the drain, which then reads exactly
        the bytes still owed and leaves the channel balanced. */
    method CorrectedClose()
      requires Valid()
      modifies this, channel
      ensures Valid() && State() == AfterCorrectedClose(old(State()), limit)
      ensures old(phase) != Finished ==> Balanced(State())
      ensures channel.written == old(channel.written)
    {
      if phase == Suspended {
        requestedRemaining := requestedRemaining - 1;
        totalYielded := totalYielded + 1;
        Drain();
      }
      phase := Finished;
    }
  }
}
