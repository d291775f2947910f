/** The device firmware (scope_motor.c): a timer interrupt that drives a
    software PWM output, an ADC interrupt that forwards every eleventh
    conversion, and a main loop that answers one-byte commands from the host.

    Each interrupt body is one atomic step; the UART library (`uart.h`) is
    abstract: `uart_putc` appends to the bytes sent, `uart_getc` takes the
    next pending result or returns the library's no-data sentinel. */
module Firmware {
  import opened Common
  import SampleSource

  /** The AVR's `unsigned int`: 16 bits. */
  newtype Word = x: int | 0 <= x < 0x1_0000

  /** Initial value of `on_time`. */
  const InitialOnTime: Word := 128

  /** Last value of the PWM phase before it wraps to 0. */
  const PhaseTop: Word := 0xFF

  /** Value of `adc_divider` at which a conversion is sent. */
  const DividerTop: Word := 10

  /** Bytes sent in answer to command 1. */
  const BurstLength: nat := 100

  /** The answer to command 2, `"Hello\n"`. */
  const Hello: seq<Byte> := [72, 101, 108, 108, 111, 10]

  /** The phase after one timer overflow: up by one, 255 wraps to 0. */
  function NextPhase(p: Word): (q: Word)
    requires p <= PhaseTop
    ensures q <= PhaseTop && q as int == (p as int + 1) % 256
  {
    if p == PhaseTop then 0 else p + 1
  }

  /** The PWM output during the overflow at phase `p`. */
  predicate PwmHigh(p: Word, onTime: Word)
  {
    p < onTime
  }

  /** Number of the `n` overflows starting at phase `p` during which the
      output is set. */
  function HighTicks(p: Word, onTime: Word, n: nat): (h: nat)
    requires p <= PhaseTop
    ensures h <= n
    decreases n
  {
    if n == 0 then 0
    else (if PwmHigh(p, onTime) then 1 else 0) + HighTicks(NextPhase(p), onTime, n - 1)
  }

  /** Before the wrap, the phases are `p, p + 1, ...` and the output is set
      for those below `on_time`. */
  lemma {:induction false} HighTicksNoWrap(p: Word, onTime: Word, n: nat)
    requires p <= PhaseTop && p as int + n <= 256
    ensures HighTicks(p, onTime, n) == Max(0, Min(onTime as int, p as int + n) - p as int)
    decreases n
  {
    if n > 0 && p < PhaseTop {
      HighTicksNoWrap(p + 1, onTime, n - 1);
    }
  }

  /** A run that passes the wrap splits there. */
  lemma {:induction false} HighTicksWrap(p: Word, onTime: Word, n: nat)
    requires p <= PhaseTop && 256 - p as int <= n
    ensures HighTicks(p, onTime, n) == HighTicks(p, onTime, 256 - p as int) + HighTicks(0, onTime, n - (256 - p as int))
    decreases PhaseTop - p
  {
    if p < PhaseTop {
      HighTicksWrap(p + 1, onTime, n - 1);
    }
  }

  /** Duty cycle: over any 256 consecutive overflows the output is set
      exactly `min(on_time, 256)` times, wherever the phase starts. */
  lemma DutyCycle(p: Word, onTime: Word)
    requires p <= PhaseTop
    ensures HighTicks(p, onTime, 256) == Min(onTime as int, 256)
  {
    var t := onTime as int;
    HighTicksWrap(p, onTime, 256);
    HighTicksNoWrap(p, onTime, 256 - p as int);
    HighTicksNoWrap(0, onTime, p as int);
    if t <= p as int {
      assert HighTicks(p, onTime, 256 - p as int) == 0 && HighTicks(0, onTime, p as int) == t;
    } else {
      assert HighTicks(p, onTime, 256 - p as int) == Min(t, 256) - p as int;
      assert HighTicks(0, onTime, p as int) == p as int;
    }
  }

  /** The divider after one ADC interrupt. */
  function NextDivider(d: Word): (e: Word)
    requires d <= DividerTop
    ensures e <= DividerTop && e as int == (d as int + 1) % 11
  {
    if d == DividerTop then 0 else d + 1
  }

  /** `n` ADC interrupts from divider value `d`: the final divider and the
      number of conversions sent. */
  function AdcRun(d: Word, n: nat): (r: (Word, nat))
    requires d <= DividerTop
    ensures r.0 <= DividerTop && r.1 <= n
    decreases n
  {
    if n == 0 then (d, 0)
    else
      var rest := AdcRun(NextDivider(d), n - 1);
      (rest.0, rest.1 + if d == DividerTop then 1 else 0)
  }

  /** The divider counts interrupts modulo 11 and one conversion in eleven
      is sent. */
  lemma {:induction false} AdcSendsOneInEleven(d: Word, n: nat)
    requires d <= DividerTop
    ensures AdcRun(d, n).0 as int == (d as int + n) % 11
    ensures AdcRun(d, n).1 == (d as int + n) / 11
    decreases n
  {
    if n > 0 {
      var e := NextDivider(d);
      AdcSendsOneInEleven(e, n - 1);
      if d == DividerTop {
        assert e == 0;
        assert d as int + n == (n - 1) + 11;
      } else {
        assert e as int == d as int + 1;
      }
    }
  }

  /** What the main loop sends in answer to the command value `c`. */
  function Reply(c: Word, adc: nat -> Byte): (r: seq<Byte>)
    ensures |r| == if c == 1 then BurstLength else if c == 2 then |Hello| else 0
  {
    if c == 1 then seq(BurstLength, i requires 0 <= i => adc(i))
    else if c == 2 then Hello
    else []
  }

  /** Command 1 answers with one chunk of samples, the amount the host
      credits per request byte; command 2 with the greeting; every other
      value with nothing. */
  lemma ReplySizes(c: Word, adc: nat -> Byte)
    ensures c == 1 ==> |Reply(c, adc)| == SampleSource.ChunkSize
    ensures c == 1 ==> forall i :: 0 <= i < |Reply(c, adc)| ==> Reply(c, adc)[i] == adc(i)
    ensures c == 2 ==> Reply(c, adc) == Hello && |Hello| == 6
    ensures c != 1 && c != 2 ==> Reply(c, adc) == []
  {
  }

  /** The device's globals and its view of the UART. */
  class Device {
    /** `UART_NO_DATA`, returned by `uart_getc` when nothing is pending; it is
        defined in `uart.h`, outside this model, and lies above every byte. */
    const noData: Word
    var onTime: Word
    var onPhase: Word
    var adcDivider: Word
    /** `PWM_BIT` of `PWM_PORT`. */
    var pwmHigh: bool
    /** Everything passed to `uart_putc`, in order. */
    var sent: seq<Byte>
    /** What `uart_getc` will return, in order, before it runs dry. */
    var pending: seq<Word>

    ghost predicate Valid()
      reads this`onPhase, this`adcDivider, this`pending
    {
      onPhase <= PhaseTop && adcDivider <= DividerTop && noData > 255
      && forall i :: 0 <= i < |pending| ==> pending[i] != noData
    }

    constructor (noData: Word, pending: seq<Word>)
      requires noData > 255 && noData !in pending
      ensures Valid() && this.noData == noData && this.pending == pending
      ensures onTime == InitialOnTime && onPhase == 0 && adcDivider == 0 && !pwmHigh && sent == []
    {
      this.noData := noData;
      this.pending := pending;
      onTime := InitialOnTime;
      onPhase := 0;
      adcDivider := 0;
      pwmHigh := false;
      sent := [];
    }

    /** `ISR(TIMER0_OVF_vect)`: set the output iff the phase is below
        `on_time`, then advance the phase. */
    method TimerOverflow()
      requires Valid()
      modifies this`pwmHigh, this`onPhase
      ensures Valid()
      ensures pwmHigh == PwmHigh(old(onPhase), onTime) && onPhase == NextPhase(old(onPhase))
    {
      if onPhase < onTime {
        pwmHigh := true;
      } else {
        pwmHigh := false;
      }
      if onPhase == PhaseTop {
        onPhase := 0;
      } else {
        onPhase := onPhase + 1;
      }
    }

    /** `ISR(ADC_vect)`: every eleventh conversion result is sent. */
    method AdcInterrupt(adch: Byte)
      requires Valid()
      modifies this`adcDivider, this`sent
      ensures Valid() && adcDivider == NextDivider(old(adcDivider))
      ensures sent == old(sent) + if old(adcDivider) == DividerTop then [adch] else []
    {
      if adcDivider == DividerTop {
        Putc(adch);
        adcDivider := 0;
      } else {
        adcDivider := adcDivider + 1;
      }
    }

    method Putc(b: Byte)
      modifies this`sent
      ensures sent == old(sent) + [b]
    {
      sent := sent + [b];
    }

    method Getc() returns (c: Word)
      requires Valid()
      modifies this`pending
      ensures Valid()
      ensures old(pending) == [] ==> c == noData && pending == []
      ensures old(pending) != [] ==> c == old(pending)[0] && pending == old(pending)[1..]
    {
      if pending == [] {
        c := noData;
      } else {
        c := pending[0];
        pending := pending[1..];
      }
    }

    /** One pass of `main`'s loop: read a command value and answer it. */
    method Poll(adc: nat -> Byte)
      requires Valid()
      modifies this`sent, this`pending, this`onTime
      ensures Valid()
      ensures old(pending) == [] ==> sent == old(sent) && pending == [] && onTime == old(onTime)
      ensures old(pending) != [] ==> sent == old(sent) + Reply(old(pending)[0], adc)
      ensures old(pending) != [] && old(pending)[0] == 3 ==> pending == [] && onTime == noData
      ensures old(pending) != [] && old(pending)[0] != 3 ==> pending == old(pending)[1..] && onTime == old(onTime)
    {
      var c := Getc();
      Dispatch(c, adc);
    }

    /** The command dispatch in `main`'s loop. Command 1 sends 100 conversion
        results (`adc(i)` is `ADCH` at the `i`-th read), command 2 the
        greeting; command 3 reads until `uart_getc` reports no data and then
        stores that sentinel in `on_time`. */
    method Dispatch(c: Word, adc: nat -> Byte)
      requires Valid()
      modifies this`sent, this`pending, this`onTime
      ensures Valid()
      ensures sent == old(sent) + Reply(c, adc)
      ensures c == 3 ==> pending == [] && onTime == noData
      ensures c != 3 ==> pending == old(pending) && onTime == old(onTime)
    {
      if c == 1 {
        for i := 0 to BurstLength
          invariant sent == old(sent) + seq(i, j requires 0 <= j => adc(j))
          invariant pending == old(pending) && onTime == old(onTime)
        {
          Putc(adc(i));
        }
      } else if c == 2 {
        Puts(Hello);
      } else if c == 3 {
        var d := Getc();
        while d != noData
          invariant Valid() && (d == noData ==> pending == []) && sent == old(sent)
          decreases |pending| + if d == noData then 0 else 1
        {
          d := Getc();
        }
        onTime := d;
      }
    }

    /** `uart_puts`: every byte of the string, in order. */
    method Puts(s: seq<Byte>)
      modifies this`sent
      ensures sent == old(sent) + s
    {
      for i := 0 to |s|
        invariant sent == old(sent) + s[..i]
      {
        Putc(s[i]);
      }
    }

    /** The evidently intended command 3: wait for the next byte from the
        host and take it as the new `on_time`. */
    method SetSpeed()
      requires Valid() && pending != []
      modifies this`pending, this`onTime
      ensures Valid() && onTime == old(pending)[0] && pending == old(pending)[1..]
    {
      var d := Getc();
      onTime := d;
    }
  }

  /** As written, command 3 leaves `on_time` above every phase: from then on
      the output is set on every overflow. */
  lemma SpeedCommandSaturates(noData: Word, p: Word)
    requires noData > 255 && p <= PhaseTop
    ensures HighTicks(p, noData, 256) == 256
  {
    DutyCycle(p, noData);
  }

  /** With the intended command 3, a speed byte `b` from the host sets the
      output on `b` of every 256 overflows. */
  lemma SpeedByteSetsDuty(b: Byte, p: Word)
    requires p <= PhaseTop
    ensures HighTicks(p, b as int as Word, 256) == b as int
  {
    DutyCycle(p, b as int as Word);
  }
}
