# scope-motor in Dafny

A model of the measuring core of scope-motor. The project has two sides.

On the host (`scope_motor.py`):

- A credit-based sample source, `sample_generator`. It asks the device for samples in chunks of
  `CHUNK_SIZE` = 100 by writing the byte 1. It writes more requests whenever the outstanding
  credit falls to `REQUEST_LEAD` = 500 or below. Each received byte is yielded as the voltage
  `1.1 * byte / 256`. An optional limit stops it. When it stops or is abandoned, its `finally`
  block reads and discards `requested_remaining` bytes; when the generator is abandoned at the
  `yield`, that is one byte more than is still owed (see Findings).
- The band-pass filter `band_pass`.
- The hysteresis cycle detector `schmitt_trigger`. Its thresholds are percentiles of the current
  buffer.
- `moving_average`.
- The frequency printed for each detected cycle.

On the device (`scope_motor.c`):

- The timer interrupt that drives a software PWM output.
- The ADC interrupt that forwards every eleventh conversion.
- The command dispatch of the main loop: 1 sends 100 samples, 2 sends `"Hello\n"`, 3 is meant to
  set the speed, but stores the no-data sentinel (see Findings).

Modules:

- `Common`: bytes, options, `Min`/`Max` and sums of reals.
- `SampleSource`:
  - `Gen` holds the generator's counters together with the channel traffic. It comes with pure
    step functions (`AfterNext`, `AfterClose`, `Drained`) and the protocol lemmas.
  - `Channel` models the serial port: a fixed stream of incoming bytes and a log of the bytes
    written.
  - `SampleGenerator` is the generator object. Its `Next`, `Run`, `Drain` and `Close` methods are
    proved against the step functions.
- `BandPass`: the filter as a method over a finite input, proved against `Responses`.
- `SchmittTrigger`:
  - The detector's state and one-value `Step`.
  - `Walk` over one buffer and `Rounds` of refill-then-walk.
  - The imperative detector over an `array` buffer, proved equal to `Rounds`.
  - Lemmas on what it yields.
- `MovingAverage`: cumulative sums and window differences, proved to be window means.
- `Frequency`: the printed frequency and the corrected one.
- `Firmware`: the device's globals as the class `Device`, with one method per interrupt and per
  dispatch step, plus duty-cycle and divider lemmas.

Two behaviours of the code are easy to miss; the model follows the code as written:

- When the input runs short during a detector refill, the code does not stop. `islice` hands over
  fewer values and the rest of the buffer keeps its stale contents. The outer loop then walks
  the buffer again, forever.
- The cycle frequency is printed as `1000 / n * 1.14`, not as one over the cycle period (see
  Findings).

## Model

| member | source | states |
|---|---|---|
| SampleSource.Scale | scope_motor.py:50 | the yielded voltage `1.1 * b / 256` of a received byte lies in [0, 1.1) |
| SampleSource.Drained | scope_motor.py:57-62 | the `finally` drain reads exactly the bytes still owed (none if the credit is not positive), counts each one in `total_yielded`, writes nothing and leaves the credit at zero |
| SampleSource.Resumed | scope_motor.py:47-56 | the generator body's loops from a check end finished exactly when the limit is reached; otherwise they end suspended at the `yield` with the credit above `REQUEST_LEAD`, one byte more read, nothing more yielded and no request withdrawn |
| SampleSource.AfterNext | scope_motor.py:46-56 | a call of `next()` never leaves the generator unstarted, changes nothing once it has finished, and never withdraws a request |
| SampleSource.AfterClose | scope_motor.py:57-62 | abandoning ends the generator without writing; at the `yield` it reads the whole remaining credit |
| SampleSource.ResumedFromCheck | scope_motor.py:47-56 | from a loop check: at the limit the generator drains and has then read exactly `CHUNK_SIZE` bytes per request; otherwise it writes exactly enough request bytes to lift the credit above `REQUEST_LEAD` and reads one byte, with the credit in 501..600 at that read |
| SampleSource.NextKeepsInv | scope_motor.py:46-56 | one `next()` keeps the credit invariant: credit never negative, every byte read was yielded, reads plus credit equal `CHUNK_SIZE` per request at every loop check, and one more at the `yield`, where the byte just read is still counted in the credit |
| SampleSource.CloseKeepsInv | scope_motor.py:57-62 | abandoning keeps the invariant |
| SampleSource.SixRequestsBeforeFirstRead | scope_motor.py:47-56 | the first `next()` writes six request bytes (600 samples of credit) before its first read |
| SampleSource.NextStep | scope_motor.py:43-56 | a call on an unfinished generator yields one sample while the limit is not reached; at the limit it completes, balanced: every requested byte read, no more; `total_yielded` never exceeds the limit |
| SampleSource.PullsFinished | scope_motor.py:47 | a finished generator yields nothing more |
| SampleSource.PullsWithLimit | scope_motor.py:40-62 | from any reachable unfinished state with limit `L`, `n` calls yield `min(n, L - emitted)` samples, and beyond that the generator is finished and balanced |
| SampleSource.LimitYieldsExactly | scope_motor.py:40-62 | `sample_generator(L)` yields exactly `L` samples and then ends with reads equal to what was requested |
| SampleSource.UnlimitedNeverCompletes | scope_motor.py:43-56 | without a limit every call yields a sample |
| SampleSource.CloseAtYieldOverdrains | scope_motor.py:49-62 | abandoning at the `yield` drains the whole credit, which still counts the byte just yielded, so one byte more than requested is read |
| SampleSource.OverdrainAfterFirstSample | scope_motor.py:49-62 | taking one sample and abandoning: 6 requests (600 bytes), 601 reads |
| SampleSource.AfterCorrectedClose | scope_motor.py:57-62 | the intended abandonment ends finished with zero credit and reads exactly what was requested |
| SampleSource.Channel.constructor | scope_motor.py:28 | a fresh channel: nothing read, nothing written |
| SampleSource.Channel.Read | scope_motor.py:49 | a read returns the next incoming byte and advances by one |
| SampleSource.Channel.Write | scope_motor.py:55 | a write appends the byte to those written |
| SampleSource.SampleGenerator.constructor | scope_motor.py:40-42 | a new generator has zero credit, nothing yielded and no traffic |
| SampleSource.SampleGenerator.Done | scope_motor.py:43-45 | `done()`, whose assertion `total_yielded <= limit` is its precondition: an unlimited generator is never done, and a done one has yielded exactly its limit |
| SampleSource.SampleGenerator.Next | scope_motor.py:46-56 | `next()` moves the state as `AfterNext`, keeps the invariant, leaves earlier channel traffic intact and writes only request bytes; it returns the scaled last byte read exactly when suspended at the `yield` |
| SampleSource.SampleGenerator.Run | scope_motor.py:47-56 | the generator body's loops from a check move the state as `Resumed`: suspend after one read, or drain at the limit; bytes written earlier stay as they were |
| SampleSource.SampleGenerator.Drain | scope_motor.py:58-62 | the drain loop moves the state as `Drained` and writes nothing |
| SampleSource.SampleGenerator.Close | scope_motor.py:46-62 | abandoning moves the state as `AfterClose`, keeps the invariant and writes nothing |
| SampleSource.SampleGenerator.CorrectedClose | scope_motor.py:57-62 | the intended abandonment moves the state as `AfterCorrectedClose` and leaves the channel balanced, writing nothing |
| BandPass.ShortStart | scope_motor.py:94 | the short window `long/2 - short/2` lies inside the long one, and its two margins differ by at most one |
| BandPass.RollLeft | scope_motor.py:100 | `numpy.roll(w, -1)`: element `i` is the old element `i + 1`, and the old first element becomes the last |
| BandPass.Response | scope_motor.py:94-98 | the value emitted for one full long window: the kernel-weighted short sub-window at `ShortStart` minus the kernel-weighted long window (a definition without a contract; `ConstantWindowGivesZero` states its DC property) |
| BandPass.Responses | scope_motor.py:93-98 | one response per window, `count` in all; `ResponsesNext` extends it by the next window |
| BandPass.BandPass | scope_motor.py:77-103 | `short >= long` is the failed assertion; otherwise exactly `max(0, len - long)` values, value `k` being the response to window `inputs[k..k+long]` |
| BandPass.Slide | scope_motor.py:92-103 | the main loop emits the responses to the successive windows, one per value read ahead |
| BandPass.RollThenWriteLast | scope_motor.py:100-101 | rolling left and overwriting the last element drops the oldest value and appends the new one |
| BandPass.DotConstant | scope_motor.py:97-98 | a kernel-weighted sum of a constant window is the constant times the kernel's sum |
| BandPass.ConstantWindowGivesZero | scope_motor.py:81-98 | with both kernels normalised, a constant window gives output 0 (no DC gain) |
| SchmittTrigger.DefaultConfig | scope_motor.py:105 | the source's default percentiles, 30 and 70, with the lower below the upper |
| SchmittTrigger.Step | scope_motor.py:118-128 | one value: the count advances by one, the detector goes high only on a value at or above the upper threshold and low only below the lower one, and a yield is the distance from the previous low-to-high transition |
| SchmittTrigger.Walk | scope_motor.py:118-128 | walking `n` values advances the count by `n` |
| SchmittTrigger.Refill | scope_motor.py:115-116 | the refilled buffer keeps the buffer's size |
| SchmittTrigger.RefillContents | scope_motor.py:115-116 | the refill puts the next `min(size, remaining)` inputs, in order, at the front of the buffer and keeps the rest of the old buffer |
| SchmittTrigger.Round | scope_motor.py:114-128 | one iteration of the outer loop advances the count by the buffer size, keeps the buffer's size and stays within the input |
| SchmittTrigger.Rounds | scope_motor.py:114-128 | after `k` refills the count is `k * buffer_size`, the buffer keeps its size and the input position stays within the input |
| SchmittTrigger.SchmittTrigger | scope_motor.py:105-128 | the detector yields exactly what `Rounds` specifies |
| SchmittTrigger.RefillAndWalk | scope_motor.py:115-128 | one outer iteration on the array performs one `Round` |
| SchmittTrigger.RefillBuffer | scope_motor.py:115-116 | the refill overwrites a prefix of the buffer with the next `min(size, remaining)` inputs and keeps the rest |
| SchmittTrigger.WalkBuffer | scope_motor.py:118-128 | the walk over the buffer, thresholds recomputed per value, performs `Walk` |
| SchmittTrigger.ExhaustedInputRewalksStaleBuffer | scope_motor.py:114-118 | once the input is exhausted, a refill takes nothing and the same buffer is walked again |
| SchmittTrigger.WalkYieldsGaps | scope_motor.py:118-128 | within a walk the values yielded are the differences of consecutive low-to-high counts, and the detector remembers the latest one |
| SchmittTrigger.StepKeepsGaps | scope_motor.py:119-123 | one value keeps that correspondence |
| SchmittTrigger.RoundYieldsGaps | scope_motor.py:114-128 | one refill-and-walk extends the yielded differences by those of its own transitions |
| SchmittTrigger.RoundsYieldGaps | scope_motor.py:112-128 | over the whole run the output is the differences of consecutive low-to-high counts: the first transition yields nothing |
| SchmittTrigger.WalkYieldsAtLeastOne | scope_motor.py:118-128 | every value a walk yields is at least 1 |
| SchmittTrigger.WalkYieldsAtLeastTwo | scope_motor.py:118-128 | with the lower threshold not above the upper, every value a walk yields is at least 2 |
| SchmittTrigger.YieldsAtLeastOne | scope_motor.py:105-128 | every value the detector yields is at least 1 |
| SchmittTrigger.YieldsAtLeastTwo | scope_motor.py:105-128 | with percentiles ordered, every value the detector yields is at least 2 |
| SchmittTrigger.DefaultYieldsAtLeastTwo | scope_motor.py:105-128 | with the default percentiles and a percentile function monotone in the percentile, every value yielded is at least 2 |
| MovingAverage.CumSum | scope_motor.py:73 | `numpy.cumsum` has the input's length; `CumSumIsPrefixSum` states its entries |
| MovingAverage.WindowSums | scope_motor.py:74 | `ret[n:] = ret[n:] - ret[:-n]`, with the right-hand side taken before the store: the first `n` entries are kept, every later one loses the entry `n` places before it |
| MovingAverage.MovingAverage | scope_motor.py:72-75 | `ret[n - 1:] / n` has `max(0, len - n + 1)` entries; `MovingAverageIsWindowMean` states their values |
| MovingAverage.CumSumIsPrefixSum | scope_motor.py:73 | entry `i` of the cumulative sum is the sum of `a[..i+1]` |
| MovingAverage.MovingAverageIsWindowMean | scope_motor.py:72-75 | there are `max(0, len - n + 1)` outputs and output `i` is the mean of `a[i..i+n]` |
| Frequency.PrintedFrequency | scope_motor.py:156 | the printed value times `n` is 1140 |
| Frequency.FrequencyHz | scope_motor.py:154-156 | the intended frequency times the cycle period `n * 1.14` ms is 1000 |
| Frequency.PrintedIsOffBySquare | scope_motor.py:156 | the printed value is the true frequency times `1.14^2`, so it is never right |
| Frequency.PrintedAtHundredSamples | scope_motor.py:156 | for 100 samples: printed 11.4, intended 1000/114 |
| Frequency.FrequencyRoundTrip | scope_motor.py:155 | the corrected frequency gives back the cycle length |
| Firmware.NextPhase | scope_motor.c:31-35 | the phase advances modulo 256 and stays at most 0xFF |
| Firmware.HighTicks | scope_motor.c:21-36 | the output is set on at most `n` of `n` overflows |
| Firmware.HighTicksNoWrap | scope_motor.c:23-35 | before the wrap the output is set exactly on the phases below `on_time` |
| Firmware.HighTicksWrap | scope_motor.c:31-35 | a run across the wrap splits into the run to 0xFF and the run from 0 |
| Firmware.DutyCycle | scope_motor.c:18-36 | over any 256 consecutive overflows the output is set `min(on_time, 256)` times |
| Firmware.NextDivider | scope_motor.c:42-47 | the divider advances modulo 11 |
| Firmware.AdcRun | scope_motor.c:40-48 | `n` ADC interrupts leave the divider within 0..10 and send at most `n` results |
| Firmware.AdcSendsOneInEleven | scope_motor.c:38-48 | after `n` interrupts the divider is `(d + n) % 11` and `(d + n) / 11` results were sent |
| Firmware.Reply | scope_motor.c:87-96 | the answer to command 1 is 100 bytes long, to command 2 six bytes, to anything else empty |
| Firmware.ReplySizes | scope_motor.c:87-92 | command 1 answers with `CHUNK_SIZE` = 100 successive ADC reads, command 2 with `"Hello\n"`, others with nothing |
| Firmware.SpeedCommandSaturates | scope_motor.c:93-95 | with `on_time` set to the no-data sentinel (above 255) the output is set on all 256 overflows |
| Firmware.SpeedByteSetsDuty | scope_motor.c:18-36 | with `on_time` set to a byte `b`, the output is set on `b` of every 256 overflows |
| Firmware.Device.constructor | scope_motor.c:18-19 | initial `on_time` 128, phase 0, divider 0 |
| Firmware.Device.TimerOverflow | scope_motor.c:21-36 | the output is set iff phase < `on_time`, then the phase advances modulo 256 |
| Firmware.Device.AdcInterrupt | scope_motor.c:40-48 | `ADCH` is sent iff the divider was 10; the divider advances modulo 11 |
| Firmware.Device.Putc | scope_motor.c:89 | `uart_putc` appends one byte to what is sent |
| Firmware.Device.Getc | scope_motor.c:86 | `uart_getc` returns the next pending value, or the sentinel when there is none |
| Firmware.Device.Puts | scope_motor.c:92 | `uart_puts` sends every byte of the string in order |
| Firmware.Device.Dispatch | scope_motor.c:86-96 | the bytes sent are exactly `Reply(c)`; command 3 consumes all pending input and stores the sentinel in `on_time`; other commands change neither |
| Firmware.Device.Poll | scope_motor.c:85-96 | one pass of the main loop: with no input nothing happens; otherwise the reply to the next value is sent, a 3 consumes all pending input and stores the sentinel in `on_time`, and any other value consumes just itself and leaves `on_time` unchanged |
| Firmware.Device.SetSpeed | scope_motor.c:93-95 | the intended command 3 takes the next byte from the host as `on_time` |

## Left out

- The serial port is the abstract `Channel`: a fixed incoming byte stream and a log of written bytes. Baud rate, timeouts and I/O errors are not modelled.
- The drain's exception path (print a warning, re-raise) is not modelled, because channel reads cannot fail in the model.
- The generator protocol is modelled as explicit `Next` and `Close` calls. Laziness and garbage-collection-time closing are represented only by those calls.
- The command-line front end is not modelled: `cmd_set_speed`, `cmd_monitor_adc`, `cmd_plot_adc`, `cmd_hello`, `cmd_count_cycles`'s loop, the printing and the `argv` dispatch. The `test_adc` entry names a function that does not exist. `cmd_set_speed` writes the speed byte without the command byte 3.
- Values are exact reals, not floating point.
- `numpy.hamming` and its normalisation are left out. `BandPass` takes both kernels as parameters, and `ConstantWindowGivesZero` assumes they sum to one.
- The percentile function (numpy's or scipy's) is a parameter of `SchmittTrigger.Config`.
- `band_pass` and `schmitt_trigger` are lazy generators. The model computes their output over a finite input. `schmitt_trigger` never ends, so the model runs a given number of refills.
- `moving_average`'s default `n = 3` is not modelled.
- SampleSource.SampleGenerator.constructor: `limit` is a natural number or none. A negative limit is not modelled; with one, `done()`'s assertion fails on the first `next()`.
- MovingAverage.MovingAverageIsWindowMean: requires `n >= 1`. With `n = 0`, numpy fails on a shape mismatch for any non-empty input, and that error is not modelled.
- Hardware setup is not modelled: the UART init, `sei()`, the timer, ADC and port registers.
- The firmware never sets ADIE, so the ADC interrupt may never fire. It is modelled anyway.
- `ADCH` in command 1 is a function `adc(i)` of the read's position in the burst.
- Interrupts are atomic steps. Their interleaving with the main loop is not modelled, for example an ADC byte sent in the middle of a 100-byte burst.
- The internals of `uart.h` are not part of this model: the ring buffers, overflow flags, and the value of `UART_NO_DATA`, which is a parameter above 255.

## Findings

| source | as written | input that shows it | evidently intended | confidence | as-written member | corrected member |
|---|---|---|---|---|---|---|
| scope_motor.py:49-62 | abandoned at the `yield`, the `finally` block drains `requested_remaining`, which still counts the byte just yielded | take one sample from `sample_generator()` and close it: 600 requested, 601 read, so the last read waits for a byte that never comes | subtract the yielded byte before draining, so the drain reads exactly what is still in flight | not executed | SampleSource.CloseAtYieldOverdrains | SampleSource.SampleGenerator.CorrectedClose |
| scope_motor.py:156 | `1000. / num_samples * 1.14` is `1140 / n` | `n = 100` prints 11.4 Hz; a 114 ms cycle is 8.77 Hz | `1000. / (num_samples * 1.14)` | not executed | Frequency.PrintedIsOffBySquare | Frequency.FrequencyRoundTrip |
| scope_motor.c:93-95 | command 3 loops while `uart_getc()` returns data, so it exits only on `UART_NO_DATA` and stores that sentinel in `on_time` | send 3 and then 64: `on_time` becomes the sentinel and the output is set on all 256 of 256 overflows | wait for the next byte and store it as `on_time` | not executed | Firmware.SpeedCommandSaturates | Firmware.SpeedByteSetsDuty |
