/** The nine-bit UART of the SAB80535 in mode 3, clocked by Timer 1 in auto-reload mode (core.c).
    Every machine cycle the program may write SBUF; the reload value and SMOD are held. */
module Uart {
  datatype Byte = Byte(data: bv8, ninth: bool)

  datatype Event =
    | Start(cycle: nat, byte: Byte)
    | Bit(cycle: nat, index: nat, value: bool)
    | Stop(cycle: nat)
    | End(cycle: nat)

  /** The frame being sent, and everything emitted so far. */
  datatype Transmitter = Transmitter(active: bool, byte: Byte, bit: nat, events: seq<Event>)

  /** `pending` holds the byte written to SBUF and not started yet. */
  datatype Uart = Uart(reload: nat, smod: bool, tl1: nat, phase: nat, cycle: nat, pending: seq<Byte>, tx: Transmitter)

  datatype Input = Nothing | Write(byte: Byte)

  /** sab_uart_tx_bit_value: start bit, eight data bits, the ninth bit, stop bit. */
  function BitValue(b: Byte, index: nat): bool {
    if index == 0 then false
    else if index <= 8 then ((b.data >> (index - 1)) & 1) != 0
    else if index == 9 then b.ninth
    else true
  }

  /** sab_uart_tx_start, if a byte is waiting. */
  function StartPending(u: Uart): Uart {
    if u.pending == [] then u
    else u.(pending := [], tx := Transmitter(true, u.pending[0], 0, u.tx.events + [Start(u.cycle, u.pending[0])]))
  }

  function Emit(tx: Transmitter, bit: nat, e: Event): Transmitter { tx.(bit := bit, events := tx.events + [e]) }

  /** sab_uart_tx_boundary, at the cycle just completed. */
  function Boundary(u: Uart): Uart {
    if !u.tx.active then StartPending(u)
    else if u.tx.bit < 9 then u.(tx := Emit(u.tx, u.tx.bit + 1,
        Bit(u.cycle, u.tx.bit + 1, BitValue(u.tx.byte, u.tx.bit + 1))))
    else if u.tx.bit == 9 then u.(tx := Emit(u.tx, 10, Stop(u.cycle)))
    else StartPending(u.(tx := Emit(u.tx, u.tx.bit, End(u.cycle)).(active := false)))
  }

  predicate IsBoundary(smod: bool, phase: nat) { phase == 0 || (smod && phase == 16) }

  /** sab_uart_divider_step and what it drives. */
  function Divide(u: Uart): Uart {
    var v := u.(phase := (u.phase + 1) % 32);
    if IsBoundary(v.smod, v.phase) then Boundary(v) else v
  }

  /** Timer 1, mode 2, at the end of the cycle. */
  function Timer(u: Uart): Uart {
    var done := u.(cycle := u.cycle + 1);
    if u.tl1 + 1 > 255 then Divide(done.(tl1 := u.reload)) else done.(tl1 := u.tl1 + 1)
  }

  /** One machine cycle: the program's write, then the timer. */
  function Cycle(u: Uart, i: Input): Uart {
    Timer(if i.Write? then u.(pending := [i.byte]) else u)
  }

  /** The byte waiting when the timer advances: the one just written, or the one written before. */
  function Waiting(u: Uart, i: Input): seq<Byte> { if i.Write? then [i.byte] else u.pending }

  /** A run: the states before and after each machine cycle. */
  ghost predicate StepAt(t: seq<Uart>, inputs: seq<Input>, i: nat)
    requires |t| == |inputs| + 1
  {
    i < |inputs| ==> t[i + 1] == Cycle(t[i], inputs[i])
  }

  ghost predicate IsRun(t: seq<Uart>, inputs: seq<Input>) {
    |t| == |inputs| + 1 && forall i: nat :: i < |inputs| ==> StepAt(t, inputs, i)
  }

  // ---- Periods ------------------------------------------------------------------------------------

  function Period(u: Uart): (n: nat)
    requires u.reload <= 255
    ensures n > 0
  {
    256 - u.reload
  }

  /** Timer overflows per bit. */
  function Divisor(u: Uart): nat { if u.smod then 16 else 32 }

  function BitTime(u: Uart): (n: nat)
    requires u.reload <= 255
  {
    Divisor(u) * Period(u)
  }

  /** A state right after a bit boundary. */
  predicate Aligned(u: Uart) { u.reload <= 255 && u.tl1 == u.reload && IsBoundary(u.smod, u.phase) }

  /** The transmitter and the settings are as they were. */
  predicate Idle(u: Uart, v: Uart) { v.reload == u.reload && v.smod == u.smod && v.tx == u.tx }

  /** Between overflows only the timer, the cycle and a pending byte change. */
  lemma {:induction false} Counting(t: seq<Uart>, inputs: seq<Input>, a: nat, n: nat)
    requires IsRun(t, inputs) && a + n <= |inputs| && t[a].tl1 + n <= 255
    ensures Idle(t[a], t[a + n]) && t[a + n].tl1 == t[a].tl1 + n && t[a + n].phase == t[a].phase
    ensures t[a + n].cycle == t[a].cycle + n
    decreases n
  {
    if n > 0 {
      Counting(t, inputs, a, n - 1);
      assert StepAt(t, inputs, a + n - 1);
    }
  }

  /** What an overflow does to a state that counted up to it; `v` is that state with a byte perhaps
      written. */
  lemma Overflow(u: Uart, i: Input)
    requires u.tl1 == 255
    ensures exists v :: Idle(u, v) && v.phase == u.phase && v.cycle == u.cycle + 1 && v.tl1 == u.reload &&
                        v.pending == Waiting(u, i) && Cycle(u, i) == Divide(v)
  {
    var w := if i.Write? then u.(pending := [i.byte]) else u;
    var v := w.(cycle := u.cycle + 1, tl1 := u.reload);
    assert Idle(u, v) && Cycle(u, i) == Divide(v);
  }

  /** One full timer period ends in one overflow. */
  lemma OnePeriod(t: seq<Uart>, inputs: seq<Input>, a: nat) returns (v: Uart)
    requires IsRun(t, inputs) && a < |t| && t[a].reload <= 255 && t[a].tl1 == t[a].reload
    requires a + Period(t[a]) <= |inputs|
    ensures Idle(t[a], v) && v.phase == t[a].phase && v.cycle == t[a].cycle + Period(t[a]) && v.tl1 == v.reload
    ensures v.pending == Waiting(t[a + Period(t[a]) - 1], inputs[a + Period(t[a]) - 1])
    ensures t[a + Period(t[a])] == Divide(v)
  {
    var n := Period(t[a]) - 1;
    Counting(t, inputs, a, n);
    assert StepAt(t, inputs, a + n);
    Overflow(t[a + n], inputs[a + n]);
    v :| Idle(t[a + n], v) && v.phase == t[a].phase && v.cycle == t[a + n].cycle + 1 && v.tl1 == t[a].reload
        && v.pending == Waiting(t[a + n], inputs[a + n]) && t[a + n + 1] == Divide(v);
  }

  lemma Times(o: nat, p: nat)
    requires o > 0
    ensures (o - 1) * p + p == o * p && (o - 1) * p >= 0
  {
  }

  /** Fewer overflows than a bit has leave the transmitter alone; `n` is their time. */
  lemma {:induction false} Periods(t: seq<Uart>, inputs: seq<Input>, a: nat, o: nat, n: nat)
    requires IsRun(t, inputs) && a < |t| && Aligned(t[a]) && o < Divisor(t[a]) && n == o * Period(t[a])
    requires a + n <= |inputs|
    ensures Idle(t[a], t[a + n]) && t[a + n].tl1 == t[a].reload && t[a + n].phase == t[a].phase + o
    ensures t[a + n].cycle == t[a].cycle + n
    decreases o
  {
    if o > 0 {
      Times(o, Period(t[a]));
      var m := (o - 1) * Period(t[a]);
      Periods(t, inputs, a, o - 1, m);
      var v := OnePeriod(t, inputs, a + m);
    }
  }

  /** One bit time is one boundary, at its last cycle, and the divider is aligned again. */
  lemma OneBit(t: seq<Uart>, inputs: seq<Input>, a: nat) returns (v: Uart)
    requires IsRun(t, inputs) && a < |t| && Aligned(t[a]) && a + BitTime(t[a]) <= |inputs|
    ensures Idle(t[a], v) && v.cycle == t[a].cycle + BitTime(t[a]) && Aligned(v) && t[a + BitTime(t[a])] == Boundary(v)
    ensures BitTime(t[a]) > 0 && v.pending == Waiting(t[a + BitTime(t[a]) - 1], inputs[a + BitTime(t[a]) - 1])
  {
    var o := Divisor(t[a]) - 1;
    Times(o + 1, Period(t[a]));
    var n := o * Period(t[a]);
    Periods(t, inputs, a, o, n);
    v := OnePeriod(t, inputs, a + n);
    v := v.(phase := (v.phase + 1) % 32);
  }

  // ---- A whole frame ---------------------------------------------------------------------------------

  /** What the first `k` bit times of a frame emit. */
  function Emitted(u: Uart, k: nat): (es: seq<Event>)
    requires u.reload <= 255 && k <= 10
    ensures |es| == k
    decreases k
  {
    if k == 0 then []
    else Emitted(u, k - 1) + [if k <= 9 then Bit(u.cycle + k * BitTime(u), k, BitValue(u.tx.byte, k))
        else Stop(u.cycle + k * BitTime(u))]
  }

  /** After `k` bit times of a frame, whatever was written meanwhile. */
  ghost predicate Within(u: Uart, v: Uart, k: nat)
    requires u.reload <= 255 && k <= 10
  {
    && Aligned(v) && v.reload == u.reload && v.smod == u.smod && v.cycle == u.cycle + k * BitTime(u)
    && v.tx == Transmitter(true, u.tx.byte, k, u.tx.events + Emitted(u, k))
  }

  /** A frame that has just started. */
  predicate Starting(u: Uart) { Aligned(u) && u.tx.active && u.tx.bit == 0 }

  lemma BoundaryWithin(u: Uart, m: Uart, v: Uart, k: nat)
    requires u.reload <= 255 && 0 < k <= 10 && Within(u, m, k - 1) && Idle(m, v) && Aligned(v)
    requires v.cycle == u.cycle + k * BitTime(u)
    ensures Within(u, Boundary(v), k)
  {
  }

  lemma {:induction false} FrameBits(t: seq<Uart>, inputs: seq<Input>, a: nat, k: nat, n: nat)
    requires IsRun(t, inputs) && a < |t| && Starting(t[a]) && k <= 10 && n == k * BitTime(t[a]) && a + n <= |inputs|
    ensures Within(t[a], t[a + n], k)
    decreases k
  {
    if k > 0 {
      Times(k, BitTime(t[a]));
      var m := (k - 1) * BitTime(t[a]);
      FrameBits(t, inputs, a, k - 1, m);
      var v := OneBit(t, inputs, a + m);
      BoundaryWithin(t[a], t[a + m], v, k);
    }
  }

  /** The end of a frame: the transmitter is active afterwards exactly if a byte was waiting, and then it
      has started on that byte in the same cycle. */
  ghost predicate Ended(u: Uart, v: Uart, end: nat, waiting: seq<Byte>)
    requires u.reload <= 255
  {
    && v.cycle == end && v.pending == [] && (v.tx.active <==> waiting != [])
    && (waiting == [] ==> v.tx.events == u.tx.events + Emitted(u, 10) + [End(end)])
    && (waiting != [] ==> Starting(v) && v.tx.byte == waiting[0])
    && (waiting != [] ==> v.tx.events == u.tx.events + Emitted(u, 10) + [End(end), Start(end, waiting[0])])
  }

  lemma LastBoundary(u: Uart, m: Uart, v: Uart, w: Uart, end: nat)
    requires u.reload <= 255 && Within(u, m, 10) && Idle(m, v) && Aligned(v) && v.cycle == end && w == Boundary(v)
    ensures Ended(u, w, end, v.pending)
  {
  }

  lemma Eleven(u: Uart)
    requires u.reload <= 255
    ensures 11 * Divisor(u) * (256 - u.reload) == 11 * BitTime(u) == 10 * BitTime(u) + BitTime(u)
  {
  }

  lemma FrameEnd(t: seq<Uart>, inputs: seq<Input>, a: nat, n: nat, span: nat)
    requires IsRun(t, inputs) && a < |t| && Starting(t[a]) && n == 10 * BitTime(t[a]) && span == n + BitTime(t[a])
    requires a + span <= |inputs|
    ensures span > 0 && Ended(t[a], t[a + span], t[a].cycle + span, Waiting(t[a + span - 1], inputs[a + span - 1]))
  {
    FrameBits(t, inputs, a, 10, n);
    var v := OneBit(t, inputs, a + n);
    LastBoundary(t[a], t[a + n], v, t[a + span], t[a].cycle + span);
  }

  /** A frame spans exactly eleven bit times, that is eleven times sixteen or thirty-two timer periods:
      it emits its nine bits and its stop bit at the ends of the first ten and its end at the end
      of the eleventh, all of the byte it started with, whatever is written to SBUF meanwhile.
      The next frame starts in the same cycle exactly if a byte is waiting then, and with that byte. */
  lemma FrameSpan(t: seq<Uart>, inputs: seq<Input>, a: nat, span: nat)
    requires IsRun(t, inputs) && a < |t| && Starting(t[a])
    requires span == 11 * Divisor(t[a]) * (256 - t[a].reload) && a + span <= |inputs|
    ensures span > 0 && Ended(t[a], t[a + span], t[a].cycle + span, Waiting(t[a + span - 1], inputs[a + span - 1]))
  {
    Eleven(t[a]);
    FrameEnd(t, inputs, a, 10 * BitTime(t[a]), span);
  }

  lemma Digits(x: nat, unit: nat, most: nat) returns (k: nat)
    requires unit > 0 && x < most * unit
    ensures k < most && k * unit <= x < k * unit + unit
  {
    k := x / unit;
    assert k >= most ==> k * unit >= most * unit;
  }

  lemma ShortOfBit(t: seq<Uart>, inputs: seq<Input>, a: nat, n: nat)
    requires IsRun(t, inputs) && a < |t| && Aligned(t[a]) && n < BitTime(t[a]) && a + n <= |inputs|
    ensures Idle(t[a], t[a + n])
  {
    var o := Digits(n, Period(t[a]), Divisor(t[a]));
    var m := o * Period(t[a]);
    Periods(t, inputs, a, o, m);
    Counting(t, inputs, a + m, n - m);
  }

  /** In the middle of the frame that started in `u`. */
  ghost predicate Amid(u: Uart, v: Uart)
    requires u.reload <= 255
  {
    v.tx.bit <= 10 && v.tx == Transmitter(true, u.tx.byte, v.tx.bit, u.tx.events + Emitted(u, v.tx.bit))
  }

  /** Before that the frame goes on: its byte is still the one it started with, and it has emitted the bits
      up to the one it is at. */
  lemma FrameNotShorter(t: seq<Uart>, inputs: seq<Input>, a: nat, n: nat)
    requires IsRun(t, inputs) && a < |t| && Starting(t[a]) && n < 11 * Divisor(t[a]) * (256 - t[a].reload)
    requires a + n <= |inputs|
    ensures Amid(t[a], t[a + n])
  {
    Eleven(t[a]);
    var k := Digits(n, BitTime(t[a]), 11);
    var m := k * BitTime(t[a]);
    FrameBits(t, inputs, a, k, m);
    ShortOfBit(t, inputs, a + m, n - m);
  }

  // ---- The bits are the byte ------------------------------------------------------------------------------

  /** A receiver that collects the emitted bits. */
  function Collect(bits: seq<bool>): Byte
    requires |bits| == 9
  {
    Byte((if bits[0] then 1 else 0) | (if bits[1] then 2 else 0) | (if bits[2] then 4 else 0)
         | (if bits[3] then 8 else 0) | (if bits[4] then 16 else 0) | (if bits[5] then 32 else 0)
         | (if bits[6] then 64 else 0) | (if bits[7] then 128 else 0),
         bits[8])
  }

  lemma {:induction false} EmittedAt(u: Uart, k: nat, i: nat)
    requires u.reload <= 255 && i < k <= 10
    ensures Emitted(u, k)[i] == if i < 9 then Bit(u.cycle + (i + 1) * BitTime(u), i + 1, BitValue(u.tx.byte, i + 1))
                                else Stop(u.cycle + (i + 1) * BitTime(u))
    decreases k
  {
    if i < k - 1 { EmittedAt(u, k - 1, i); }
  }

  /** The values of the bits a frame emits. */
  function Values(es: seq<Event>): seq<bool>
    requires |es| >= 9 && forall i :: 0 <= i < 9 ==> es[i].Bit?
  {
    seq(9, i requires 0 <= i < 9 => es[i].value)
  }

  lemma BitsReassemble(b: Byte)
    ensures Collect(seq(9, i requires 0 <= i < 9 => BitValue(b, i + 1))) == b
  {
  }

  /** The bits of a frame reassemble to the byte and ninth bit it started with. */
  lemma FrameCarriesByte(u: Uart)
    requires u.reload <= 255
    ensures forall i :: 0 <= i < 9 ==> Emitted(u, 10)[i].Bit?
    ensures Collect(Values(Emitted(u, 10))) == u.tx.byte
  {
    forall i | 0 <= i < 9
      ensures Emitted(u, 10)[i].Bit? && Emitted(u, 10)[i].value == BitValue(u.tx.byte, i + 1)
    {
      EmittedAt(u, 10, i);
    }
    assert Values(Emitted(u, 10)) == seq(9, i requires 0 <= i < 9 => BitValue(u.tx.byte, i + 1));
    BitsReassemble(u.tx.byte);
  }

  // ---- From the write to the frame -------------------------------------------------------------------------

  /** The byte written last among the inputs from `a` up to `n`, if any. */
  function LastWrite(inputs: seq<Input>, a: nat, n: nat): (r: seq<Byte>)
    requires a <= n <= |inputs|
    ensures |r| <= 1
    decreases n
  {
    if n == a then [] else if inputs[n - 1].Write? then [inputs[n - 1].byte] else LastWrite(inputs, a, n - 1)
  }

  /** A transmitter with nothing to send, at any point of its timer and divider. */
  predicate Quiet(u: Uart) { u.reload <= 255 && u.tl1 <= 255 && u.phase < 32 && u.pending == [] && !u.tx.active }

  /** A frame starts in the cycle from `u` to `v`, in an idle transmitter or right after another frame. */
  predicate StartsIn(u: Uart, v: Uart) {
    |v.tx.events| > |u.tx.events| && v.tx.events[|v.tx.events| - 1].Start?
  }

  lemma CycleStarts(u: Uart, i: Input, written: seq<Byte>)
    requires u.reload <= 255 && u.tl1 <= 255 && u.phase < 32 && (u.pending != [] ==> u.pending == written)
    requires |written| <= 1
    ensures var v, now := Cycle(u, i), if i.Write? then [i.byte] else written;
            && v.reload == u.reload && v.tl1 <= 255 && v.phase < 32 && (v.pending != [] ==> v.pending == now)
            && (StartsIn(u, v) ==> Starting(v) && v.pending == [] && [v.tx.byte] == now)
            && (StartsIn(u, v) ==> v.tx.events[|v.tx.events| - 1] == Start(v.cycle, v.tx.byte))
  {
  }

  lemma {:induction false} WaitingIsLastWrite(t: seq<Uart>, inputs: seq<Input>, n: nat)
    requires IsRun(t, inputs) && Quiet(t[0]) && n < |t|
    ensures t[n].reload <= 255 && t[n].tl1 <= 255 && t[n].phase < 32
    ensures t[n].pending != [] ==> t[n].pending == LastWrite(inputs, 0, n)
    decreases n
  {
    if n > 0 {
      WaitingIsLastWrite(t, inputs, n - 1);
      assert StepAt(t, inputs, n - 1);
      CycleStarts(t[n - 1], inputs[n - 1], LastWrite(inputs, 0, n - 1));
    }
  }

  /** Every frame of a run, after an idle transmitter or back to back, starts aligned, so it spans its exact
      time, and sends the byte and ninth bit written to SBUF last. */
  lemma StartsAligned(t: seq<Uart>, inputs: seq<Input>, n: nat)
    requires IsRun(t, inputs) && Quiet(t[0]) && 0 < n < |t| && StartsIn(t[n - 1], t[n])
    ensures Starting(t[n]) && t[n].pending == [] && [t[n].tx.byte] == LastWrite(inputs, 0, n)
    ensures t[n].tx.events[|t[n].tx.events| - 1] == Start(t[n].cycle, t[n].tx.byte)
  {
    WaitingIsLastWrite(t, inputs, n - 1);
    assert StepAt(t, inputs, n - 1);
    CycleStarts(t[n - 1], inputs[n - 1], LastWrite(inputs, 0, n - 1));
  }

  /** While a frame goes on, what is written waits. */
  lemma AmidWaits(u: Uart, v: Uart, i: Input)
    requires u.reload <= 255 && Amid(u, v) && Amid(u, Cycle(v, i))
    ensures Cycle(v, i).pending == Waiting(v, i)
  {
    var w := Cycle(v, i);
    assert |v.tx.events| == |u.tx.events| + v.tx.bit && |w.tx.events| == |u.tx.events| + w.tx.bit;
  }

  lemma {:induction false} WrittenMeanwhile(t: seq<Uart>, inputs: seq<Input>, a: nat, n: nat)
    requires IsRun(t, inputs) && a < |t| && Starting(t[a]) && t[a].pending == []
    requires n < 11 * Divisor(t[a]) * (256 - t[a].reload) && a + n <= |inputs|
    ensures t[a + n].pending == LastWrite(inputs, a, a + n)
    decreases n
  {
    if n > 0 {
      WrittenMeanwhile(t, inputs, a, n - 1);
      FrameNotShorter(t, inputs, a, n - 1);
      FrameNotShorter(t, inputs, a, n);
      assert StepAt(t, inputs, a + n - 1);
      AmidWaits(t[a], t[a + n - 1], inputs[a + n - 1]);
    }
  }

  /** What a frame of a run sends: the byte written last before it started; and what follows it. */
  ghost predicate Carries(t: seq<Uart>, inputs: seq<Input>, a: nat, span: nat)
    requires |t| == |inputs| + 1 && a + span <= |inputs|
  {
    var u, v, later := t[a], t[a + span], LastWrite(inputs, a, a + span);
    && u.reload <= 255 && |Emitted(u, 10)| == 10 && (forall i :: 0 <= i < 9 ==> Emitted(u, 10)[i].Bit?)
    && [Collect(Values(Emitted(u, 10)))] == LastWrite(inputs, 0, a)
    && Ended(u, v, u.cycle + span, later)
  }

  /** From the write to the wire: the nine bits of every frame of a run reassemble to the last byte written
      before it started, and when it ends the next frame starts exactly if something was written
      meanwhile, with the last of it. */
  lemma FrameCarriesWrite(t: seq<Uart>, inputs: seq<Input>, a: nat, span: nat)
    requires IsRun(t, inputs) && Quiet(t[0]) && 0 < a < |t| && StartsIn(t[a - 1], t[a])
    requires span == 11 * Divisor(t[a]) * (256 - t[a].reload) && a + span <= |inputs|
    ensures Carries(t, inputs, a, span)
  {
    StartsAligned(t, inputs, a);
    FrameCarriesByte(t[a]);
    FrameSpan(t, inputs, a, span);
    WrittenMeanwhile(t, inputs, a, span - 1);
    assert Waiting(t[a + span - 1], inputs[a + span - 1]) == LastWrite(inputs, a, a + span);
  }
}
