/** The batched SysTick and cycle counters, after src/cortexm/system_control.cpp. Section B3.3 of
    the ARMv7-M manual describes SysTick. */
module SysTick {
  import opened Words
  import opened Arithmetic

  /** Control bits 0 and 1, the 24-bit reload, the counter and its wrap distance, the count flag,
      the pending bit and the DWT cycle counter. A wrap distance of zero means freshly written. */
  datatype Timer = Timer(
    enabled: bool, interrupt: bool, load: nat, value: nat, toWrap: nat, countFlag: bool, pending: bool,
    dwtEnabled: bool, dwtCount: Word)

  function Period(t: Timer): nat {
    t.load + 1
  }

  /** Every register write restarts the wrap distance, so it never exceeds the period. */
  predicate Valid(t: Timer) {
    t.toWrap <= Period(t)
  }

  predicate Counting(t: Timer) {
    t.enabled && t.load != 0
  }

  function Distance(t: Timer): nat {
    if t.toWrap == 0 then Period(t) else t.toWrap
  }

  function CountDwt(t: Timer, cycles: nat): Timer {
    if t.dwtEnabled then t.(dwtCount := Wrap(t.dwtCount + cycles)) else t
  }

  function Wrapped(t: Timer, toWrap: nat): Timer
    requires toWrap > 0
  {
    t.(countFlag := true, pending := t.pending || t.interrupt, toWrap := toWrap, value := toWrap - 1)
  }

  /** What advanceCycles leaves. */
  function Advance(t: Timer, cycles: nat): Timer {
    var t1 := CountDwt(t, cycles);
    if !Counting(t) || cycles == 0 then t1
    else if cycles < Distance(t) then t1.(toWrap := Distance(t) - cycles, value := Distance(t) - cycles - 1)
    else Wrapped(t1, Period(t) - (cycles - Distance(t)) % Period(t))
  }

  /** One cycle of the hardware counter: count down, and on reaching zero flag, pend and reload. */
  function Tick(t: Timer): Timer {
    var t1 := CountDwt(t, 1);
    if !Counting(t) then t1
    else if Distance(t) > 1 then t1.(toWrap := Distance(t) - 1, value := Distance(t) - 2)
    else Wrapped(t1, Period(t))
  }

  function Ticks(t: Timer, n: nat): Timer
    decreases n
  {
    if n == 0 then t else Ticks(Tick(t), n - 1)
  }

  /** cyclesUntilSysTickInterrupt. */
  function CyclesUntilInterrupt(t: Timer): Option<nat> {
    if t.pending then Some(0)
    else if !t.enabled || !t.interrupt || t.load == 0 then None
    else Some(Distance(t))
  }

  lemma AdvanceCases(t: Timer, cycles: nat)
    ensures !Counting(t) || cycles == 0 ==> Advance(t, cycles) == CountDwt(t, cycles)
    ensures Counting(t) && 0 < cycles < Distance(t) ==>
              Advance(t, cycles)
              == CountDwt(t, cycles).(toWrap := Distance(t) - cycles, value := Distance(t) - cycles - 1)
    ensures Counting(t) && 0 < cycles && cycles >= Distance(t) ==>
              var restart := Period(t) - (cycles - Distance(t)) % Period(t);
              restart > 0 && Advance(t, cycles) == Wrapped(CountDwt(t, cycles), restart)
  {
  }

  // ---------------------------------------------------------------- reachable states

  function Reset(): Timer {
    Timer(false, false, 0, 0, 0, false, false, false, 0)
  }

  /** What can happen to the counters: cycles pass, a register is written, CTRL is read, the pending
      bit is set or cleared. */
  datatype TimerEvent =
    | Cycles(n: nat) | ControlWrite(enabled: bool, interrupt: bool) | LoadWrite(load: nat) | CurrentWrite
    | ControlRead | PendWrite(pending: bool) | DwtWrite(dwtEnabled: bool, dwtCount: Word)

  function Control(t: Timer, enabled: bool, interrupt: bool): Timer {
    t.(enabled := enabled, interrupt := interrupt, toWrap := if !enabled || !t.enabled then 0 else t.toWrap)
  }

  function ApplyEvent(t: Timer, e: TimerEvent): Timer {
    match e
    case Cycles(n) => Advance(t, n)
    case ControlWrite(enabled, interrupt) => Control(t, enabled, interrupt)
    case LoadWrite(load) => t.(load := load % 0x100_0000, toWrap := 0)
    case CurrentWrite => t.(value := 0, toWrap := 0, countFlag := false)
    case ControlRead => t.(countFlag := false)
    case PendWrite(pending) => t.(pending := pending)
    case DwtWrite(enabled, count) => t.(dwtEnabled := enabled, dwtCount := count)
  }

  function ApplyEvents(t: Timer, events: seq<TimerEvent>): Timer
    decreases |events|
  {
    if events == [] then t else ApplyEvents(ApplyEvent(t, events[0]), events[1..])
  }

  /** The wrap distance never exceeds the period, which is what batching relies on, and the reload
      value stays within 24 bits, in every state reachable from reset. */
  lemma ReachableValid(events: seq<TimerEvent>)
    ensures Valid(ApplyEvents(Reset(), events)) && ApplyEvents(Reset(), events).load < 0x100_0000
  {
    EventsKeep(Reset(), events);
  }

  lemma {:induction false} EventsKeep(t: Timer, events: seq<TimerEvent>)
    requires Valid(t) && t.load < 0x100_0000
    ensures Valid(ApplyEvents(t, events)) && ApplyEvents(t, events).load < 0x100_0000
    decreases |events|
  {
    hide ApplyEvent, Valid;
    if events != [] {
      EventKeeps(t, events[0]);
      EventsKeep(ApplyEvent(t, events[0]), events[1..]);
    }
  }

  lemma EventKeeps(t: Timer, e: TimerEvent)
    requires Valid(t) && t.load < 0x100_0000
    ensures Valid(ApplyEvent(t, e)) && ApplyEvent(t, e).load < 0x100_0000
  {
    hide Advance;
    if e.Cycles? { AdvanceFields(t, e.n); }
  }

  /** The register block with the original's update order. */
  class SysTickUnit {
    var timer: Timer

    constructor ()
      ensures timer == Reset() && Valid(timer)
    {
      timer := Reset();
    }

    method AdvanceCycles(cycles: nat)
      requires Valid(timer)
      modifies this
      ensures timer == Advance(old(timer), cycles) && Valid(timer)
    {
      hide Advance, Wrap;
      AdvanceCases(timer, cycles);
      if timer.dwtEnabled { timer := timer.(dwtCount := Wrap(timer.dwtCount + cycles)); }
      if !timer.enabled || timer.load == 0 || cycles == 0 { return; }
      var period := timer.load + 1;
      if timer.toWrap == 0 { timer := timer.(toWrap := period); }
      var remaining := cycles;
      if remaining < timer.toWrap {
        timer := timer.(toWrap := timer.toWrap - remaining);
        timer := timer.(value := timer.toWrap - 1);
        return;
      }
      remaining := remaining - timer.toWrap;
      timer := timer.(countFlag := true);
      if timer.interrupt { timer := timer.(pending := true); }
      var toWrap := RestartDistance(remaining, period);
      timer := timer.(toWrap := toWrap);
      timer := timer.(value := timer.toWrap - 1);
    }

    /** The wrap distance `past` cycles after a wrap. */
    method RestartDistance(past: nat, period: nat) returns (toWrap: nat)
      requires period > 0
      ensures toWrap == period - past % period && 0 < toWrap <= period
    {
      var remaining := past;
      if remaining != 0 {
        if remaining >= period { remaining := remaining % period; } else { SmallMod(remaining, period); }
        toWrap := if remaining == 0 then period else period - remaining;
      } else {
        toWrap := period;
      }
    }

    /** Writes to the control, reload and current-value registers. */
    method WriteControl(enabled: bool, interrupt: bool)
      requires Valid(timer)
      modifies this
      ensures Valid(timer)
      ensures timer == Control(old(timer), enabled, interrupt)
    {
      var wasEnabled := timer.enabled;
      timer := timer.(enabled := enabled, interrupt := interrupt);
      if !enabled || !wasEnabled { timer := timer.(toWrap := 0); }
    }

    /** A read of the control register reports and clears the count flag. */
    method ReadControl() returns (enabled: bool, interrupt: bool, flag: bool)
      modifies this
      ensures enabled == old(timer).enabled && interrupt == old(timer).interrupt && flag == old(timer).countFlag
      ensures timer == ApplyEvent(old(timer), ControlRead) && (Valid(old(timer)) ==> Valid(timer))
    {
      enabled, interrupt, flag := timer.enabled, timer.interrupt, timer.countFlag;
      timer := timer.(countFlag := false);
    }

    method WriteLoad(load: nat)
      modifies this
      ensures Valid(timer) && timer == old(timer).(load := load % 0x100_0000, toWrap := 0)
    {
      timer := timer.(load := load % 0x100_0000);
      timer := timer.(toWrap := 0);
    }

    method WriteCurrent()
      modifies this
      ensures Valid(timer) && timer == old(timer).(value := 0, toWrap := 0, countFlag := false)
    {
      timer := timer.(value := 0, toWrap := 0, countFlag := false);
    }
  }

  lemma WrapSum(x: Word, a: nat, b: nat)
    ensures Wrap(Wrap(x + a) + b) == Wrap(x + (a + b))
  {
  }

  // ---------------------------------------------------------------- batching

  lemma AdvanceFields(t: Timer, n: nat)
    requires Valid(t)
    ensures
      var u := Advance(t, n);
      && Valid(u) && u.enabled == t.enabled && u.load == t.load && u.interrupt == t.interrupt
      && u.dwtEnabled == t.dwtEnabled
      && u.dwtCount == (if t.dwtEnabled then Wrap(t.dwtCount + n) else t.dwtCount)
      && (t.pending ==> u.pending) && (t.countFlag ==> u.countFlag)
  {
  }

  /** The wrap distance after a batch, as a function of the distance before. */
  function After(distance: nat, period: nat, n: nat): nat
    requires period > 0
  {
    if n < distance then distance - n else period - (n - distance) % period
  }

  lemma AfterCompose(d: nat, p: nat, a: nat, b: nat)
    requires 0 < d <= p
    ensures
      var mid := After(d, p, a);
      && 0 < mid <= p && After(mid, p, b) == After(d, p, a + b)
      && (a + b >= d <==> a >= d || b >= mid)
  {
    var mid := After(d, p, a);
    if a >= d {
      var q, r := (a - d) / p, (a - d) % p;
      assert a - d == q * p + r;
      if b < mid {
        ModUnique(a + b - d, p, q, r + b);
      } else {
        assert a + b - d == (q + 1) * p + (b - mid) by { assert (q + 1) * p == q * p + p; }
        ModShift(b - mid, p, q + 1);
      }
    }
  }

  lemma DistanceAfter(t: Timer, n: nat)
    requires Valid(t) && Counting(t)
    ensures
      var u := Advance(t, n);
      && Distance(u) == After(Distance(t), Period(t), n)
      && (n > 0 ==> u.toWrap == After(Distance(t), Period(t), n) && u.value == u.toWrap - 1)
      && u.countFlag == (t.countFlag || n >= Distance(t))
      && u.pending == (t.pending || (t.interrupt && n >= Distance(t)))
      && (n == 0 ==> u == t.(dwtCount := u.dwtCount))
  {
    if n >= Distance(t) { assert (n - Distance(t)) % Period(t) < Period(t); }
  }

  /** Batching equals ticking in pieces: advancing `a + b` cycles is advancing `a` and then `b`, in
      the counter, the count flag, the pending bit and the cycle counter. */
  lemma AdvanceCompose(t: Timer, a: nat, b: nat)
    requires Valid(t)
    ensures Advance(t, a + b) == Advance(Advance(t, a), b)
  {
    hide Advance, After;
    AdvanceFields(t, a);
    AdvanceFields(t, a + b);
    var u := Advance(t, a);
    AdvanceFields(u, b);
    WrapSum(t.dwtCount, a, b);
    if Counting(t) {
      AfterCompose(Distance(t), Period(t), a, b);
      DistanceAfter(t, a);
      DistanceAfter(t, a + b);
      DistanceAfter(u, b);
    } else {
      Stopped(t, a);
      Stopped(t, a + b);
      Stopped(u, b);
    }
  }

  lemma Stopped(t: Timer, n: nat)
    requires !Counting(t)
    ensures Advance(t, n) == CountDwt(t, n)
  {
  }

  /** A batch of one is one tick of the counter. */
  lemma AdvanceIsTick(t: Timer)
    requires Valid(t)
    ensures Advance(t, 1) == Tick(t)
  {
    if Counting(t) && Distance(t) <= 1 { SmallMod(0, Period(t)); }
  }

  /** A batch of any length is that many single ticks. */
  lemma {:induction false} AdvanceIsTicks(t: Timer, n: nat)
    requires Valid(t)
    ensures Advance(t, n) == Ticks(t, n)
    decreases n
  {
    hide Advance, Tick;
    if n == 0 {
      NoCycles(t);
    } else {
      AdvanceIsTick(t);
      AdvanceCompose(t, 1, n - 1);
      AdvanceFields(t, 1);
      AdvanceIsTicks(Tick(t), n - 1);
    }
  }

  lemma NoCycles(t: Timer)
    ensures Advance(t, 0) == t
  {
  }

  /** From a state where it is not pending, SysTick is pending after `n` cycles exactly when an
      interrupt is predicted and `n` reaches the prediction. */
  lemma PendsExactly(t: Timer, n: nat)
    requires Valid(t) && !t.pending
    ensures Advance(t, n).pending <==> CyclesUntilInterrupt(t).Some? && n >= CyclesUntilInterrupt(t).value
  {
    hide Advance, After;
    if Counting(t) { DistanceAfter(t, n); } else { Stopped(t, n); }
  }
}
