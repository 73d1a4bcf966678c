/** The active-exception stack of ExceptionController over runs of entries and returns, after
    src/cortexm/exceptions.cpp and section B1.5.4 of the ARMv7-M manual. */
module Preemption {
  import opened Words
  import opened Nvic

  /** The controller and the active stack, oldest first. */
  datatype Unit = Unit(nvic: Nvic, stack: seq<nat>)

  /** Supervisor call, entered by the board whatever the priorities. */
  const SV_CALL: nat := 11

  /** Device activity and register writes, a pending exception accepted by enterPending, a
      supervisor call, or an exception return. */
  datatype UnitEvent = Device(event: Event) | Take(masks: Masks, n: nat) | Call | Return

  /** What can happen: enterPending takes what it selects, and a return needs an active exception. */
  ghost predicate Possible(u: Unit, e: UnitEvent) {
    match e
    case Device(_) => true
    case Take(masks, n) => BestOf(u.nvic, masks, (k: nat) => true, Some(n))
    case Call => true
    case Return => u.stack != []
  }

  /** The exception whose priority a register write changes. */
  function Written(e: Event): Option<nat> {
    match e
    case IrqPriorityWrite(irq, _) => if irq < 240 then Some(16 + irq) else None
    case SystemPriorityWrite(index, _) => if index < 12 then Some(4 + index) else None
    case _ => None
  }

  function Level(e: Event): nat {
    match e
    case IrqPriorityWrite(_, level) => Mask(level)
    case SystemPriorityWrite(_, level) => Mask(level)
    case _ => 0
  }

  /** A level strictly between the levels of the neighbours of stack position `i`. */
  predicate BetweenNeighbours(u: Unit, i: nat, level: nat)
    requires i < |u.stack|
  {
    && (i > 0 ==> level < Priority(u.nvic, u.stack[i - 1]))
    && (i + 1 < |u.stack| ==> Priority(u.nvic, u.stack[i + 1]) < level)
  }

  /** The events that keep the stack in order: a priority write leaves an active exception between
      its neighbours, and a supervisor call preempts what it interrupts. */
  predicate InOrder(u: Unit, e: UnitEvent) {
    match e
    case Device(event) =>
      Written(event).Some? ==>
        forall i | 0 <= i < |u.stack| && u.stack[i] == Written(event).value :: BetweenNeighbours(u, i, Level(event))
    case Call => u.stack == [] || Priority(u.nvic, SV_CALL) < Priority(u.nvic, Top(u.stack))
    case Take(_, _) => true
    case Return => true
  }

  function Top(stack: seq<nat>): nat {
    if stack == [] then 0 else stack[|stack| - 1]
  }

  function Popped(stack: seq<nat>): seq<nat> {
    if stack == [] then [] else stack[..|stack| - 1]
  }

  /** The bookkeeping of a return: leave the top, resume what it preempted. */
  function Returned(u: Unit): Unit {
    var rest := Popped(u.stack);
    var left := Leave(u.nvic, Top(u.stack));
    Unit(if rest == [] then left else Resume(left, Top(rest)), rest)
  }

  function UnitStep(u: Unit, e: UnitEvent): Unit {
    match e
    case Device(event) => u.(nvic := Apply(u.nvic, event))
    case Take(_, n) => Unit(Enter(u.nvic, n), u.stack + [n])
    case Call => Unit(Enter(u.nvic, SV_CALL), u.stack + [SV_CALL])
    case Return => if u.stack == [] then u else Returned(u)
  }

  ghost predicate AllPossible(u: Unit, events: seq<UnitEvent>)
    decreases |events|
  {
    events == [] || (Possible(u, events[0]) && AllPossible(UnitStep(u, events[0]), events[1..]))
  }

  predicate AllInOrder(u: Unit, events: seq<UnitEvent>)
    decreases |events|
  {
    events == [] || (InOrder(u, events[0]) && AllInOrder(UnitStep(u, events[0]), events[1..]))
  }

  function UnitRun(u: Unit, events: seq<UnitEvent>): Unit
    decreases |events|
  {
    if events == [] then u else UnitRun(UnitStep(u, events[0]), events[1..])
  }

  // ---------------------------------------------------------------- the discipline

  predicate Takable(n: nat) {
    n == SV_CALL || n == PEND_SV || n == SYS_TICK || IsIrq(n)
  }

  /** Priority values fall strictly towards the top. */
  predicate Falling(s: Nvic, stack: seq<nat>) {
    forall i, j | 0 <= i < j < |stack| :: Priority(s, stack[j]) < Priority(s, stack[i])
  }

  predicate Disciplined(u: Unit) {
    && (forall i | 0 <= i < |u.stack| :: Takable(u.stack[i]))
    && Falling(u.nvic, u.stack)
    && (forall irq | 0 <= irq < 256 :: u.nvic.active[irq] <==> irq + 16 in u.stack)
    && u.nvic.activeException == Top(u.stack)
    && PrioritiesMasked(u.nvic)
  }

  /** Priorities, active bits and the active exception, which the discipline is about. */
  predicate SameUnit(s: Nvic, t: Nvic) {
    && s.active == t.active && s.activeException == t.activeException
    && s.irqPriority == t.irqPriority && s.systemPriority == t.systemPriority
  }

  lemma RefreshKeepsUnit(s: Nvic)
    ensures SameUnit(s, Refresh(s))
  {
  }

  lemma DeviceKeeps(s: Nvic, e: Event)
    requires Written(e) == None && |s.irqPriority| == 240 && |s.systemPriority| == 12
    ensures SameUnit(s, Apply(s, e))
  {
    hide Refresh, Masking;
    forall t: Nvic
      ensures SameUnit(t, Refresh(t))
    {
      RefreshKeepsUnit(t);
    }
  }

  lemma SamePriority(s: Nvic, t: Nvic, n: nat)
    requires s.irqPriority == t.irqPriority && s.systemPriority == t.systemPriority
    ensures Priority(s, n) == Priority(t, n)
  {
  }

  lemma SameDiscipline(u: Unit, t: Nvic)
    requires Disciplined(u) && SameUnit(u.nvic, t)
    ensures Disciplined(u.(nvic := t))
  {
    hide Priority;
    forall n: nat
      ensures Priority(u.nvic, n) == Priority(t, n)
    {
      SamePriority(u.nvic, t, n);
    }
  }

  lemma EnterFields(s: Nvic, n: nat)
    ensures
      var t := Enter(s, n);
      && t.activeException == n && t.irqPriority == s.irqPriority && t.systemPriority == s.systemPriority
      && t.active == if IsIrq(n) then s.active[n - 16 := true] else s.active
  {
    hide Refresh;
    forall t: Nvic
      ensures SameUnit(t, Refresh(t))
    {
      RefreshKeepsUnit(t);
    }
  }

  lemma LeaveFields(s: Nvic, n: nat)
    ensures
      var t := Leave(s, n);
      && t.activeException == (if s.activeException == n then 0 else s.activeException)
      && t.irqPriority == s.irqPriority && t.systemPriority == s.systemPriority
      && t.active == if IsIrq(n) then s.active[n - 16 := false] else s.active
  {
    hide Refresh;
    forall t: Nvic
      ensures SameUnit(t, Refresh(t))
    {
      RefreshKeepsUnit(t);
    }
  }

  /** An eligible exception has a strictly lower priority value than everything active. */
  lemma EligiblePreempts(u: Unit, masks: Masks, n: nat, i: nat)
    requires Disciplined(u) && Eligible(u.nvic, masks, n) && i < |u.stack|
    ensures Priority(u.nvic, n) < Priority(u.nvic, u.stack[i])
    ensures Takable(n) && n !in u.stack
  {
    hide Priority;
    var top := |u.stack| - 1;
    assert Takable(u.stack[top]);
    assert Priority(u.nvic, n) < Priority(u.nvic, u.stack[top]);
    forall k | 0 <= k < |u.stack|
      ensures Priority(u.nvic, n) < Priority(u.nvic, u.stack[k])
    {
      if k < top { assert Priority(u.nvic, u.stack[top]) < Priority(u.nvic, u.stack[k]); }
    }
  }

  lemma EligibleTakable(s: Nvic, masks: Masks, n: nat)
    requires Eligible(s, masks, n)
    ensures Takable(n)
  {
    if !Takable(n) { NeverEligible(s, masks, n); }
  }

  lemma TakeKeeps(u: Unit, masks: Masks, n: nat)
    requires Disciplined(u) && Eligible(u.nvic, masks, n)
    ensures Disciplined(Unit(Enter(u.nvic, n), u.stack + [n]))
  {
    hide Priority, Eligible, Enter, Disciplined;
    EligibleTakable(u.nvic, masks, n);
    if u.stack != [] { EligiblePreempts(u, masks, n, |u.stack| - 1); }
    EnterKeeps(u, n);
  }

  /** An entry keeps the discipline exactly when it preempts the top of the stack. */
  lemma EnterKeeps(u: Unit, n: nat)
    requires Disciplined(u) && Takable(n)
    ensures Disciplined(Unit(Enter(u.nvic, n), u.stack + [n]))
            <==> u.stack == [] || Priority(u.nvic, n) < Priority(u.nvic, Top(u.stack))
  {
    hide Priority, Enter;
    var t := Enter(u.nvic, n);
    EnterFields(u.nvic, n);
    forall k: nat
      ensures Priority(u.nvic, k) == Priority(t, k)
    {
      SamePriority(u.nvic, t, k);
    }
    var stack := u.stack + [n];
    if u.stack != [] {
      var top := |u.stack| - 1;
      assert stack[top] == Top(u.stack) && stack[top + 1] == n;
      forall k | 0 <= k < |u.stack|
        ensures Priority(u.nvic, Top(u.stack)) <= Priority(u.nvic, u.stack[k])
      {
        if k < top { assert Priority(u.nvic, u.stack[top]) < Priority(u.nvic, u.stack[k]); }
      }
    }
    forall irq | 0 <= irq < 256
      ensures t.active[irq] <==> irq + 16 in stack
    {
      assert irq + 16 in stack <==> irq + 16 in u.stack || irq + 16 == n;
    }
  }

  lemma ReturnedFields(u: Unit)
    requires u.stack != [] && u.nvic.activeException == Top(u.stack)
    ensures
      var t, top, rest := Returned(u).nvic, Top(u.stack), Popped(u.stack);
      && Returned(u).stack == rest && u.stack == rest + [top] && t.activeException == Top(rest)
      && t.irqPriority == u.nvic.irqPriority && t.systemPriority == u.nvic.systemPriority
      && t.active == if IsIrq(top) then u.nvic.active[top - 16 := false] else u.nvic.active
  {
    hide Leave;
    LeaveFields(u.nvic, Top(u.stack));
  }

  lemma TopIsFresh(s: Nvic, rest: seq<nat>, top: nat)
    requires Falling(s, rest + [top])
    ensures top !in rest && Falling(s, rest)
  {
    hide Priority;
    var stack := rest + [top];
    forall i | 0 <= i < |rest|
      ensures rest[i] != top
    {
      assert Priority(s, stack[|rest|]) < Priority(s, stack[i]);
    }
    forall i, j | 0 <= i < j < |rest|
      ensures Priority(s, rest[j]) < Priority(s, rest[i])
    {
      assert Priority(s, stack[j]) < Priority(s, stack[i]);
    }
  }

  lemma ReturnKeeps(u: Unit)
    requires Disciplined(u) && u.stack != []
    ensures Disciplined(Returned(u))
  {
    hide Priority, Returned, Falling, Top, Popped;
    var top, rest, t := Top(u.stack), Popped(u.stack), Returned(u).nvic;
    ReturnedFields(u);
    TopIsFresh(u.nvic, rest, top);
    FallingSame(u.nvic, t, rest);
    forall i | 0 <= i < |rest|
      ensures Takable(rest[i])
    {
      assert Takable(u.stack[i]);
    }
    forall irq | 0 <= irq < 256
      ensures t.active[irq] <==> irq + 16 in rest
    {
      assert irq + 16 in u.stack <==> irq + 16 in rest || irq + 16 == top;
    }
  }

  lemma FallingSame(s: Nvic, t: Nvic, stack: seq<nat>)
    requires Falling(s, stack) && s.irqPriority == t.irqPriority && s.systemPriority == t.systemPriority
    ensures Falling(t, stack)
  {
    hide Priority;
    forall n: nat
      ensures Priority(s, n) == Priority(t, n)
    {
      SamePriority(s, t, n);
    }
  }

  lemma WriteFields(s: Nvic, e: Event)
    requires Written(e).Some? && PrioritiesMasked(s)
    ensures
      var t := Apply(s, e);
      && t.active == s.active && t.activeException == s.activeException && PrioritiesMasked(t)
      && (forall n: nat :: Priority(t, n) == if n == Written(e).value then Level(e) else Priority(s, n))
  {
  }

  /** A priority write keeps the discipline exactly when it leaves an active exception strictly
      between its neighbours on the stack. */
  lemma WriteKeeps(u: Unit, e: Event)
    requires Disciplined(u) && Written(e).Some?
    ensures Disciplined(u.(nvic := Apply(u.nvic, e))) <==> InOrder(u, Device(e))
  {
    hide Priority, Apply, Level, Written;
    var t, x, level := Apply(u.nvic, e), Written(e).value, Level(e);
    WriteFields(u.nvic, e);
    if InOrder(u, Device(e)) {
      forall i, j | 0 <= i < j < |u.stack|
        ensures Priority(t, u.stack[j]) < Priority(t, u.stack[i])
      {
        assert Priority(u.nvic, u.stack[j]) < Priority(u.nvic, u.stack[i]);
        if u.stack[i] == x {
          assert BetweenNeighbours(u, i, level);
          assert i + 1 < j ==> Priority(u.nvic, u.stack[j]) < Priority(u.nvic, u.stack[i + 1]);
        } else if u.stack[j] == x {
          assert BetweenNeighbours(u, j, level);
          assert i < j - 1 ==> Priority(u.nvic, u.stack[j - 1]) < Priority(u.nvic, u.stack[i]);
        }
      }
    }
    if Falling(t, u.stack) {
      forall i | 0 <= i < |u.stack| && u.stack[i] == x
        ensures BetweenNeighbours(u, i, level)
      {
        if i > 0 { assert Priority(u.nvic, u.stack[i]) < Priority(u.nvic, u.stack[i - 1]); }
        if i + 1 < |u.stack| { assert Priority(u.nvic, u.stack[i + 1]) < Priority(u.nvic, u.stack[i]); }
      }
    }
  }

  lemma Sizes(u: Unit)
    requires Disciplined(u)
    ensures |u.nvic.irqPriority| == 240 && |u.nvic.systemPriority| == 12
  {
  }

  /** Every possible event keeps the discipline exactly when it is in order. */
  lemma StepKeeps(u: Unit, e: UnitEvent)
    requires Disciplined(u) && Possible(u, e)
    ensures Disciplined(UnitStep(u, e)) <==> InOrder(u, e)
  {
    hide Disciplined, Eligible, Apply, Enter, Returned, BetweenNeighbours, Priority;
    match e
    case Device(event) =>
      if Written(event).Some? {
        WriteKeeps(u, event);
      } else {
        assert |u.nvic.irqPriority| == 240 && |u.nvic.systemPriority| == 12 by { Sizes(u); }
        DeviceKeeps(u.nvic, event);
        SameDiscipline(u, Apply(u.nvic, event));
      }
    case Take(masks, n) => TakeKeeps(u, masks, n);
    case Call => EnterKeeps(u, SV_CALL);
    case Return => ReturnKeeps(u);
  }

  lemma {:induction false} Depth(s: Nvic, stack: seq<nat>, i: nat)
    requires Falling(s, stack) && i < |stack| && forall k: nat :: Masked(Priority(s, k))
    ensures Priority(s, stack[i]) >= 16 * (|stack| - 1 - i)
    decreases |stack| - i
  {
    if i + 1 < |stack| {
      Depth(s, stack, i + 1);
      assert Priority(s, stack[i + 1]) < Priority(s, stack[i]);
      assert Masked(Priority(s, stack[i])) && Masked(Priority(s, stack[i + 1]));
    }
  }

  lemma PriorityMasked(s: Nvic, n: nat)
    requires PrioritiesMasked(s)
    ensures Masked(Priority(s, n))
  {
  }

  /** What the discipline gives a reader: no duplicates and at most sixteen levels. */
  lemma DisciplineBounds(u: Unit)
    requires Disciplined(u)
    ensures forall i, j | 0 <= i < j < |u.stack| :: u.stack[i] != u.stack[j]
    ensures |u.stack| <= 16
  {
    hide Priority;
    forall i, j | 0 <= i < j < |u.stack|
      ensures u.stack[i] != u.stack[j]
    {
      assert Priority(u.nvic, u.stack[j]) < Priority(u.nvic, u.stack[i]);
    }
    if u.stack != [] {
      forall k: nat
        ensures Masked(Priority(u.nvic, k))
      {
        PriorityMasked(u.nvic, k);
      }
      Depth(u.nvic, u.stack, 0);
      assert Masked(Priority(u.nvic, u.stack[0]));
    }
  }

  lemma {:induction false} RunDisciplined(u: Unit, events: seq<UnitEvent>)
    requires Disciplined(u) && AllPossible(u, events) && AllInOrder(u, events)
    ensures Disciplined(UnitRun(u, events))
    decreases |events|
  {
    hide Disciplined, Possible, InOrder, UnitStep;
    if events != [] {
      StepKeeps(u, events[0]);
      RunDisciplined(UnitStep(u, events[0]), events[1..]);
    }
  }

  /** Preemption discipline: over every run from reset whose priority writes and supervisor calls are
      in order, the active stack has strictly falling priority values, no duplicates and depth at
      most sixteen, its interrupts are exactly the active bits, and the active exception is its top
      or zero. */
  lemma PreemptionDiscipline(events: seq<UnitEvent>)
    requires AllPossible(Unit(Reset(), []), events) && AllInOrder(Unit(Reset(), []), events)
    ensures
      var u := UnitRun(Unit(Reset(), []), events);
      && Disciplined(u) && |u.stack| <= 16
      && (forall i, j | 0 <= i < j < |u.stack| :: u.stack[i] != u.stack[j])
  {
    hide Disciplined;
    ResetDisciplined();
    RunDisciplined(Unit(Reset(), []), events);
    DisciplineBounds(UnitRun(Unit(Reset(), []), events));
  }

  lemma ResetDisciplined()
    ensures Disciplined(Unit(Reset(), []))
  {
  }

  // ---------------------------------------------------------------- runs that lose the discipline

  /** Interrupts 0 and 1 active, 1 over 0, at levels 0x20 and 0x10, and interrupt 0 pending again. */
  predicate Nested(u: Unit) {
    && Disciplined(u) && u.stack == [16, 17]
    && u.nvic.irqPriority[0] == 0x20 && u.nvic.irqPriority[1] == 0x10
    && u.nvic.enable[0] && u.nvic.pending[0] && !u.nvic.lines[0]
    && (forall i | 1 <= i < 256 :: !u.nvic.pending[i]) && !u.nvic.pendSv && !u.nvic.sysTick
  }

  const NO_MASKS: Masks := Masks(0, 0, 0)

  /** Raising the outer interrupt above its preemptor lets it preempt again: it is entered while
      still active, and the inner return clears the active bit of an exception still on the stack. */
  lemma Reentry(u: Unit)
    requires Nested(u)
    ensures
      var raised := UnitStep(u, Device(IrqPriorityWrite(0, 0)));
      var again := UnitStep(raised, Take(NO_MASKS, 16));
      var back := UnitStep(again, Return);
      && !InOrder(u, Device(IrqPriorityWrite(0, 0))) && !Disciplined(raised)
      && Possible(raised, Take(NO_MASKS, 16)) && again.stack == [16, 17, 16]
      && Possible(again, Return) && back.stack == [16, 17] && !back.nvic.active[0]
  {
    hide Enter, Leave, Disciplined, Refresh;
    var e := IrqPriorityWrite(0, 0);
    var raised := UnitStep(u, Device(e));
    Sizes(u);
    WriteKeeps(u, e);
    assert !BetweenNeighbours(u, 0, 0) by { assert Priority(u.nvic, 17) == 0x10; }
    assert !InOrder(u, Device(e)) by { assert u.stack[0] == 16; }
    OnlyPending(raised.nvic) by { assert u.nvic.activeException == 17 by { TopActive(u); } }
    var again := UnitStep(raised, Take(NO_MASKS, 16));
    EnterFields(raised.nvic, 16);
    ReturnedFields(again);
    assert Popped(again.stack) == [16, 17];
  }

  lemma TopActive(u: Unit)
    requires Disciplined(u)
    ensures u.nvic.activeException == Top(u.stack)
  {
  }

  lemma OnlyPending(s: Nvic)
    requires s.activeException == 17 && |s.irqPriority| == 240 && s.irqPriority[0] == 0 && s.irqPriority[1] == 0x10
    requires s.enable[0] && s.pending[0] && (forall i | 1 <= i < 256 :: !s.pending[i]) && !s.pendSv && !s.sysTick
    ensures BestOf(s, NO_MASKS, (k: nat) => true, Some(16))
  {
    forall n: nat | Eligible(s, NO_MASKS, n)
      ensures n == 16
    {
    }
  }

  /** A supervisor call under an interrupt of the same level is entered on top of it. */
  lemma CallOutOfOrder(u: Unit)
    requires Disciplined(u) && u.stack != [] && Priority(u.nvic, Top(u.stack)) == Priority(u.nvic, SV_CALL)
    ensures Possible(u, Call) && !Disciplined(UnitStep(u, Call))
  {
    hide Disciplined, Enter, Priority;
    EnterKeeps(u, SV_CALL);
  }

  /** Two enabled interrupts at levels 0x20 and 0x10, no line asserted, `pend` the pending ones. */
  predicate Quiet(u: Unit, stack: seq<nat>, pend: set<nat>) {
    && u.stack == stack && u.nvic.activeException == Top(stack)
    && |u.nvic.irqPriority| == 240 && u.nvic.irqPriority[0] == 0x20 && u.nvic.irqPriority[1] == 0x10
    && u.nvic.enable[0] && u.nvic.enable[1] && !u.nvic.pendSv && !u.nvic.sysTick
    && (forall i | 0 <= i < 256 :: !u.nvic.lines[i] && (u.nvic.pending[i] <==> i in pend))
  }

  lemma QuietPend(u: Unit, stack: seq<nat>, pend: set<nat>, irq: nat)
    requires Quiet(u, stack, pend) && irq < 2
    ensures Quiet(UnitStep(u, Device(PendEvent(16 + irq))), stack, pend + {irq})
  {
    hide Refresh;
    RefreshFields(WithPending(u.nvic, 16 + irq, true));
  }

  lemma QuietTake(u: Unit, stack: seq<nat>, irq: nat)
    requires Quiet(u, stack, {irq}) && irq < 2
    requires u.nvic.activeException != 0 ==>
               ArchitecturalPriority(u.nvic, 16 + irq) < ArchitecturalPriority(u.nvic, u.nvic.activeException)
    ensures Possible(u, Take(NO_MASKS, 16 + irq)) && InOrder(u, Take(NO_MASKS, 16 + irq))
    ensures Quiet(UnitStep(u, Take(NO_MASKS, 16 + irq)), stack + [16 + irq], {})
  {
    hide Refresh;
    forall n: nat | Eligible(u.nvic, NO_MASKS, n)
      ensures n == 16 + irq
    {
    }
    var s1 := u.nvic.(activeException := 16 + irq, active := u.nvic.active[irq := true]);
    RefreshFields(WithPending(s1, 16 + irq, false));
  }

  function AllBits(): WordBits {
    seq(32, i => true)
  }

  /** Reset, two levels written, 32 interrupts enabled. */
  function Prepared(): Unit {
    var u := UnitStep(Unit(Reset(), []), Device(IrqPriorityWrite(0, 0x20)));
    UnitStep(UnitStep(u, Device(IrqPriorityWrite(1, 0x10))), Device(EnableSet(0, AllBits())))
  }

  lemma PreparedQuiet()
    ensures Quiet(Prepared(), [], {})
    ensures Disciplined(Prepared())
  {
    hide Refresh;
    var u := UnitStep(Unit(Reset(), []), Device(IrqPriorityWrite(0, 0x20)));
    var v := UnitStep(u, Device(IrqPriorityWrite(1, 0x10)));
    RefreshFields(v.nvic.(enable := Masking(v.nvic.enable, 0, AllBits(), true)));
  }

  /** The run to the nested state: 16 taken, 17 taken over it, 16 pending again. */
  function Nesting(): (r: seq<UnitEvent>)
    ensures |r| == 5
  {
    [Device(PendEvent(16)), Take(NO_MASKS, 16), Device(PendEvent(17)), Take(NO_MASKS, 17), Device(PendEvent(16))]
  }

  lemma PendInOrder(u: Unit, irq: nat)
    ensures Possible(u, Device(PendEvent(16 + irq))) && InOrder(u, Device(PendEvent(16 + irq)))
  {
  }

  lemma RunsFive(u0: Unit, u1: Unit, u2: Unit, u3: Unit, u4: Unit, u5: Unit)
    requires UnitStep(u0, Nesting()[0]) == u1 && UnitStep(u1, Nesting()[1]) == u2 && UnitStep(u2, Nesting()[2]) == u3
    requires UnitStep(u3, Nesting()[3]) == u4 && UnitStep(u4, Nesting()[4]) == u5
    requires Possible(u0, Nesting()[0]) && Possible(u1, Nesting()[1]) && Possible(u2, Nesting()[2])
    requires Possible(u3, Nesting()[3]) && Possible(u4, Nesting()[4])
    requires InOrder(u0, Nesting()[0]) && InOrder(u1, Nesting()[1]) && InOrder(u2, Nesting()[2])
    requires InOrder(u3, Nesting()[3]) && InOrder(u4, Nesting()[4])
    ensures UnitRun(u0, Nesting()) == u5 && AllPossible(u0, Nesting()) && AllInOrder(u0, Nesting())
  {
    hide UnitStep, Possible, InOrder;
    assert Nesting()[1..][0] == Nesting()[1] && Nesting()[2..][0] == Nesting()[2] && Nesting()[3..][0] == Nesting()[3];
    assert Nesting()[1..][1..] == Nesting()[2..] && Nesting()[2..][1..] == Nesting()[3..]
           && Nesting()[3..][1..] == Nesting()[4..];
    assert Nesting()[4..][0] == Nesting()[4] && Nesting()[4..][1..] == [];
    assert UnitRun(u5, []) == u5 && AllPossible(u5, []) && AllInOrder(u5, []);
    assert UnitRun(u4, Nesting()[4..]) == u5 && AllPossible(u4, Nesting()[4..]) && AllInOrder(u4, Nesting()[4..]);
    assert UnitRun(u3, Nesting()[3..]) == u5 && AllPossible(u3, Nesting()[3..]) && AllInOrder(u3, Nesting()[3..]);
    assert UnitRun(u2, Nesting()[2..]) == u5 && AllPossible(u2, Nesting()[2..]) && AllInOrder(u2, Nesting()[2..]);
    assert UnitRun(u1, Nesting()[1..]) == u5 && AllPossible(u1, Nesting()[1..]) && AllInOrder(u1, Nesting()[1..]);
  }

  lemma QuietNests(u: Unit)
    requires Quiet(u, [16, 17], {0}) && Disciplined(u)
    ensures Nested(u)
  {
    hide Disciplined;
  }

  /** Interrupt 1 lies above interrupt 0. */
  lemma QuietPreempts(u: Unit)
    requires Quiet(u, [16], {1})
    ensures ArchitecturalPriority(u.nvic, 17) < ArchitecturalPriority(u.nvic, u.nvic.activeException)
  {
  }

  lemma QuietIdle(u: Unit, pend: set<nat>)
    requires Quiet(u, [], pend)
    ensures u.nvic.activeException == 0
  {
  }

  lemma NestingRuns(u0: Unit)
    requires Quiet(u0, [], {})
    ensures AllPossible(u0, Nesting()) && AllInOrder(u0, Nesting())
    ensures Quiet(UnitRun(u0, Nesting()), [16, 17], {0})
  {
    hide UnitStep, UnitRun, AllPossible, AllInOrder, Possible, InOrder, Quiet, ArchitecturalPriority;
    var u1 := UnitStep(u0, Nesting()[0]);
    QuietPend(u0, [], {}, 0);
    var u2 := UnitStep(u1, Nesting()[1]);
    assert {} + {0} == {0} && {} + {1} == {1} && [] + [16] == [16];
    QuietIdle(u1, {0});
    QuietTake(u1, [], 0);
    var u3 := UnitStep(u2, Nesting()[2]);
    QuietPend(u2, [16], {}, 1);
    var u4 := UnitStep(u3, Nesting()[3]);
    QuietPreempts(u3);
    QuietTake(u3, [16], 1);
    assert [16] + [17] == [16, 17];
    var u5 := UnitStep(u4, Nesting()[4]);
    QuietPend(u4, [16, 17], {}, 0);
    PendInOrder(u0, 0);
    PendInOrder(u2, 1);
    PendInOrder(u4, 0);
    RunsFive(u0, u1, u2, u3, u4, u5);
  }

  lemma NestedReachable()
    ensures AllPossible(Prepared(), Nesting()) && AllInOrder(Prepared(), Nesting())
    ensures Nested(UnitRun(Prepared(), Nesting()))
  {
    hide Prepared, UnitRun, AllPossible, AllInOrder, Quiet, Disciplined;
    PreparedQuiet();
    NestingRuns(Prepared());
    RunDisciplined(Prepared(), Nesting());
    QuietNests(UnitRun(Prepared(), Nesting()));
  }
}
