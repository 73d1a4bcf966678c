/** The interrupt controller: pending, enabled, active and line bits, the pending summary and the
    selection of the next exception, after src/cortexm/system_control.cpp. Sections B1.5.4 and B3.4
    of the ARMv7-M manual describe priorities and the NVIC. */
module Nvic {
  import opened Words

  /** 256 interrupt bits: eight words, bit `i` of word `w` at index `32 * w + i`. */
  type Bits = s: seq<bool> | |s| == 256 witness seq(256, i => false)

  /** A priority byte after masking with 0xf0. */
  predicate Masked(p: nat) {
    p <= 0xf0 && p % 16 == 0
  }

  /** `level & 0xf0`. */
  function Mask(level: nat): (r: nat)
    ensures Masked(r)
  {
    level % 0x100 / 16 * 16
  }

  datatype Nvic = Nvic(
    enable: Bits, pending: Bits, active: Bits, lines: Bits,
    irqPriority: seq<nat>, systemPriority: seq<nat>,
    pendSv: bool, sysTick: bool, summary: bool, activeException: nat)

  const PEND_SV: nat := 14
  const SYS_TICK: nat := 15

  // ---------------------------------------------------------------- transitions

  function NoBits(): Bits {
    seq(256, i => false)
  }

  function Reset(): Nvic {
    Nvic(NoBits(), NoBits(), NoBits(), NoBits(), seq(240, i => 0), seq(12, i => 0), false, false, false, 0)
  }

  predicate AnyEnabledPending(s: Nvic) {
    exists i :: 0 <= i < 256 && s.pending[i] && s.enable[i]
  }

  /** Asserted lines of inactive interrupts are pending. */
  function Repended(s: Nvic): Bits {
    seq(256, i requires 0 <= i < 256 => s.pending[i] || (s.lines[i] && !s.active[i]))
  }

  /** The same for the 32 bits from `base` on. */
  function RependedWord(pending: Bits, lines: Bits, active: Bits, base: nat): Bits {
    seq(256, i requires 0 <= i < 256 =>
      pending[i] || (base <= i < base + 32 && lines[i] && !active[i]))
  }

  function Refresh(s: Nvic): Nvic {
    var s1 := s.(pending := Repended(s));
    s1.(summary := AnyEnabledPending(s1))
  }

  predicate IsIrq(n: nat) {
    16 <= n < 256
  }

  function WithPending(s: Nvic, n: nat, value: bool): Nvic
    requires IsIrq(n)
  {
    s.(pending := s.pending[n - 16 := value])
  }

  function Pend(s: Nvic, n: nat): Nvic {
    if n == PEND_SV then s.(pendSv := true)
    else if n == SYS_TICK then s.(sysTick := true)
    else if IsIrq(n) then Refresh(WithPending(s, n, true))
    else s
  }

  function ClearPending(s: Nvic, n: nat): Nvic {
    if n == PEND_SV then s.(pendSv := false)
    else if n == SYS_TICK then s.(sysTick := false)
    else if IsIrq(n) then Refresh(WithPending(s, n, false))
    else s
  }

  /** A rising edge pends; a level is sampled again only on deactivation. */
  function SetLine(s: Nvic, irq: nat, asserted: bool): Nvic {
    if irq >= 240 then s
    else
      var edge := asserted && !s.lines[irq];
      Refresh(s.(lines := s.lines[irq := asserted], pending := s.pending[irq := s.pending[irq] || edge]))
  }

  function Enter(s: Nvic, n: nat): Nvic {
    var s1 := s.(activeException := n);
    ClearPending(if IsIrq(n) then s1.(active := s1.active[n - 16 := true]) else s1, n)
  }

  function Leave(s: Nvic, n: nat): Nvic {
    var s1 := if IsIrq(n) then s.(active := s.active[n - 16 := false]) else s;
    Refresh(if s1.activeException == n then s1.(activeException := 0) else s1)
  }

  function Resume(s: Nvic, n: nat): Nvic {
    s.(activeException := n)
  }

  type WordBits = s: seq<bool> | |s| == 32 witness seq(32, i => false)

  /** Bits of word `w` set or cleared by a masked register write. */
  function Masking(bits: Bits, w: nat, mask: WordBits, value: bool): Bits
    requires w < 8
  {
    seq(256, i requires 0 <= i < 256 => if i / 32 == w && mask[i % 32] then value else bits[i])
  }

  /** What can happen to the controller from outside the exception unit. */
  datatype Event =
    | PendEvent(n: nat) | ClearEvent(n: nat) | LineEvent(irq: nat, asserted: bool)
    | EnableSet(w: nat, mask: WordBits) | EnableClear(w: nat, mask: WordBits)
    | PendingSet(w: nat, mask: WordBits) | PendingClear(w: nat, mask: WordBits)
    | PendSvWrite(value: bool) | SysTickWrite(value: bool)
    | IrqPriorityWrite(irq: nat, level: nat) | SystemPriorityWrite(index: nat, level: nat)

  /** The NVIC and SCB part of writeWord, pend, clearPending and setInterruptLine. */
  function Apply(s: Nvic, e: Event): Nvic {
    match e
    case PendEvent(n) => Pend(s, n)
    case ClearEvent(n) => ClearPending(s, n)
    case LineEvent(irq, asserted) => SetLine(s, irq, asserted)
    case EnableSet(w, mask) => if w < 8 then Refresh(s.(enable := Masking(s.enable, w, mask, true))) else s
    case EnableClear(w, mask) => if w < 8 then Refresh(s.(enable := Masking(s.enable, w, mask, false))) else s
    case PendingSet(w, mask) => if w < 8 then Refresh(s.(pending := Masking(s.pending, w, mask, true))) else s
    case PendingClear(w, mask) => if w < 8 then Refresh(s.(pending := Masking(s.pending, w, mask, false))) else s
    case PendSvWrite(value) => s.(pendSv := value)
    case SysTickWrite(value) => s.(sysTick := value)
    case IrqPriorityWrite(irq, level) =>
      if irq < |s.irqPriority| then s.(irqPriority := s.irqPriority[irq := Mask(level)]) else s
    case SystemPriorityWrite(index, level) =>
      if index < |s.systemPriority| then s.(systemPriority := s.systemPriority[index := Mask(level)]) else s
  }

  // ---------------------------------------------------------------- the invariant

  /** No asserted line is lost, and the summary is exact. */
  predicate NoLostInterrupt(s: Nvic) {
    && (forall i | 0 <= i < 256 :: s.lines[i] ==> s.pending[i] || s.active[i])
    && (s.summary <==> AnyEnabledPending(s))
  }

  predicate PrioritiesMasked(s: Nvic) {
    && |s.irqPriority| == 240 && |s.systemPriority| == 12
    && (forall i | 0 <= i < 240 :: Masked(s.irqPriority[i])) && (forall i | 0 <= i < 12 :: Masked(s.systemPriority[i]))
  }

  predicate Inv(s: Nvic) {
    NoLostInterrupt(s) && PrioritiesMasked(s)
  }

  lemma RefreshEstablishes(s: Nvic)
    ensures NoLostInterrupt(Refresh(s))
  {
  }

  lemma ApplyKeeps(s: Nvic, e: Event)
    requires Inv(s)
    ensures Inv(Apply(s, e))
  {
    hide Refresh, NoLostInterrupt, Masking;
    forall t: Nvic
      ensures NoLostInterrupt(Refresh(t)) && Refresh(t).irqPriority == t.irqPriority
              && Refresh(t).systemPriority == t.systemPriority
    {
      RefreshEstablishes(t);
      RefreshFields(t);
    }
    OthersKeep(s, e);
  }

  lemma RefreshFields(s: Nvic)
    ensures
      var r := Refresh(s);
      && r == s.(pending := r.pending, summary := r.summary)
      && (forall i | 0 <= i < 256 :: r.pending[i] == (s.pending[i] || (s.lines[i] && !s.active[i])))
  {
  }

  /** Writes that touch neither lines nor enable, pending and active bits. */
  lemma OthersKeep(s: Nvic, e: Event)
    requires NoLostInterrupt(s)
    ensures NoLostInterrupt(s.(pendSv := true)) && NoLostInterrupt(s.(pendSv := false))
    ensures NoLostInterrupt(s.(sysTick := true)) && NoLostInterrupt(s.(sysTick := false))
    ensures e.PendSvWrite? ==> NoLostInterrupt(s.(pendSv := e.value))
    ensures e.SysTickWrite? ==> NoLostInterrupt(s.(sysTick := e.value))
    ensures forall p: seq<nat> :: NoLostInterrupt(s.(irqPriority := p)) && NoLostInterrupt(s.(systemPriority := p))
    ensures forall n: nat :: NoLostInterrupt(s.(activeException := n))
  {
  }

  lemma UnitKeeps(s: Nvic, n: nat)
    requires Inv(s)
    ensures Inv(Enter(s, n)) && Inv(Leave(s, n)) && Inv(Resume(s, n))
  {
    hide Refresh, NoLostInterrupt;
    forall t: Nvic
      ensures NoLostInterrupt(Refresh(t)) && Refresh(t).irqPriority == t.irqPriority
              && Refresh(t).systemPriority == t.systemPriority
    {
      RefreshEstablishes(t);
      RefreshFields(t);
    }
    OthersKeep(s, PendEvent(0));
    OthersKeep(s.(activeException := n), PendEvent(0));
  }

  // ---------------------------------------------------------------- selection

  datatype Masks = Masks(primask: Word, basepri: Word, faultmask: Word)

  predicate IsPending(s: Nvic, n: nat) {
    if n == PEND_SV then s.pendSv else if n == SYS_TICK then s.sysTick else IsIrq(n) && s.pending[n - 16]
  }

  predicate IsEnabled(s: Nvic, n: nat) {
    n < 16 || (IsIrq(n) && s.enable[n - 16])
  }

  function Priority(s: Nvic, n: nat): nat {
    if 4 <= n <= 15 && n - 4 < |s.systemPriority| then s.systemPriority[n - 4]
    else if IsIrq(n) && n - 16 < |s.irqPriority| then s.irqPriority[n - 16]
    else 0
  }

  /** NMI and HardFault have fixed negative priorities. */
  function ArchitecturalPriority(s: Nvic, n: nat): int {
    if n == 2 then -2 else if n == 3 then -1 else Priority(s, n)
  }

  /** A pending, enabled exception that the masks and the active exception let through. */
  predicate Eligible(s: Nvic, masks: Masks, n: nat) {
    && IsPending(s, n) && IsEnabled(s, n)
    && (masks.faultmask != 0 ==> n == 2) && (masks.primask != 0 ==> n <= 3)
    && (s.activeException != 0 ==> ArchitecturalPriority(s, n) < ArchitecturalPriority(s, s.activeException))
    && (masks.basepri % 0x100 / 16 != 0 && n > 3 ==> Priority(s, n) < masks.basepri % 0x100 / 16 * 16)
  }

  /** Lower priority value first, then lower exception number. */
  predicate Before(s: Nvic, a: nat, b: nat) {
    Priority(s, a) < Priority(s, b) || (Priority(s, a) == Priority(s, b) && a <= b)
  }

  /** `best` is the first eligible exception among those `seen` covers. */
  ghost predicate BestOf(s: Nvic, masks: Masks, seen: nat -> bool, best: Option<nat>) {
    match best
    case None => forall n: nat | seen(n) :: !Eligible(s, masks, n)
    case Some(b) => Eligible(s, masks, b) && forall n: nat | seen(n) && Eligible(s, masks, n) :: Before(s, b, n)
  }

  /** The `consider` step of the selection. */
  method Consider(s: Nvic, masks: Masks, n: nat, best: Option<nat>, ghost seen: nat -> bool) returns (r: Option<nat>)
    requires BestOf(s, masks, seen, best)
    ensures BestOf(s, masks, (k: nat) => seen(k) || k == n, r)
    ensures r == best || r == Some(n)
  {
    hide Eligible, Priority;
    r := best;
    if !Eligible(s, masks, n) { return; }
    if best == None || Priority(s, n) < Priority(s, best.value)
      || (Priority(s, n) == Priority(s, best.value) && n < best.value) {
      r := Some(n);
    }
  }

  /** Exceptions the scan can select: PendSV, SysTick and interrupts below word `w`, bit `b`. */
  predicate Scanned(n: nat, limit: nat) {
    n == PEND_SV || n == SYS_TICK || 16 <= n < 16 + limit
  }

  predicate HasEnabledPending(s: Nvic) {
    s.pendSv || s.sysTick || s.summary
  }

  /** nextPending: the least eligible exception by priority and number, among all exceptions. The
      early return on the summary hides none. */
  method NextPending(s: Nvic, masks: Masks) returns (selected: Option<nat>)
    requires NoLostInterrupt(s)
    ensures BestOf(s, masks, (n: nat) => true, selected)
    ensures selected.Some? ==> selected.value == PEND_SV || selected.value == SYS_TICK || IsIrq(selected.value)
  {
    hide Eligible, Priority;
    if !HasEnabledPending(s) {
      forall n: nat
        ensures !Eligible(s, masks, n)
      {
        NothingPending(s, masks, n);
      }
      return None;
    }
    selected := None;
    selected := Consider(s, masks, PEND_SV, selected, (n: nat) => false);
    selected := Consider(s, masks, SYS_TICK, selected, (n: nat) => n == PEND_SV);
    var word := 0;
    while word < 8
      invariant 0 <= word <= 8
      invariant BestOf(s, masks, (n: nat) => Scanned(n, 32 * word), selected)
      invariant selected.Some? ==> Scanned(selected.value, 256)
    {
      var bit := 0;
      while bit < 32
        invariant 0 <= bit <= 32
        invariant BestOf(s, masks, (n: nat) => Scanned(n, 32 * word + bit), selected)
        invariant selected.Some? ==> Scanned(selected.value, 256)
      {
        var irq := 32 * word + bit;
        ghost var before := selected;
        if s.pending[irq] && s.enable[irq] {
          selected := Consider(s, masks, 16 + irq, selected, (n: nat) => Scanned(n, irq));
        } else {
          NotCandidate(s, masks, irq);
        }
        bit := bit + 1;
      }
      word := word + 1;
    }
    forall n: nat | !Scanned(n, 256)
      ensures !Eligible(s, masks, n)
    {
      NeverEligible(s, masks, n);
    }
    if selected.Some? && selected.value >= 256 { NeverEligible(s, masks, selected.value); }
  }

  lemma NothingPending(s: Nvic, masks: Masks, n: nat)
    requires NoLostInterrupt(s) && !HasEnabledPending(s)
    ensures !Eligible(s, masks, n)
  {
  }

  lemma NotCandidate(s: Nvic, masks: Masks, irq: nat)
    requires irq < 256 && !(s.pending[irq] && s.enable[irq])
    ensures !Eligible(s, masks, 16 + irq)
  {
  }

  /** Only PendSV, SysTick and interrupts 0-239 can be selected; bits 240-255 never are. */
  lemma NeverEligible(s: Nvic, masks: Masks, n: nat)
    requires n != PEND_SV && n != SYS_TICK && !IsIrq(n)
    ensures !Eligible(s, masks, n)
  {
  }

  // ---------------------------------------------------------------- runs

  /** The controller after a run of outside events and exception-unit calls. */
  datatype Call = Outside(event: Event) | EnterCall(n: nat) | LeaveCall(n: nat) | ResumeCall(n: nat)

  function ApplyCall(s: Nvic, c: Call): Nvic {
    match c
    case Outside(e) => Apply(s, e)
    case EnterCall(n) => Enter(s, n)
    case LeaveCall(n) => Leave(s, n)
    case ResumeCall(n) => Resume(s, n)
  }

  function ApplyAll(s: Nvic, calls: seq<Call>): Nvic
    decreases |calls|
  {
    if calls == [] then s else ApplyAll(ApplyCall(s, calls[0]), calls[1..])
  }

  lemma ResetInv()
    ensures Inv(Reset())
  {
  }

  lemma {:induction false} RunKeeps(s: Nvic, calls: seq<Call>)
    requires Inv(s)
    ensures Inv(ApplyAll(s, calls))
    decreases |calls|
  {
    hide Inv, Apply, Enter, Leave, Resume;
    if calls != [] {
      if calls[0].Outside? { ApplyKeeps(s, calls[0].event); } else { UnitKeeps(s, calls[0].n); }
      RunKeeps(ApplyCall(s, calls[0]), calls[1..]);
    }
  }

  /** No lost interrupt: in every controller state reachable from reset, each asserted line is
      pending or active and the summary says exactly whether an enabled bit is pending. */
  lemma ReachableKeepsInterrupts(calls: seq<Call>)
    ensures NoLostInterrupt(ApplyAll(Reset(), calls)) && PrioritiesMasked(ApplyAll(Reset(), calls))
  {
    hide ApplyAll;
    ResetInv();
    RunKeeps(Reset(), calls);
  }

  // ---------------------------------------------------------------- the controller object

  /** SystemControl's interrupt fields and the methods that change them. */
  class SystemControl {
    var enable: Bits
    var pending: Bits
    var active: Bits
    var lines: Bits
    var irqPriority: seq<nat>
    var systemPriority: seq<nat>
    var pendSv: bool
    var sysTick: bool
    var summary: bool
    var activeException: nat

    function State(): Nvic
      reads this
    {
      Nvic(enable, pending, active, lines, irqPriority, systemPriority, pendSv, sysTick, summary, activeException)
    }

    constructor ()
      ensures State() == Reset()
    {
      enable, pending, active, lines := NoBits(), NoBits(), NoBits(), NoBits();
      irqPriority, systemPriority := seq(240, i => 0), seq(12, i => 0);
      pendSv, sysTick, summary, activeException := false, false, false, 0;
    }

    /** refreshPendingSummary, word by word. */
    method RefreshPendingSummary()
      modifies this`pending, this`summary
      ensures State() == Refresh(old(State()))
    {
      summary := false;
      var word := 0;
      while word < 8
        invariant 0 <= word <= 8
        invariant forall i | 0 <= i < 32 * word :: pending[i] == (old(pending)[i] || (lines[i] && !active[i]))
        invariant forall i | 32 * word <= i < 256 :: pending[i] == old(pending)[i]
        invariant summary <==> exists i :: 0 <= i < 32 * word && pending[i] && enable[i]
      {
        var base := 32 * word;
        pending := RependedWord(pending, lines, active, base);
        if exists i :: base <= i < base + 32 && pending[i] && enable[i] { summary := true; }
        word := word + 1;
      }
      assert pending == Repended(old(State()));
    }

    method PendException(n: nat)
      modifies this
      ensures State() == Pend(old(State()), n)
    {
      hide Refresh;
      if n == PEND_SV {
        pendSv := true;
      } else if n == SYS_TICK {
        sysTick := true;
      } else if IsIrq(n) {
        pending := pending[n - 16 := true];
        RefreshPendingSummary();
      }
    }

    method ClearPendingException(n: nat)
      modifies this
      ensures State() == ClearPending(old(State()), n)
    {
      hide Refresh;
      if n == PEND_SV {
        pendSv := false;
      } else if n == SYS_TICK {
        sysTick := false;
      } else if IsIrq(n) {
        pending := pending[n - 16 := false];
        RefreshPendingSummary();
      }
    }

    method SetInterruptLine(irq: nat, asserted: bool)
      modifies this
      ensures State() == SetLine(old(State()), irq, asserted)
    {
      hide Refresh;
      if irq >= 240 { return; }
      var wasAsserted := lines[irq];
      lines := lines[irq := asserted];
      if asserted && !wasAsserted { pending := pending[irq := true]; }
      assert pending == old(pending)[irq := old(pending)[irq] || (asserted && !wasAsserted)];
      RefreshPendingSummary();
    }

    method EnterException(n: nat)
      modifies this
      ensures State() == Enter(old(State()), n)
    {
      hide ClearPending;
      activeException := n;
      if IsIrq(n) { active := active[n - 16 := true]; }
      ClearPendingException(n);
    }

    method LeaveException(n: nat)
      modifies this
      ensures State() == Leave(old(State()), n)
    {
      hide Refresh;
      if IsIrq(n) { active := active[n - 16 := false]; }
      if activeException == n { activeException := 0; }
      RefreshPendingSummary();
    }

    method ResumeException(n: nat)
      modifies this
      ensures State() == Resume(old(State()), n)
    {
      activeException := n;
    }

    /** ISER, ICER, ISPR and ICPR writes of word `w`. */
    method WriteBits(w: nat, mask: WordBits, enables: bool, value: bool)
      requires w < 8
      modifies this
      ensures State() == Apply(old(State()),
                if enables then if value then EnableSet(w, mask) else EnableClear(w, mask)
                else if value then PendingSet(w, mask) else PendingClear(w, mask))
    {
      hide Refresh, Masking;
      if enables { enable := Masking(enable, w, mask, value); } else { pending := Masking(pending, w, mask, value); }
      RefreshPendingSummary();
    }
  }
}
