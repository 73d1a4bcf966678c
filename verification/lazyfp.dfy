/** Lazy floating-point stacking across a nested exception, after the reservation logic of
    src/cortexm/exceptions.cpp: the nested entry abandons the outer reservation, and the outer
    return loads FP registers nobody stacked. */
module LazyFp {
  import opened Words
  import opened Cpu
  import opened Stack
  import opened Frames

  /** The area an entry from `c` takes on its stack. */
  function Base(sys: SysView, c: CpuState): int {
    LayoutOf(sys, c).oldSp - LayoutOf(sys, c).size
  }

  /** The frame of an entry from `d` meets no byte of the frame of an entry from `c`. */
  predicate Disjoint(sys: SysView, c: CpuState, d: CpuState) {
    || LayoutOf(sys, d).oldSp <= Base(sys, c)
    || Base(sys, c) + LayoutOf(sys, c).size <= Base(sys, d)
  }

  /** Outer handler code from the entry `e` to (`c1`, `m1`): its reservation still pending, its frame
      untouched. */
  predicate OuterCode(sys: SysView, c: CpuState, e: Entry, c1: CpuState, m1: Memory)
    requires e.Entry?
  {
    && Canonical(c1) && c1.extra.lazyActive && Kept(sys, c, e.cpu, e.mem, c1, m1)
    && SameBytes(e.mem, m1, Base(sys, c), LayoutOf(sys, c).size)
  }

  /** Nested handler code from the entry `e1` to (`c2`, `m2`): its own frame and the outer one
      untouched. */
  predicate NestedCode(sys: SysView, c: CpuState, c1: CpuState, e1: Entry, c2: CpuState, m2: Memory)
    requires e1.Entry?
  {
    && Kept(sys, c1, e1.cpu, e1.mem, c2, m2) && c2.psp == e1.cpu.psp
    && SameBytes(e1.mem, m2, Base(sys, c), LayoutOf(sys, c).size)
  }

  lemma SameTrans(m: Memory, m1: Memory, m2: Memory, a: int, n: nat)
    requires SameBytes(m, m1, a, n) && SameBytes(m1, m2, a, n)
    ensures SameBytes(m, m2, a, n)
  {
  }

  lemma SameInside(m: Memory, m1: Memory, a: int, n: nat, b: int, k: nat)
    requires SameBytes(m, m1, a, n) && a <= b && b + k <= a + n
    ensures SameBytes(m, m1, b, k)
  {
  }

  lemma SameApart(m: Memory, m1: Memory, a: int, n: nat, b: int, k: nat)
    requires OnlyIn(m, m1, a, n) && Readable(m, b, k) && (b + k <= a || a + n <= b)
    ensures SameBytes(m, m1, b, k) && m1.bytes.Keys == m.bytes.Keys && m1.writable == m.writable
  {
  }

  /** A lazy entry reserves its FP area without writing it. */
  lemma LazyLeaves(sys: SysView, c: CpuState, m: Memory, n: nat)
    requires Canonical(c) && LazyEntry(sys, c) && EnterFrame(sys, c, m, n).Entry?
    ensures SameBytes(m, EnterFrame(sys, c, m, n).mem, Base(sys, c), FP_FRAME)
    ensures EnterFrame(sys, c, m, n).cpu.extra.lazyActive
    ensures var e := EnterFrame(sys, c, m, n); e.mem.bytes.Keys == m.bytes.Keys && e.mem.writable == m.writable
  {
    hide EnterFrame, Canonical, StoreWords, LoadWords, CoreFrame;
    CanonicalParts(c);
    EntrySp(sys, c, m, n);
    var l := LayoutOf(sys, c);
    StoredWords(m, Base(sys, c) + FP_FRAME, CoreFrame(c, l.padding));
    SameApart(m, EnterFrame(sys, c, m, n).mem, Base(sys, c) + FP_FRAME, 32, Base(sys, c), FP_FRAME);
  }

  /** A nested entry drops the reservation and writes no byte of the outer frame. */
  lemma NestedEntry(sys: SysView, c: CpuState, c1: CpuState, m1: Memory, n1: nat)
    requires Canonical(c1) && c1.extra.lazyActive && EnterFrame(sys, c1, m1, n1).Entry?
    requires Disjoint(sys, c, c1) && Readable(m1, Base(sys, c), LayoutOf(sys, c).size)
    ensures
      var e1 := EnterFrame(sys, c1, m1, n1);
      && !e1.cpu.extra.lazyActive && SameBytes(m1, e1.mem, Base(sys, c), LayoutOf(sys, c).size)
      && e1.mem.bytes.Keys == m1.bytes.Keys && e1.mem.writable == m1.writable
  {
    hide EnterFrame, Canonical, Stacked, LoadWords, CoreFrame, FpFrame;
    CanonicalParts(c1);
    EntrySp(sys, c1, m1, n1);
    StackedFrames(sys, c1, m1);
    var l := LayoutOf(sys, c1);
    SameApart(m1, EnterFrame(sys, c1, m1, n1).mem, l.oldSp - l.size, l.size, Base(sys, c), LayoutOf(sys, c).size);
  }

  /** A return leaves the pending flag clear and gives both stack pointers of the nested level back. */
  lemma NestedReturn(sys: SysView, c1: CpuState, m1: Memory, n1: nat, c2: CpuState, m2: Memory)
    requires Canonical(c1) && InHandlerMode(c1) && EnterFrame(sys, c1, m1, n1).Entry?
    requires var e1 := EnterFrame(sys, c1, m1, n1); Kept(sys, c1, e1.cpu, e1.mem, c2, m2) && c2.psp == e1.cpu.psp
    ensures
      var r1 := ReturnFrame(c2, m2, EnterFrame(sys, c1, m1, n1).cpu.r[14], true);
      && r1.Exit? && !r1.cpu.extra.lazyActive && |r1.cpu.extra.s| == 32
      && InHandlerMode(r1.cpu) && r1.cpu.msp == c1.msp && r1.cpu.psp == c1.psp
  {
    hide EnterFrame, Canonical, ReturnFrame, LoadWords;
    CanonicalParts(c1);
    EntrySp(sys, c1, m1, n1);
    ReturnResumes(sys, c1, m1, n1, c2, m2);
  }

  lemma KeptIs(sys: SysView, c: CpuState, e: CpuState, m: Memory, c1: CpuState, m1: Memory)
    requires Kept(sys, c, e, m, c1, m1)
    ensures InHandlerMode(c1) && |c1.extra.s| == 32 && m1.writable == m.writable && m1.bytes.Keys == m.bytes.Keys
    ensures if LayoutOf(sys, c).psp then c1.psp == e.psp else c1.msp == e.msp
    ensures LayoutOf(sys, c).oldSp >= LayoutOf(sys, c).size
  {
  }

  lemma StillThere(sys: SysView, c: CpuState, m: Memory, m1: Memory)
    requires SameBytes(m, m1, Base(sys, c), LayoutOf(sys, c).size)
    ensures Readable(m1, Base(sys, c), LayoutOf(sys, c).size)
  {
  }

  /** After the nested return the outer handler still has its frame and stack pointer. */
  lemma OuterKept(sys: SysView, c: CpuState, e: CpuState, m: Memory, c1: CpuState, r1: CpuState, m2: Memory)
    requires LayoutOf(sys, c).oldSp >= LayoutOf(sys, c).size && SameBytes(m, m2, Base(sys, c), LayoutOf(sys, c).size)
    requires if LayoutOf(sys, c).psp then c1.psp == e.psp else c1.msp == e.msp
    requires InHandlerMode(r1) && |r1.extra.s| == 32 && r1.msp == c1.msp && r1.psp == c1.psp
    requires m2.writable == m.writable && m2.bytes.Keys == m.bytes.Keys
    ensures Kept(sys, c, e, m, r1, m2)
    ensures c.control.fpca ==> FP_FRAME <= LayoutOf(sys, c).size
  {
  }

  /** Lazy nesting. A lazy entry, a nested exception in its handler and the outer return: the nested
      return succeeds with the reservation gone and the 72 reserved bytes as they were before the
      outer entry, so the outer return loads S0-S15 and FPSCR from those bytes, and they are the
      interrupted ones if and only if the bytes held them already. */
  lemma LazyNesting(
    sys: SysView, c: CpuState, m: Memory, n: nat, c1: CpuState, m1: Memory, n1: nat, c2: CpuState, m2: Memory)
    requires Canonical(c) && LazyEntry(sys, c) && EnterFrame(sys, c, m, n).Entry?
    requires OuterCode(sys, c, EnterFrame(sys, c, m, n), c1, m1)
    requires EnterFrame(sys, c1, m1, n1).Entry? && Disjoint(sys, c, c1)
    requires NestedCode(sys, c, c1, EnterFrame(sys, c1, m1, n1), c2, m2)
    ensures
      var r1 := ReturnFrame(c2, m2, EnterFrame(sys, c1, m1, n1).cpu.r[14], true);
      var words := LoadWords(m, Base(sys, c), 17);
      && r1.Exit? && !r1.cpu.extra.lazyActive && |r1.cpu.extra.s| == 32
      && SameBytes(m, m2, Base(sys, c), FP_FRAME)
      && var r := ReturnFrame(r1.cpu, m2, EnterFrame(sys, c, m, n).cpu.r[14], true);
         && r.Exit? && |c.extra.s| == |r.cpu.extra.s| == 32 && words.Some?
         && r.cpu.extra.s[..16] + [r.cpu.extra.fpscr] == words.value
         && (r.cpu.extra.s[..16] == c.extra.s[..16] && r.cpu.extra.fpscr == c.extra.fpscr
             <==> words.value == c.extra.s[..16] + [c.extra.fpscr])
  {
    hide EnterFrame, Canonical, ReturnFrame, LoadWords, LayoutOf, Kept, SameBytes, Disjoint;
    CanonicalParts(c);
    CanonicalParts(c1);
    var e, e1 := EnterFrame(sys, c, m, n), EnterFrame(sys, c1, m1, n1);
    var base, size := Base(sys, c), LayoutOf(sys, c).size;
    LazyLeaves(sys, c, m, n);
    KeptIs(sys, c, e.cpu, e.mem, c1, m1);
    StillThere(sys, c, e.mem, m1);
    NestedEntry(sys, c, c1, m1, n1);
    NestedReturn(sys, c1, m1, n1, c2, m2);
    KeptIs(sys, c1, e1.cpu, e1.mem, c2, m2);
    var r1 := ReturnFrame(c2, m2, e1.cpu.r[14], true).cpu;
    SameTrans(e.mem, m1, e1.mem, base, size);
    SameTrans(e.mem, e1.mem, m2, base, size);
    OuterKept(sys, c, e.cpu, e.mem, c1, r1, m2);
    SameInside(e.mem, m2, base, size, base, FP_FRAME);
    SameTrans(m, e.mem, m2, base, FP_FRAME);
    AbandonedReservation(sys, c, m, n, r1, m2);
  }

  // ---------------------------------------------------------------- a register that is lost

  /** 512 writable bytes: Thumb vectors at the bottom, zero everywhere above them. */
  function ExampleMemory(): Memory {
    var bytes: map<int, Byte> := map a: int | 0 <= a < 0x200 :: (if a < 0x40 && a % 4 == 0 then 1 else 0);
    Memory(bytes, bytes.Keys)
  }

  /** A thread at address 0x80 on the main stack, with a floating-point context and S0 = 1. */
  function ExampleCore(): CpuState {
    CpuState(
      seq(16, (i: nat) => if i == 13 then 0x200 else if i == 15 then 0x80 else 0),
      Psr(false, false, false, false, false, true, 0, 0, false, 0, 0),
      0x200, 0, Control(false, false, true), true, false, None, None, 0, 0x80,
      Extra(0, 0, 0, [1] + seq(31, (i: nat) => 0), 0, false, 0))
  }

  const EXAMPLE_SYSTEM: SysView := SysView(true, 0, true)

  lemma ExampleLoads()
    ensures Writable(ExampleMemory(), 0, 0x200)
    ensures Load(ExampleMemory(), 56, Four) == Some(1) && Load(ExampleMemory(), 60, Four) == Some(1)
    ensures Load(ExampleMemory(), 408, Four) == Some(0)
  {
  }

  lemma WritablePart(m: Memory, a: int, n: nat, b: int, k: nat)
    requires Writable(m, a, n) && a <= b && b + k <= a + n
    ensures Writable(m, b, k) && Readable(m, b, k)
  {
  }

  lemma ExampleLayout()
    ensures Canonical(ExampleCore()) && LazyEntry(EXAMPLE_SYSTEM, ExampleCore())
    ensures LayoutOf(EXAMPLE_SYSTEM, ExampleCore()) == Layout(false, true, false, 0x200, 104)
  {
  }

  /** An entry succeeds when its frame is writable and its vector selects Thumb state. */
  lemma EntrySucceeds(sys: SysView, c: CpuState, m: Memory, n: nat)
    requires Canonical(c) && 0 < n < 256 && sys.vectorBase == 0
    requires LayoutOf(sys, c).oldSp >= LayoutOf(sys, c).size && Load(m, 4 * n, Four) == Some(1)
    requires Writable(m, Base(sys, c), LayoutOf(sys, c).size)
    ensures PsrOk(c.psr) && |c.extra.s| == 32 && EnterFrame(sys, c, m, n).Entry?
  {
    hide Stacked, Load, Writable, LayoutOf, Canonical, LoadWords, CoreFrame, FpFrame;
    CanonicalParts(c);
    StackedFrames(sys, c, m);
  }

  lemma ExampleEntry()
    ensures Canonical(ExampleCore()) && EnterFrame(EXAMPLE_SYSTEM, ExampleCore(), ExampleMemory(), 14).Entry?
  {
    hide EnterFrame, Canonical, ExampleCore, ExampleMemory, Load, Writable, LayoutOf;
    ExampleLoads();
    ExampleLayout();
    WritablePart(ExampleMemory(), 0, 0x200, 408, 104);
    EntrySucceeds(EXAMPLE_SYSTEM, ExampleCore(), ExampleMemory(), 14);
  }

  /** In the first handler: same mode bits, the main stack at 408, the vector table still there. */
  lemma ExampleHandler()
    ensures Canonical(ExampleCore()) && EnterFrame(EXAMPLE_SYSTEM, ExampleCore(), ExampleMemory(), 14).Entry?
    ensures
      var e := EnterFrame(EXAMPLE_SYSTEM, ExampleCore(), ExampleMemory(), 14);
      && Canonical(e.cpu) && InHandlerMode(e.cpu) && e.cpu.msp == 408 && e.cpu.control == ExampleCore().control
      && Load(e.mem, 60, Four) == Some(1) && Writable(e.mem, 0, 0x200)
  {
    hide EnterFrame, Canonical, ExampleCore, ExampleMemory, Load, Writable, LayoutOf, Stacked, LoadWords, CoreFrame,
      FpFrame;
    var sys, c, m := EXAMPLE_SYSTEM, ExampleCore(), ExampleMemory();
    ExampleLoads();
    ExampleLayout();
    ExampleEntry();
    EntrySp(sys, c, m, 14);
    StackedFrames(sys, c, m);
    var e := EnterFrame(sys, c, m, 14);
    WritablePart(m, 0, 0x200, 0, 408);
    SameApart(m, e.mem, 408, 104, 0, 408);
    SameInside(m, e.mem, 0, 408, 60, 4);
    SameLoad(m, e.mem, 60);
    SameShape(m, e.mem, 0, 0x200);
    EntryControl(sys, c, m, 14);
  }

  lemma SameShape(m: Memory, m1: Memory, a: int, n: nat)
    requires Writable(m, a, n) && m1.bytes.Keys == m.bytes.Keys && m1.writable == m.writable
    ensures Writable(m1, a, n)
  {
    assert forall x | a <= x < a + n :: x in m.bytes.Keys;
  }

  lemma EntryControl(sys: SysView, c: CpuState, m: Memory, n: nat)
    requires Canonical(c) && EnterFrame(sys, c, m, n).Entry?
    ensures EnterFrame(sys, c, m, n).cpu.control == c.control
  {
    hide Stacked, Vector, Token;
  }

  lemma HandlerLayout(c: CpuState)
    requires InHandlerMode(c) && c.msp == 408 && c.control == ExampleCore().control
    ensures LayoutOf(EXAMPLE_SYSTEM, c) == Layout(false, true, false, 408, 104)
  {
  }

  lemma ExampleNested()
    ensures Canonical(ExampleCore()) && EnterFrame(EXAMPLE_SYSTEM, ExampleCore(), ExampleMemory(), 14).Entry?
    ensures
      var e := EnterFrame(EXAMPLE_SYSTEM, ExampleCore(), ExampleMemory(), 14);
      && Canonical(e.cpu) && InHandlerMode(e.cpu)
      && LayoutOf(EXAMPLE_SYSTEM, e.cpu) == Layout(false, true, false, 408, 104)
      && EnterFrame(EXAMPLE_SYSTEM, e.cpu, e.mem, 15).Entry?
      && Writable(e.mem, 408, 104) && Readable(e.mem, 408, 104)
  {
    hide EnterFrame, Canonical, ExampleCore, ExampleMemory, Load, Writable, LayoutOf;
    ExampleHandler();
    CanonicalParts(ExampleCore());
    var e := EnterFrame(EXAMPLE_SYSTEM, ExampleCore(), ExampleMemory(), 14);
    HandlerLayout(e.cpu);
    WritablePart(e.mem, 0, 0x200, 408, 104);
    WritablePart(e.mem, 0, 0x200, 304, 104);
    EntrySucceeds(EXAMPLE_SYSTEM, e.cpu, e.mem, 15);
  }

  lemma ExampleWords()
    ensures LoadWords(ExampleMemory(), 408, 17).Some? ==> LoadWords(ExampleMemory(), 408, 17).value[0] == 0
  {
    hide LoadWords, Load, ExampleMemory;
    ExampleLoads();
    ConsLoad(ExampleMemory(), 408, 16);
  }

  /** Exception `n` from `c`, exception `n1` nested in its handler, and both returning at once. */
  function AtOnce(sys: SysView, c: CpuState, m: Memory, n: nat, n1: nat): Option<CpuState>
    requires Canonical(c)
  {
    match EnterFrame(sys, c, m, n)
    case EntryFault => None
    case Entry(c1, m1) =>
      EntrySp(sys, c, m, n);
      match EnterFrame(sys, c1, m1, n1)
      case EntryFault => None
      case Entry(c2, m2) =>
        EntrySp(sys, c1, m1, n1);
        match ReturnFrame(c2, m2, c2.r[14], true)
        case ExitFault(_) => None
        case Exit(r1) =>
          if |r1.extra.s| != 32 then None
          else
            match ReturnFrame(r1, m2, c1.r[14], true)
            case ExitFault(_) => None
            case Exit(r) => Some(r)
  }

  /** Returning at once meets the hypotheses of lazy nesting. */
  lemma AtOnceNests(sys: SysView, c: CpuState, m: Memory, n: nat, n1: nat)
    requires Canonical(c) && LazyEntry(sys, c) && EnterFrame(sys, c, m, n).Entry?
    requires var e := EnterFrame(sys, c, m, n); Canonical(e.cpu) && EnterFrame(sys, e.cpu, e.mem, n1).Entry?
    requires var e := EnterFrame(sys, c, m, n); Disjoint(sys, c, e.cpu)
    ensures
      var words := LoadWords(m, Base(sys, c), 17);
      var r := AtOnce(sys, c, m, n, n1);
      && r.Some? && |r.value.extra.s| == 32 && words.Some?
      && r.value.extra.s[..16] + [r.value.extra.fpscr] == words.value
  {
    hide EnterFrame, ReturnFrame, LoadWords, Canonical, LayoutOf, Kept, SameBytes, Readable, Writable, Disjoint;
    CanonicalParts(c);
    var e := EnterFrame(sys, c, m, n);
    CanonicalParts(e.cpu);
    EntrySp(sys, c, m, n);
    LazyLeaves(sys, c, m, n);
    var e1 := EnterFrame(sys, e.cpu, e.mem, n1);
    EntrySp(sys, e.cpu, e.mem, n1);
    FrameReadable(sys, c, m, e.mem);
    NestedEntry(sys, c, e.cpu, e.mem, n1);
    HandlerOf(e.cpu, n);
    HandlerOf(e1.cpu, n1);
    OuterKept(sys, c, e.cpu, e.mem, e.cpu, e.cpu, e.mem);
    FrameReadable(sys, e.cpu, e.mem, e1.mem);
    FrameReadable(sys, c, e.mem, e1.mem);
    OuterKept(sys, e.cpu, e1.cpu, e1.mem, e1.cpu, e1.cpu, e1.mem);
    LazyNesting(sys, c, m, n, e.cpu, e.mem, n1, e1.cpu, e1.mem);
  }

  lemma HandlerOf(c: CpuState, n: nat)
    requires c.psr.ipsr == n && n > 0
    ensures InHandlerMode(c)
  {
  }

  lemma FrameReadable(sys: SysView, c: CpuState, m: Memory, m1: Memory)
    requires Writable(m, Base(sys, c), LayoutOf(sys, c).size)
    requires m1.bytes.Keys == m.bytes.Keys && m1.writable == m.writable
    ensures Readable(m1, Base(sys, c), LayoutOf(sys, c).size) && Writable(m1, Base(sys, c), LayoutOf(sys, c).size)
    ensures SameBytes(m1, m1, Base(sys, c), LayoutOf(sys, c).size)
  {
    assert forall x | Base(sys, c) <= x < Base(sys, c) + LayoutOf(sys, c).size :: x in m.bytes.Keys;
  }

  /** The concrete loss: PendSV enters lazily, SysTick nests in it at once, both return at once. The
      thread that had 1 in S0 resumes with 0. */
  lemma LostRegister()
    ensures Canonical(ExampleCore()) && ExampleCore().extra.s[0] == 1
    ensures
      var r := AtOnce(EXAMPLE_SYSTEM, ExampleCore(), ExampleMemory(), 14, 15);
      r.Some? && |r.value.extra.s| == 32 && r.value.extra.s[0] == 0
  {
    hide EnterFrame, AtOnce, LoadWords, Canonical, ExampleMemory, LayoutOf;
    ExampleLayout();
    ExampleNested();
    AtOnceNests(EXAMPLE_SYSTEM, ExampleCore(), ExampleMemory(), 14, 15);
    ExampleWords();
    var r := AtOnce(EXAMPLE_SYSTEM, ExampleCore(), ExampleMemory(), 14, 15).value;
    assert r.extra.s[0] == (r.extra.s[..16] + [r.extra.fpscr])[0];
  }
}
