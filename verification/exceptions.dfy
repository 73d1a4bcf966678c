/** Nested exceptions over whole runs, and the exception controller object, after
    src/cortexm/exceptions.cpp. */
module Exceptions {
  import opened Words
  import opened Cpu
  import opened Stack
  import opened Nvic
  import Control = Nvic
  import opened Preemption
  import opened Frames

  // ---------------------------------------------------------------- well-nested runs

  /** What happens in a handler: some code that leads to a given core and memory, or an exception
      with its whole handler, and then the rest. */
  datatype Run =
    | End
    | Code(cpu: CpuState, mem: Memory, rest: Run)
    | Taken(n: nat, handler: Run, rest: Run)

  /** The bytes of one stacked frame. */
  datatype Range = Range(begin: int, size: nat)

  predicate Apart(r: Range, begin: int, end: int) {
    r.begin + r.size <= begin || end <= r.begin
  }

  /** No frame of `kept` meets the main stack below `msp`. */
  predicate Clear(kept: seq<Range>, floor: int, msp: Word) {
    forall i | 0 <= i < |kept| :: Apart(kept[i], floor, msp)
  }

  predicate SameKept(m: Memory, m1: Memory, kept: seq<Range>) {
    && m1.writable == m.writable && m1.bytes.Keys == m.bytes.Keys
    && forall i | 0 <= i < |kept| :: SameBytes(m, m1, kept[i].begin, kept[i].size)
  }

  predicate Present(m: Memory, kept: seq<Range>) {
    forall i | 0 <= i < |kept| :: SameBytes(m, m, kept[i].begin, kept[i].size)
  }

  /** A core in a handler, or in the code an exception interrupts. */
  predicate Between(c: CpuState, kept: seq<Range>, floor: int) {
    Canonical(c) && !c.extra.lazyActive && Clear(kept, floor, c.msp)
  }

  /** Code that keeps the stacked frames, the process stack pointer and the mode. */
  predicate Keeps(c: CpuState, m: Memory, c1: CpuState, m1: Memory, kept: seq<Range>, floor: int) {
    SameKept(m, m1, kept) && Between(c1, kept, floor) && c1.psr.ipsr == c.psr.ipsr && c1.psp == c.psp
  }

  /** The frame an entry from `c` writes. */
  function FrameOf(sys: SysView, c: CpuState): Range {
    var l := LayoutOf(sys, c);
    Range(l.oldSp - l.size, l.size)
  }

  /** The frame fits its stack and meets no other frame. */
  predicate Fits(sys: SysView, c: CpuState, kept: seq<Range>, floor: int) {
    var l := LayoutOf(sys, c);
    if l.psp then
      && Apart(FrameOf(sys, c), floor, c.msp)
      && forall i | 0 <= i < |kept| :: Apart(kept[i], l.oldSp - l.size, l.oldSp)
    else floor <= l.oldSp - l.size
  }

  /** Where a run gets: the core and memory it reaches, a return that faulted, or nowhere because
      code broke the rules, an entry faulted or a frame did not fit. */
  datatype Reach = Broken | ReturnFault | Reached(cpu: CpuState, mem: Memory)

  /** The run from `c`, while frames and stack pointers are respected. `kept` are the frames
      outstanding below, `floor` the end of the main stack. */
  function Exec(sys: SysView, floor: int, kept: seq<Range>, run: Run, c: CpuState, m: Memory): Reach
    decreases run, 0
  {
    match run
    case End => Reached(c, m)
    case Code(c1, m1, rest) =>
      if Keeps(c, m, c1, m1, kept, floor) then Exec(sys, floor, kept, rest, c1, m1) else Broken
    case Taken(n, handler, rest) =>
      match TakenWhole(sys, floor, kept, n, handler, c, m)
      case Broken => Broken
      case ReturnFault => ReturnFault
      case Reached(c3, m3) => Exec(sys, floor, kept, rest, c3, m3)
  }

  /** The handler of an exception taken from `c`, up to its return. */
  function HandlerRun(
    sys: SysView, floor: int, kept: seq<Range>, n: nat, handler: Run, c: CpuState, m: Memory): Reach
    decreases handler, 1
  {
    if !Between(c, kept, floor) || !Fits(sys, c, kept, floor) then Broken
    else
      match EnterFrame(sys, c, m, n)
      case EntryFault => Broken
      case Entry(c1, m1) => Exec(sys, floor, kept + [FrameOf(sys, c)], handler, c1, m1)
  }

  /** One exception from entry to return. The handler leaves the main stack pointer where it found
      it and returns with the LR value it was given. */
  function TakenWhole(
    sys: SysView, floor: int, kept: seq<Range>, n: nat, handler: Run, c: CpuState, m: Memory): Reach
    decreases handler, 2
  {
    match HandlerRun(sys, floor, kept, n, handler, c, m)
    case Broken => Broken
    case ReturnFault => ReturnFault
    case Reached(c2, m2) =>
      var c1 := EnterFrame(sys, c, m, n).cpu;
      if c2.msp != c1.msp || |c2.extra.s| != 32 then Broken
      else
        match ReturnFrame(c2, m2, c1.r[14], true)
        case ExitFault(_) => ReturnFault
        case Exit(c3) => Reached(c3, m2)
  }

  lemma SameKeptTrans(m: Memory, m1: Memory, m2: Memory, kept: seq<Range>)
    requires SameKept(m, m1, kept) && SameKept(m1, m2, kept)
    ensures SameKept(m, m2, kept)
  {
  }

  /** An entry writes only its own frame. */
  lemma EntryKeeps(sys: SysView, c: CpuState, m: Memory, n: nat, kept: seq<Range>, floor: int)
    requires Between(c, kept, floor) && Fits(sys, c, kept, floor) && Present(m, kept) && !sys.lazyFp
    requires EnterFrame(sys, c, m, n).Entry?
    ensures
      var e := EnterFrame(sys, c, m, n);
      && SameKept(m, e.mem, kept) && Between(e.cpu, kept + [FrameOf(sys, c)], floor)
         && Present(e.mem, kept + [FrameOf(sys, c)])
  {
    hide EnterFrame, Stacked, Canonical, StoreWords, LoadWords, CoreFrame, FpFrame;
    CanonicalParts(c);
    var l, e := LayoutOf(sys, c), EnterFrame(sys, c, m, n);
    EntrySp(sys, c, m, n);
    StackedFrames(sys, c, m);
    forall i | 0 <= i < |kept|
      ensures Apart(kept[i], l.oldSp - l.size, l.oldSp) && SameBytes(m, e.mem, kept[i].begin, kept[i].size)
    {
      assert SameBytes(m, m, kept[i].begin, kept[i].size);
      assert Apart(kept[i], floor, c.msp);
      OutsideSame(m, e.mem, l.oldSp - l.size, l.size, kept[i]);
    }
  }

  lemma OutsideSame(m: Memory, m1: Memory, a: int, n: nat, r: Range)
    requires OnlyIn(m, m1, a, n) && SameBytes(m, m, r.begin, r.size) && Apart(r, a, a + n)
    ensures SameBytes(m, m1, r.begin, r.size)
  {
    assert forall x | x in m.bytes.Keys :: x in m1.bytes.Keys;
  }

  lemma KeepsTrans(
    c: CpuState, m: Memory, c1: CpuState, m1: Memory, c2: CpuState, m2: Memory, kept: seq<Range>, floor: int)
    requires Keeps(c, m, c1, m1, kept, floor) && Keeps(c1, m1, c2, m2, kept, floor)
    ensures Keeps(c, m, c2, m2, kept, floor)
  {
    hide Between;
    SameKeptTrans(m, m1, m2, kept);
  }

  lemma SameIsPresent(m: Memory, m1: Memory, kept: seq<Range>)
    requires SameKept(m, m1, kept)
    ensures Present(m1, kept)
  {
    forall i | 0 <= i < |kept|
      ensures SameBytes(m1, m1, kept[i].begin, kept[i].size)
    {
      assert SameBytes(m, m1, kept[i].begin, kept[i].size);
    }
  }

  lemma KeepsSelf(c: CpuState, m: Memory, kept: seq<Range>, floor: int)
    requires Between(c, kept, floor) && Present(m, kept)
    ensures Keeps(c, m, c, m, kept, floor)
  {
  }

  /** Where the handler of one exception stands when it returns. */
  predicate HandlerEnds(
    sys: SysView, c: CpuState, c1: CpuState, m1: Memory, c2: CpuState, m2: Memory, kept: seq<Range>, floor: int) {
    && Keeps(c1, m1, c2, m2, kept + [FrameOf(sys, c)], floor) && c2.msp == c1.msp
  }

  lemma LastKept(m1: Memory, m2: Memory, kept: seq<Range>, r: Range)
    requires SameKept(m1, m2, kept + [r])
    ensures SameBytes(m1, m2, r.begin, r.size) && SameKept(m1, m2, kept)
  {
    var all := kept + [r];
    assert all[|kept|] == r;
    forall i | 0 <= i < |kept|
      ensures SameBytes(m1, m2, kept[i].begin, kept[i].size)
    {
      assert all[i] == kept[i];
    }
  }

  /** A handler that kept its frames satisfies the round trip's conditions. */
  lemma FramesSurvive(
    sys: SysView, c: CpuState, m: Memory, n: nat, c2: CpuState, m2: Memory, kept: seq<Range>, floor: int)
    requires Canonical(c) && EnterFrame(sys, c, m, n).Entry? && !sys.lazyFp
    requires var e := EnterFrame(sys, c, m, n); HandlerEnds(sys, c, e.cpu, e.mem, c2, m2, kept, floor)
    ensures var e := EnterFrame(sys, c, m, n); Kept(sys, c, e.cpu, e.mem, c2, m2) && FpKept(sys, c, c2, m2)
    ensures InHandlerMode(c2) && |c2.extra.s| == 32 && SameKept(EnterFrame(sys, c, m, n).mem, m2, kept)
  {
    hide EnterFrame, Stacked, Canonical, LoadWords, CoreFrame, FpFrame, SameKept, Clear;
    CanonicalParts(c);
    CanonicalParts(c2);
    var l, e := LayoutOf(sys, c), EnterFrame(sys, c, m, n);
    EntrySp(sys, c, m, n);
    StackedFrames(sys, c, m);
    LastKept(e.mem, m2, kept, FrameOf(sys, c));
    assert m2.writable == e.mem.writable && m2.bytes.Keys == e.mem.bytes.Keys by { KeptShape(e.mem, m2, kept); }
    PartSame(e.mem, m2, l.oldSp - l.size, l.size, CoreOffset(l), 32);
    if l.extended {
      PartSame(e.mem, m2, l.oldSp - l.size, l.size, 0, 72);
      SameWords(e.mem, m2, l.oldSp - l.size, 18);
    }
  }

  lemma KeptShape(m: Memory, m1: Memory, kept: seq<Range>)
    requires SameKept(m, m1, kept)
    ensures m1.writable == m.writable && m1.bytes.Keys == m.bytes.Keys
  {
  }

  lemma PartSame(m: Memory, m1: Memory, a: int, n: nat, offset: nat, k: nat)
    requires SameBytes(m, m1, a, n) && offset + k <= n
    ensures SameBytes(m, m1, a + offset, k)
  {
  }

  /** A resumed core is again between instructions, with its stack pointers back. */
  lemma ResumedKeeps(
    sys: SysView, c: CpuState, m: Memory, c1: CpuState, m1: Memory, c2: CpuState, m2: Memory, c3: CpuState,
    kept: seq<Range>, floor: int)
    requires Between(c, kept, floor) && SameKept(m, m1, kept) && SameKept(m1, m2, kept)
    requires |c2.extra.s| == 32 && !c2.extra.lazyActive && c2.msp == c1.msp && c2.psp == c1.psp
    requires if LayoutOf(sys, c).psp then c1.msp == c.msp else c1.psp == c.psp
    requires Resumes(sys, c, c2, c3) && FpResumes(sys, c, c2, c3)
    ensures Keeps(c, m, c3, m2, kept, floor) && c3.msp == c.msp
  {
    hide SameKept;
    SameKeptTrans(m, m1, m2, kept);
    assert c3.msp == c.msp && c3.psp == c.psp;
  }

  /** `c3` resumes `c` after a handler that ended in `c2` with no reservation pending: the integer
      core, and for an extended frame S0-S15 and FPSCR, are those of `c`. */
  predicate ResumesWhole(sys: SysView, c: CpuState, c2: CpuState, c3: CpuState) {
    && |c.extra.s| == |c2.extra.s| == |c3.extra.s| == 32 && !c2.extra.lazyActive && !c3.extra.lazyActive
    && Resumes(sys, c, c2, c3) && FpResumes(sys, c, c2, c3)
    && (c.control.fpca ==> c3.extra.s[..16] == c.extra.s[..16] && c3.extra.fpscr == c.extra.fpscr)
  }

  lemma WholeFrom(sys: SysView, c: CpuState, c2: CpuState, c3: CpuState)
    requires |c.extra.s| == |c2.extra.s| == 32 && !c2.extra.lazyActive
    requires Resumes(sys, c, c2, c3) && FpResumes(sys, c, c2, c3)
    ensures ResumesWhole(sys, c, c2, c3)
  {
    hide Resumes;
    if c.control.fpca {
      assert (c.extra.s[..16] + c2.extra.s[16..])[..16] == c.extra.s[..16];
    }
  }

  /** Nested round trip: in every well-nested run whose handlers keep the stacked frames and their
      stack pointers, no return faults, each return resumes exactly the code its entry interrupted,
      floating-point registers of an extended frame included, and the whole exception keeps every
      frame stacked before it. */
  lemma {:induction false} NestedRoundTrip(
    sys: SysView, floor: int, kept: seq<Range>, n: nat, handler: Run, c: CpuState, m: Memory)
    requires !sys.lazyFp && Present(m, kept)
    ensures
      match TakenWhole(sys, floor, kept, n, handler, c, m)
      case Broken => true
      case ReturnFault => false
      case Reached(c3, m3) =>
        var h := HandlerRun(sys, floor, kept, n, handler, c, m);
        && h.Reached? && ResumesWhole(sys, c, h.cpu, c3)
        && Keeps(c, m, c3, m3, kept, floor) && c3.msp == c.msp
    decreases handler, 1
  {
    hide EnterFrame, Canonical, ReturnFrame, Resumes, FpResumes, Keeps, SameKept, Clear, Present;
    if Between(c, kept, floor) && Fits(sys, c, kept, floor) {
      CanonicalParts(c);
      var e := EnterFrame(sys, c, m, n);
      if e.Entry? {
        var inner := kept + [FrameOf(sys, c)];
        EntryKeeps(sys, c, m, n, kept, floor);
        EntrySp(sys, c, m, n);
        ExecKeeps(sys, floor, inner, handler, e.cpu, e.mem);
        var h := Exec(sys, floor, inner, handler, e.cpu, e.mem);
        assert h == HandlerRun(sys, floor, kept, n, handler, c, m);
        if h.Reached? && h.cpu.msp == e.cpu.msp {
          KeepsParts(e.cpu, e.mem, h.cpu, h.mem, inner, floor);
          ReturnWhole(sys, floor, kept, n, c, m, h.cpu, h.mem);
        }
      } else {
        assert HandlerRun(sys, floor, kept, n, handler, c, m) == Broken;
      }
    } else {
      assert HandlerRun(sys, floor, kept, n, handler, c, m) == Broken;
    }
  }

  /** The return of a handler that kept its frames. */
  lemma ReturnWhole(
    sys: SysView, floor: int, kept: seq<Range>, n: nat, c: CpuState, m: Memory, c2: CpuState, m2: Memory)
    requires !sys.lazyFp && Between(c, kept, floor) && Fits(sys, c, kept, floor) && Present(m, kept)
    requires Canonical(c) && EnterFrame(sys, c, m, n).Entry?
    requires var e := EnterFrame(sys, c, m, n); HandlerEnds(sys, c, e.cpu, e.mem, c2, m2, kept, floor)
    requires !c2.extra.lazyActive && |c2.extra.s| == 32
    ensures
      var r := ReturnFrame(c2, m2, EnterFrame(sys, c, m, n).cpu.r[14], true);
      && r.Exit? && ResumesWhole(sys, c, c2, r.cpu)
      && Keeps(c, m, r.cpu, m2, kept, floor) && r.cpu.msp == c.msp
  {
    hide EnterFrame, Canonical, ReturnFrame, Resumes, FpResumes, Keeps, SameKept, Clear, Present, Fits;
    CanonicalParts(c);
    var e := EnterFrame(sys, c, m, n);
    EntryKeeps(sys, c, m, n, kept, floor);
    EntrySp(sys, c, m, n);
    FramesSurvive(sys, c, m, n, c2, m2, kept, floor);
    RoundTrip(sys, c, m, n, c2, m2);
    var c3 := ReturnFrame(c2, m2, e.cpu.r[14], true).cpu;
    KeepsParts(e.cpu, e.mem, c2, m2, kept + [FrameOf(sys, c)], floor);
    ResumedKeeps(sys, c, m, e.cpu, e.mem, c2, m2, c3, kept, floor);
    WholeFrom(sys, c, c2, c3);
  }

  lemma KeepsParts(c: CpuState, m: Memory, c1: CpuState, m1: Memory, kept: seq<Range>, floor: int)
    requires Keeps(c, m, c1, m1, kept, floor)
    ensures c1.psp == c.psp && !c1.extra.lazyActive && Between(c1, kept, floor) && SameKept(m, m1, kept)
    ensures |c1.extra.s| == 32
  {
  }

  /** Any run of handler code and nested exceptions keeps frames, mode and process stack pointer, and
      none of its returns faults. */
  lemma {:induction false} ExecKeeps(sys: SysView, floor: int, kept: seq<Range>, run: Run, c: CpuState, m: Memory)
    requires !sys.lazyFp && Between(c, kept, floor) && Present(m, kept)
    ensures
      match Exec(sys, floor, kept, run, c, m)
      case Broken => true
      case ReturnFault => false
      case Reached(c1, m1) => Keeps(c, m, c1, m1, kept, floor)
    decreases run, 0
  {
    hide EnterFrame, Between, ReturnFrame, Keeps, SameKept, Present, TakenWhole, HandlerRun, ResumesWhole;
    match run
    case End => KeepsSelf(c, m, kept, floor);
    case Code(c1, m1, rest) =>
      if Keeps(c, m, c1, m1, kept, floor) { ExecOn(sys, floor, kept, rest, c, m, c1, m1); }
    case Taken(n, handler, rest) =>
      NestedRoundTrip(sys, floor, kept, n, handler, c, m);
      var taken := TakenWhole(sys, floor, kept, n, handler, c, m);
      if taken.Reached? { ExecOn(sys, floor, kept, rest, c, m, taken.cpu, taken.mem); }
  }

  /** The rest of a run, from a point that kept everything so far. */
  lemma {:induction false} ExecOn(
    sys: SysView, floor: int, kept: seq<Range>, rest: Run, c: CpuState, m: Memory, c1: CpuState, m1: Memory)
    requires !sys.lazyFp && Keeps(c, m, c1, m1, kept, floor)
    ensures
      match Exec(sys, floor, kept, rest, c1, m1)
      case Broken => true
      case ReturnFault => false
      case Reached(c2, m2) => Keeps(c, m, c2, m2, kept, floor)
    decreases rest, 1
  {
    hide EnterFrame, Between, ReturnFrame, Keeps, SameKept, Present, Exec;
    KeepsParts(c, m, c1, m1, kept, floor);
    SameIsPresent(m, m1, kept);
    ExecKeeps(sys, floor, kept, rest, c1, m1);
    var r := Exec(sys, floor, kept, rest, c1, m1);
    if r.Reached? { KeepsTrans(c, m, c1, m1, r.cpu, r.mem, kept, floor); }
  }

  // ---------------------------------------------------------------- the controller object

  /** Consecutive word stores, stopping at a fault. */
  method WriteWords(m: Memory, a: int, words: seq<Word>) returns (r: Option<Memory>)
    ensures r == StoreWords(m, a, words)
  {
    hide Store;
    var mem := m;
    var i := 0;
    while i < |words|
      invariant 0 <= i <= |words|
      invariant StoreWords(m, a, words) == StoreWords(mem, a + 4 * i, words[i..])
    {
      var stored := Store(mem, a + 4 * i, Four, words[i]);
      if stored == None { return None; }
      assert words[i..][1..] == words[i + 1..];
      mem := stored.value;
      i := i + 1;
    }
    return Some(mem);
  }

  /** Consecutive word loads, stopping at a fault. */
  method ReadWords(m: Memory, a: int, n: nat) returns (r: Option<seq<Word>>)
    ensures r == LoadWords(m, a, n)
  {
    hide Load;
    var words: seq<Word> := [];
    var i := 0;
    LoadsNone(m, a, n, words);
    while i < n
      invariant 0 <= i <= n && |words| == i
      invariant LoadWords(m, a, n) ==
                match LoadWords(m, a + 4 * i, n - i)
                case None => None
                case Some(rest) => Some(words + rest)
    {
      var loaded := Load(m, a + 4 * i, Four);
      if loaded == None { return None; }
      LoadsOne(m, a + 4 * i, n - i, words, loaded.value);
      words := words + [loaded.value];
      i := i + 1;
    }
    assert words + [] == words;
    return Some(words);
  }

  lemma LoadsNone(m: Memory, a: int, n: nat, words: seq<Word>)
    requires words == []
    ensures LoadWords(m, a, n).Some? ==> words + LoadWords(m, a, n).value == LoadWords(m, a, n).value
  {
    hide Load;
  }

  lemma LoadsOne(m: Memory, a: int, n: nat, words: seq<Word>, v: Word)
    requires n > 0 && Load(m, a, Four) == Some(v)
    ensures
      var rest, tail := LoadWords(m, a, n), LoadWords(m, a + 4, n - 1);
      && rest.Some? == tail.Some?
      && (rest.Some? ==> words + rest.value == (words + [v]) + tail.value)
  {
    hide Load;
  }

  /** The outcome of an entry on core, memory, interrupt controller and active stack. */
  datatype UnitState = UnitState(cpu: CpuState, mem: Memory, unit: Unit)

  function EnterUnit(sys: SysView, s: UnitState, n: nat): Option<UnitState>
    requires Canonical(s.cpu)
  {
    match EnterFrame(sys, s.cpu, s.mem, n)
    case EntryFault => None
    case Entry(c1, m1) => Some(UnitState(c1, m1, Unit(Control.Enter(s.unit.nvic, n), s.unit.stack + [n])))
  }

  function ReturnUnit(s: UnitState, token: Word): (bool, UnitState)
    requires Canonical(s.cpu)
  {
    match ReturnFrame(s.cpu, s.mem, token, s.unit.stack != [])
    case ExitFault(c1) => (false, s.(cpu := c1))
    case Exit(c1) => (true, UnitState(c1, s.mem, Returned(s.unit)))
  }

  class ExceptionController {
    var cpu: CpuState
    var mem: Memory
    var nvic: Nvic
    var activeStack: seq<nat>
    var sys: SysView

    function State(): UnitState
      reads this
    {
      UnitState(cpu, mem, Unit(nvic, activeStack))
    }

    /** enter: a fault changes nothing. */
    method Enter(n: nat) returns (ok: bool)
      requires Canonical(cpu)
      modifies this
      ensures sys == old(sys)
      ensures ok == EnterUnit(sys, old(State()), n).Some?
      ensures State() == if ok then EnterUnit(sys, old(State()), n).value else old(State())
    {
      hide Canonical, StoreWords, LoadWords, Vector, CoreFrame, FpFrame, Writable, LayoutOf, EnteredCore, Control.Enter;
      CanonicalParts(cpu);
      if n == 0 || n >= 256 { return false; }
      var l := LayoutOf(sys, cpu);
      if l.oldSp < l.size { return false; }
      var newSp := l.oldSp - l.size;
      if !Writable(mem, newSp, l.size) { return false; }
      var handler := Vector(sys, mem, n);
      if handler == None { return false; }
      var stacked := Some(mem);
      if l.extended && !LazyEntry(sys, cpu) { stacked := WriteWords(mem, newSp, FpFrame(cpu)); }
      if stacked == None { return false; }
      stacked := WriteWords(stacked.value, newSp + CoreOffset(l), CoreFrame(cpu, l.padding));
      if stacked == None { return false; }
      mem := stacked.value;
      cpu := EnteredCore(sys, cpu, n, handler.value);
      activeStack := activeStack + [n];
      nvic := Control.Enter(nvic, n);
      ok := true;
    }

    /** enterPending: the least eligible exception, if any, is entered. */
    method EnterPending() returns (entered: Option<bool>)
      requires Canonical(cpu) && NoLostInterrupt(nvic)
      modifies this
      ensures sys == old(sys)
      ensures
        var masks := Masks(old(cpu).extra.primask, old(cpu).extra.basepri, old(cpu).extra.faultmask);
        match entered
        case None => State() == old(State()) && exists n: nat :: BestOf(old(nvic), masks, (k: nat) => true, Some(n))
        case Some(false) => State() == old(State()) && BestOf(old(nvic), masks, (k: nat) => true, None)
        case Some(true) =>
          exists n: nat ::
            BestOf(old(nvic), masks, (k: nat) => true, Some(n)) && EnterUnit(sys, old(State()), n) == Some(State())
    {
      hide Canonical, EnterUnit, BestOf;
      var masks := Masks(cpu.extra.primask, cpu.extra.basepri, cpu.extra.faultmask);
      var pending := NextPending(nvic, masks);
      if pending == None { return Some(false); }
      var ok := Enter(pending.value);
      if !ok { return None; }
      entered := Some(true);
    }

    /** exceptionReturn: unstack, leave the top exception, resume the one below. */
    method ExceptionReturn(token: Word) returns (ok: bool)
      requires Canonical(cpu)
      modifies this
      ensures sys == old(sys) && (ok, State()) == ReturnUnit(old(State()), token)
    {
      hide Canonical, LoadWords, Writable, Restored, IsExceptionReturn, TokenPsp, TokenExtended, Returned, Unpack;
      CanonicalParts(cpu);
      if !IsExceptionReturn(token) { return false; }
      if activeStack == [] || !InHandlerMode(cpu) { return false; }
      var offset := if TokenExtended(token) then FP_FRAME else 0;
      var sp := if TokenPsp(token) then cpu.psp else cpu.msp;
      if !Writable(mem, sp, offset + 32) { return false; }
      if TokenExtended(token) && !cpu.extra.lazyActive {
        var words := ReadWords(mem, sp, 17);
        if words.Some? { cpu := UnstackedFp(cpu, words.value); }
      }
      cpu := cpu.(extra := cpu.extra.(lazyActive := false));
      var frame := ReadWords(mem, sp + offset, 8);
      if frame == None || !Unpack(frame.value[7]).t { return false; }
      PopActive();
      cpu := Restored(cpu, token, sp, frame.value);
      ok := true;
    }

    /** Leave the top exception and resume the one it preempted. */
    method PopActive()
      requires activeStack != []
      modifies this`nvic, this`activeStack
      ensures Unit(nvic, activeStack) == Returned(old(Unit(nvic, activeStack)))
    {
      hide Leave, Resume;
      var leaving := activeStack[|activeStack| - 1];
      activeStack := activeStack[..|activeStack| - 1];
      nvic := Leave(nvic, leaving);
      if activeStack != [] { nvic := Resume(nvic, activeStack[|activeStack| - 1]); }
    }
  }
}
