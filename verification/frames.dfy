/** Exception frames: the packed xPSR word, stacking and unstacking, after src/cortexm/exceptions.cpp.
    Sections B1.5.6 to B1.5.8 of the ARMv7-M manual describe entry, alignment and return. */
module Frames {
  import opened Words
  import opened Arithmetic
  import opened Cpu
  import opened Stack

  // ---------------------------------------------------------------- the xPSR word

  /** Field ranges of a real xPSR. */
  predicate PsrOk(p: Psr) {
    0 <= p.ipsr < 512 && 0 <= p.ge < 16 && 0 <= p.reserved < 16
  }

  function Bit(b: bool): nat {
    if b then 1 else 0
  }

  /** Bits 31-27: N, Z, C, V, Q from the top. */
  function FlagBits(p: Psr): (r: nat)
    ensures r < 32
  {
    Bit(p.q) + 2 * (Bit(p.v) + 2 * (Bit(p.c) + 2 * (Bit(p.z) + 2 * Bit(p.n))))
  }

  /** Bits 15-0: exception number, bit 9 and IT[7:2]. */
  function LowBits(p: Psr): (r: nat)
    requires PsrOk(p)
    ensures r < 0x1_0000
  {
    p.ipsr + 512 * (Bit(p.stackAlign) + 2 * (p.it / 4))
  }

  /** Bits 31-16: GE, reserved, T, IT[1:0] and the flags. */
  function HighBits(p: Psr): (r: nat)
    requires PsrOk(p)
    ensures r < 0x1_0000
  {
    p.ge + 16 * (p.reserved + 16 * (Bit(p.t) + 2 * (p.it % 4 + 4 * FlagBits(p))))
  }

  function Pack(p: Psr): Word
    requires PsrOk(p)
  {
    LowBits(p) + 0x1_0000 * HighBits(p)
  }

  function Unpack(w: Word): (p: Psr)
    ensures PsrOk(p)
  {
    var low, high := w % 0x1_0000, w / 0x1_0000;
    var flags := high / 2048 % 32;
    Psr(flags / 16 % 2 == 1, flags / 8 % 2 == 1, flags / 4 % 2 == 1, flags / 2 % 2 == 1, flags % 2 == 1,
        high / 256 % 2 == 1, low / 1024 % 64 * 4 + high / 512 % 4, high % 16, low / 512 % 2 == 1, low % 512,
          high / 16 % 16)
  }

  lemma FlagsRoundTrip(p: Psr)
    ensures
      var f := FlagBits(p);
      && (f % 2 == 1) == p.q && (f / 2 % 2 == 1) == p.v && (f / 4 % 2 == 1) == p.c && (f / 8 % 2 == 1) == p.z
      && (f / 16 % 2 == 1) == p.n
  {
  }

  lemma LowRoundTrip(ipsr: nat, align: nat, it: nat)
    requires ipsr < 512 && align < 2 && it < 64
    ensures
      var low := ipsr + 512 * (align + 2 * it);
      low % 512 == ipsr && low / 512 % 2 == align && low / 1024 % 64 == it
  {
  }

  lemma HighRoundTrip(ge: nat, reserved: nat, t: nat, it: nat, flags: nat)
    requires ge < 16 && reserved < 16 && t < 2 && it < 4 && flags < 32
    ensures
      var high := ge + 16 * (reserved + 16 * (t + 2 * (it + 4 * flags)));
      && high % 16 == ge && high / 16 % 16 == reserved && high / 256 % 2 == t && high / 512 % 4 == it
      && high / 2048 % 32 == flags
  {
  }

  /** Packing loses nothing. */
  lemma PsrRoundTrip(p: Psr)
    requires PsrOk(p)
    ensures Unpack(Pack(p)) == p
  {
    hide FlagBits;
    var low, high := LowBits(p), HighBits(p);
    assert Pack(p) % 0x1_0000 == low && Pack(p) / 0x1_0000 == high by { Digit(low, 0x1_0000, high); }
    LowRoundTrip(p.ipsr, Bit(p.stackAlign), p.it / 4);
    HighRoundTrip(p.ge, p.reserved, Bit(p.t), p.it % 4, FlagBits(p));
    FlagsRoundTrip(p);
  }

  // ---------------------------------------------------------------- words in memory

  /** `m1` is `m` with at most the bytes from `a` to `a + n` changed. */
  predicate OnlyIn(m: Memory, m1: Memory, a: int, n: nat) {
    && m1.writable == m.writable && m1.bytes.Keys == m.bytes.Keys
    && forall x | x in m.bytes && !(a <= x < a + n) :: m1.bytes[x] == m.bytes[x]
  }

  /** The bytes from `a` to `a + n` are there and equal. */
  predicate SameBytes(m: Memory, m1: Memory, a: int, n: nat) {
    forall x | a <= x < a + n :: x in m.bytes && x in m1.bytes && m1.bytes[x] == m.bytes[x]
  }

  lemma StoredWord(m: Memory, a: int, v: Word)
    requires Writable(m, a, 4)
    ensures Store(m, a, Four, v).Some?
    ensures var m1 := Store(m, a, Four, v).value; Load(m1, a, Four) == Some(v) && OnlyIn(m, m1, a, 4)
  {
    FourBytes(v);
  }

  lemma {:induction false} StoredWords(m: Memory, a: int, words: seq<Word>)
    requires Writable(m, a, 4 * |words|)
    ensures StoreWords(m, a, words).Some?
    ensures
      var m1 := StoreWords(m, a, words).value;
      LoadWords(m1, a, |words|) == Some(words) && OnlyIn(m, m1, a, 4 * |words|)
    decreases |words|
  {
    hide Store, Load;
    if words != [] {
      assert Writable(m, a, 4);
      StoredWord(m, a, words[0]);
      var m1 := Store(m, a, Four, words[0]).value;
      assert Writable(m1, a + 4, 4 * |words[1..]|);
      StoredWords(m1, a + 4, words[1..]);
      var m2 := StoreWords(m1, a + 4, words[1..]).value;
      assert SameBytes(m1, m2, a, 4);
      SameLoad(m1, m2, a);
      assert [words[0]] + words[1..] == words;
    }
  }

  lemma SameLoad(m: Memory, m1: Memory, a: int)
    requires SameBytes(m, m1, a, 4)
    ensures Load(m1, a, Four) == Load(m, a, Four)
  {
  }

  lemma {:induction false} SameWords(m: Memory, m1: Memory, a: int, n: nat)
    requires SameBytes(m, m1, a, 4 * n)
    ensures LoadWords(m1, a, n) == LoadWords(m, a, n)
    decreases n
  {
    hide Load;
    if n > 0 {
      assert SameBytes(m, m1, a, 4);
      SameLoad(m, m1, a);
      SameWords(m, m1, a + 4, n - 1);
    }
  }

  // ---------------------------------------------------------------- entry

  /** What the exception unit reads from system control: CCR.STKALIGN, VTOR and FPCCR.LSPEN. */
  datatype SysView = SysView(alignStack: bool, vectorBase: Word, lazyFp: bool)

  /** A core between instructions: Thumb, aligned PC, IT mirrored in xPSR, r13 the active SP. */
  predicate Canonical(c: CpuState) {
    && PsrOk(c.psr) && c.psr.t && !c.psr.stackAlign && c.psr.it == c.itState && c.thumb && c.r[15] % 2 == 0
    && c.r[13] == ActiveSp(c) && |c.extra.s| == 32
  }

  const FP_FRAME: nat := 72

  /** How an entry from `c` stacks. */
  datatype Layout = Layout(psp: bool, extended: bool, padding: bool, oldSp: Word, size: nat)

  function LayoutOf(sys: SysView, c: CpuState): Layout {
    var psp := !InHandlerMode(c) && c.control.spsel;
    var oldSp := if psp then c.psp else c.msp;
    var padding := sys.alignStack && oldSp % 8 != 0;
    Layout(psp, c.control.fpca, padding, oldSp,
           32 + (if c.control.fpca then FP_FRAME else 0) + if padding then 4 else 0)
  }

  function CoreOffset(l: Layout): nat {
    if l.extended then FP_FRAME else 0
  }

  function CoreFrame(c: CpuState, padding: bool): (r: seq<Word>)
    requires PsrOk(c.psr)
    ensures |r| == 8
  {
    [c.r[0], c.r[1], c.r[2], c.r[3], c.r[12], c.r[14], SetBit0(c.r[15]),
     Pack(c.psr.(t := true, stackAlign := c.psr.stackAlign || padding))]
  }

  function FpFrame(c: CpuState): (r: seq<Word>)
    requires |c.extra.s| == 32
    ensures |r| == 18
  {
    c.extra.s[..16] + [c.extra.fpscr, 0]
  }

  function Token(fromHandler: bool, psp: bool, extended: bool): Word {
    if extended then if fromHandler then 0xffff_ffe1 else if psp then 0xffff_ffed else 0xffff_ffe9
    else if fromHandler then 0xffff_fff1 else if psp then 0xffff_fffd else 0xffff_fff9
  }

  function WithBank(c: CpuState, psp: bool, value: Word): CpuState {
    if psp then c.(psp := value) else c.(msp := value)
  }

  /** The handler address, if the vector table yields a Thumb one. */
  function Vector(sys: SysView, m: Memory, n: nat): Option<Word> {
    var address := sys.vectorBase + 4 * n;
    if address > 0xffff_ffff then None
    else
      match Load(m, address, Four)
      case None => None
      case Some(handler) => if handler % 2 == 0 then None else Some(ClearBit0(handler))
  }

  predicate LazyEntry(sys: SysView, c: CpuState) {
    c.control.fpca && sys.lazyFp && !c.extra.lazyActive
  }

  /** Both frames written. */
  function Stacked(sys: SysView, c: CpuState, m: Memory): Option<Memory>
    requires PsrOk(c.psr) && |c.extra.s| == 32
  {
    var l := LayoutOf(sys, c);
    var newSp := l.oldSp - l.size;
    match if l.extended && !LazyEntry(sys, c) then StoreWords(m, newSp, FpFrame(c)) else Some(m)
    case None => None
    case Some(m1) => StoreWords(m1, newSp + CoreOffset(l), CoreFrame(c, l.padding))
  }

  /** The core at the first instruction of the handler. */
  function EnteredCore(sys: SysView, c: CpuState, n: nat, handler: Word): CpuState
    requires LayoutOf(sys, c).oldSp >= LayoutOf(sys, c).size
  {
    var l := LayoutOf(sys, c);
    var newSp := l.oldSp - l.size;
    var c1 := WithBank(c, l.psp, newSp);
    var lazy := LazyEntry(sys, c);
    c1.(r := c1.r[13 := c1.msp][14 := Token(InHandlerMode(c), l.psp, l.extended)][15 := handler],
        instructionAddress := handler, thumb := true, itState := 0,
        psr := c.psr.(ipsr := n, t := true, it := 0),
        extra := c.extra.(lazyActive := lazy, lazyBase := if lazy then newSp else c.extra.lazyBase))
  }

  datatype Entry = EntryFault | Entry(cpu: CpuState, mem: Memory)

  /** ExceptionController::enter on the core and memory. Every fault comes before the first write. */
  function EnterFrame(sys: SysView, c: CpuState, m: Memory, n: nat): Entry
    requires PsrOk(c.psr) && |c.extra.s| == 32
  {
    var l := LayoutOf(sys, c);
    if n == 0 || n >= 256 || l.oldSp < l.size || !Writable(m, l.oldSp - l.size, l.size) then EntryFault
    else
      match Vector(sys, m, n)
      case None => EntryFault
      case Some(handler) =>
        match Stacked(sys, c, m)
        case None => EntryFault
        case Some(m1) => Entry(EnteredCore(sys, c, n, handler), m1)
  }

  // ---------------------------------------------------------------- return

  predicate TokenPsp(token: Word) {
    token == 0xffff_fffd || token == 0xffff_ffed
  }

  predicate TokenThread(token: Word) {
    token == 0xffff_fff9 || token == 0xffff_fffd || token == 0xffff_ffe9 || token == 0xffff_ffed
  }

  predicate TokenExtended(token: Word) {
    token == 0xffff_ffe1 || token == 0xffff_ffe9 || token == 0xffff_ffed
  }

  /** The floating-point registers unstacked from `words`, or kept by a pending lazy reservation. */
  function UnstackedFp(c: CpuState, words: seq<Word>): CpuState
    requires |words| == 17 && |c.extra.s| == 32
  {
    c.(extra := c.extra.(s := words[..16] + c.extra.s[16..], fpscr := words[16]))
  }

  /** The core restored from the eight words of `frame`. */
  function Restored(c: CpuState, token: Word, sp: Word, frame: seq<Word>): CpuState
    requires |frame| == 8
  {
    var psr := Unpack(frame[7]);
    var offset := if TokenExtended(token) then FP_FRAME else 0;
    var c1 := WithBank(c, TokenPsp(token), Words.Add(sp, offset + 32 + if psr.stackAlign then 4 else 0));
    var control := if TokenThread(token) then c.control.(spsel := TokenPsp(token), fpca := TokenExtended(token))
      else c.control;
    var c2 := c1.(psr := psr.(stackAlign := false), control := control, thumb := true, itState := psr.it,
                  instructionAddress := ClearBit0(frame[6]));
    c2.(r := [frame[0], frame[1], frame[2], frame[3]] + c.r[4..12]
             + [frame[4], ActiveSp(c2), frame[5], ClearBit0(frame[6])])
  }

  datatype Exit = ExitFault(cpu: CpuState) | Exit(cpu: CpuState)

  /** ExceptionController::exceptionReturn on the core and memory; `active` is whether the active
      stack is non-empty. */
  function ReturnFrame(c: CpuState, m: Memory, token: Word, active: bool): Exit
    requires |c.extra.s| == 32
  {
    var sp := if TokenPsp(token) then c.psp else c.msp;
    var offset := if TokenExtended(token) then FP_FRAME else 0;
    if !IsExceptionReturn(token) || !active || !InHandlerMode(c) || !Writable(m, sp, offset + 32) then ExitFault(c)
    else
      match if TokenExtended(token) && !c.extra.lazyActive then LoadWords(m, sp, 17) else None
      case None => FinishReturn(c.(extra := c.extra.(lazyActive := false)), m, token, sp, offset)
      case Some(words) =>
        FinishReturn(UnstackedFp(c, words).(extra := UnstackedFp(c, words).extra.(lazyActive := false)), m, token, sp,
          offset)
  }

  function FinishReturn(c: CpuState, m: Memory, token: Word, sp: Word, offset: nat): Exit {
    match LoadWords(m, sp + offset, 8)
    case None => ExitFault(c)
    case Some(frame) => if !Unpack(frame[7]).t then ExitFault(c) else Exit(Restored(c, token, sp, frame))
  }

  // ---------------------------------------------------------------- one round trip

  /** What entry leaves in memory: both frames, and nothing outside the new stack area. */
  lemma StackedFrames(sys: SysView, c: CpuState, m: Memory)
    requires Canonical(c) && LayoutOf(sys, c).oldSp >= LayoutOf(sys, c).size
    requires Writable(m, LayoutOf(sys, c).oldSp - LayoutOf(sys, c).size, LayoutOf(sys, c).size)
    ensures
      var l := LayoutOf(sys, c);
      var newSp := l.oldSp - l.size;
      var m1 := Stacked(sys, c, m);
      && m1.Some? && OnlyIn(m, m1.value, newSp, l.size)
      && LoadWords(m1.value, newSp + CoreOffset(l), 8) == Some(CoreFrame(c, l.padding))
      && (l.extended && !LazyEntry(sys, c) ==> LoadWords(m1.value, newSp, 18) == Some(FpFrame(c)))
  {
    hide StoreWords, LoadWords, CoreFrame, FpFrame;
    var l := LayoutOf(sys, c);
    var newSp := l.oldSp - l.size;
    if l.extended && !LazyEntry(sys, c) {
      StoredWords(m, newSp, FpFrame(c));
      var m1 := StoreWords(m, newSp, FpFrame(c)).value;
      StoredWords(m1, newSp + FP_FRAME, CoreFrame(c, l.padding));
      var m2 := StoreWords(m1, newSp + FP_FRAME, CoreFrame(c, l.padding)).value;
      SameWords(m1, m2, newSp, 18);
    } else {
      StoredWords(m, newSp + CoreOffset(l), CoreFrame(c, l.padding));
    }
  }

  lemma {:induction false} LoadPrefix(m: Memory, a: int, n: nat, k: nat)
    requires k <= n && LoadWords(m, a, n).Some?
    ensures LoadWords(m, a, k).Some? && LoadWords(m, a, k).value == LoadWords(m, a, n).value[..k]
    decreases n
  {
    hide Load;
    if k > 0 {
      LoadPrefix(m, a + 4, n - 1, k - 1);
    }
  }

  lemma TokenMeans(fromHandler: bool, psp: bool, extended: bool)
    requires fromHandler ==> !psp
    ensures
      var t := Token(fromHandler, psp, extended);
      IsExceptionReturn(t) && TokenPsp(t) == psp && TokenThread(t) == !fromHandler && TokenExtended(t) == extended
  {
  }

  /** `c2` is where the handler of the entry from `c` may return: in handler mode, with its core
      frame and its stack pointer as entry left them. */
  predicate Kept(sys: SysView, c: CpuState, c1: CpuState, m1: Memory, c2: CpuState, m2: Memory) {
    var l := LayoutOf(sys, c);
    && InHandlerMode(c2) && |c2.extra.s| == 32 && m2.writable == m1.writable && m2.bytes.Keys == m1.bytes.Keys
    && l.oldSp >= l.size && SameBytes(m1, m2, l.oldSp - l.size + CoreOffset(l), 32)
    && (if l.psp then c2.psp == c1.psp else c2.msp == c1.msp)
  }

  /** An extended frame still has its reservation pending, or holds the stacked FP registers. */
  predicate FpKept(sys: SysView, c: CpuState, c2: CpuState, m2: Memory)
    requires |c.extra.s| == 32
  {
    var l := LayoutOf(sys, c);
    l.extended ==> c2.extra.lazyActive || LoadWords(m2, l.oldSp - l.size, 18) == Some(FpFrame(c))
  }

  /** `c3` resumes `c`: the stacked registers, PC, xPSR with IT state, the stack pointer it was
      using, and for Thread mode the CONTROL bits, are those of `c`; the rest is the handler's. */
  predicate Resumes(sys: SysView, c: CpuState, c2: CpuState, c3: CpuState) {
    var l := LayoutOf(sys, c);
    && c3.r == c.r[..4] + c2.r[4..12] + [c.r[12], ActiveSp(c3), c.r[14], c.r[15]]
    && c3.psr == c.psr && c3.itState == c.itState && c3.thumb && c3.instructionAddress == c.r[15]
    && c3.psp == (if l.psp then c.psp else c2.psp) && c3.msp == (if l.psp then c2.msp else c.msp)
    && c3.control == (if InHandlerMode(c) then c2.control
                      else c2.control.(spsel := c.control.spsel, fpca := c.control.fpca))
  }

  lemma UnpackFrame(c: CpuState, padding: bool)
    requires Canonical(c)
    ensures
      var psr := Unpack(CoreFrame(c, padding)[7]);
      && psr.t && psr.stackAlign == padding && psr.(stackAlign := false) == c.psr && psr.it == c.itState
      && ClearBit0(CoreFrame(c, padding)[6]) == c.r[15]
  {
    hide Pack, Unpack, ActiveSp;
    PsrRoundTrip(c.psr.(t := true, stackAlign := padding));
  }

  /** Restoring the frame stacked from `c` resumes `c`. */
  lemma RestoredResumes(sys: SysView, c: CpuState, c2: CpuState, m1: Memory)
    requires Canonical(c) && LayoutOf(sys, c).oldSp >= LayoutOf(sys, c).size
    requires var l := LayoutOf(sys, c); if l.psp then c2.psp == l.oldSp - l.size else c2.msp == l.oldSp - l.size
    ensures
      var l := LayoutOf(sys, c);
      Resumes(sys, c, c2, Restored(c2, Token(InHandlerMode(c), l.psp, l.extended), l.oldSp - l.size,
        CoreFrame(c, l.padding)))
  {
    hide Unpack, CoreFrame, ClearBit0, Token, TokenPsp, TokenThread, TokenExtended;
    var l := LayoutOf(sys, c);
    UnpackFrame(c, l.padding);
    assert c.r[..4] == [c.r[0], c.r[1], c.r[2], c.r[3]];
    TokenMeans(InHandlerMode(c), l.psp, l.extended);
    assert Words.Add(l.oldSp - l.size, l.size) == l.oldSp;
    CoreWords(c, l.padding);
  }

  lemma CoreWords(c: CpuState, padding: bool)
    requires PsrOk(c.psr)
    ensures
      var f := CoreFrame(c, padding);
      f[0] == c.r[0] && f[1] == c.r[1] && f[2] == c.r[2] && f[3] == c.r[3] && f[4] == c.r[12] && f[5] == c.r[14]
  {
  }

  /** The floating-point state after a return. */
  predicate FpResumes(sys: SysView, c: CpuState, c2: CpuState, c3: CpuState)
    requires |c.extra.s| == |c2.extra.s| == 32
  {
    if LayoutOf(sys, c).extended && !c2.extra.lazyActive then
      c3.extra == c2.extra.(s := c.extra.s[..16] + c2.extra.s[16..], fpscr := c.extra.fpscr)
    else c3.extra == c2.extra.(lazyActive := false)
  }

  lemma FpWords(sys: SysView, c: CpuState, c2: CpuState, m2: Memory)
    requires |c.extra.s| == 32 && |c2.extra.s| == 32
             && LoadWords(m2, LayoutOf(sys, c).oldSp - LayoutOf(sys, c).size, 18) == Some(FpFrame(c))
    ensures
      var words := LoadWords(m2, LayoutOf(sys, c).oldSp - LayoutOf(sys, c).size, 17);
      && words.Some? && words.value[..16] == c.extra.s[..16] && words.value[16] == c.extra.fpscr
  {
    hide LoadWords;
    LoadPrefix(m2, LayoutOf(sys, c).oldSp - LayoutOf(sys, c).size, 18, 17);
    assert FpFrame(c)[..17][..16] == c.extra.s[..16];
  }

  lemma EntrySp(sys: SysView, c: CpuState, m: Memory, n: nat)
    requires Canonical(c) && EnterFrame(sys, c, m, n).Entry?
    ensures
      var l, e := LayoutOf(sys, c), EnterFrame(sys, c, m, n);
      && l.oldSp >= l.size && Writable(m, l.oldSp - l.size, l.size)
      && e.cpu.r[14] == Token(InHandlerMode(c), l.psp, l.extended)
      && (if l.psp then e.cpu.psp == l.oldSp - l.size && e.cpu.msp == c.msp
          else e.cpu.msp == l.oldSp - l.size && e.cpu.psp == c.psp)
      && Stacked(sys, c, m) == Some(e.mem) && |e.cpu.extra.s| == 32 && e.cpu.psr.ipsr == n
      && e.cpu.extra.lazyActive == LazyEntry(sys, c)
      && (0 < n < 256 && Canonical(e.cpu))
  {
    hide Stacked, Vector, Token;
    var e := EnterFrame(sys, c, m, n);
    VectorEven(sys, m, n);
  }

  lemma VectorEven(sys: SysView, m: Memory, n: nat)
    ensures Vector(sys, m, n).Some? ==> Vector(sys, m, n).value % 2 == 0
  {
    hide Load;
  }

  /** A return to a kept frame succeeds and resumes the interrupted code; the FP registers come
      from memory unless a reservation is pending. */
  lemma ReturnResumes(sys: SysView, c: CpuState, m: Memory, n: nat, c2: CpuState, m2: Memory)
    requires Canonical(c) && EnterFrame(sys, c, m, n).Entry?
    requires var e := EnterFrame(sys, c, m, n); Kept(sys, c, e.cpu, e.mem, c2, m2)
    ensures
      var r, l := ReturnFrame(c2, m2, EnterFrame(sys, c, m, n).cpu.r[14], true), LayoutOf(sys, c);
      && r.Exit? && Resumes(sys, c, c2, r.cpu)
      && r.cpu.extra == Unstacked(c2, m2, l.oldSp - l.size, l.extended).extra
  {
    hide LoadWords, Restored, Unpack, CoreFrame, Stacked, EnterFrame, Token, TokenPsp, TokenThread, TokenExtended,
      FpFrame, Canonical, IsExceptionReturn, ReturnFrame, Resumes, Writable, Unstacked, SameBytes, OnlyIn, LazyEntry;
    CanonicalParts(c);
    var l, e := LayoutOf(sys, c), EnterFrame(sys, c, m, n);
    var newSp := l.oldSp - l.size;
    EntrySp(sys, c, m, n);
    StackedFrames(sys, c, m);
    TokenMeans(InHandlerMode(c), l.psp, l.extended);
    SameWords(e.mem, m2, newSp + CoreOffset(l), 8);
    StillWritable(m, e.mem, m2, newSp, l.size, CoreOffset(l) + 32);
    UnpackFrame(c, l.padding);
    var c2' := Unstacked(c2, m2, newSp, l.extended);
    assert c2' == c2.(extra := c2'.extra) by { UnstackedOnlyFp(c2, m2, newSp, l.extended); }
    ReturnGoes(c2, m2, e.cpu.r[14], newSp, CoreFrame(c, l.padding));
    RestoredResumes(sys, c, c2', e.mem);
    RestoredKeepsFp(c2', e.cpu.r[14], newSp, CoreFrame(c, l.padding));
    ResumesExtra(sys, c, c2', c2, Restored(c2', e.cpu.r[14], newSp, CoreFrame(c, l.padding)));
  }

  /** Exception round trip, one level: if the handler kept its core frame and stack pointer, and its
      FP frame or reservation, its return succeeds and resumes the interrupted code exactly, with or
      without padding, on either stack, for basic, eager and lazy frames. */
  lemma RoundTrip(sys: SysView, c: CpuState, m: Memory, n: nat, c2: CpuState, m2: Memory)
    requires Canonical(c) && EnterFrame(sys, c, m, n).Entry?
    requires var e := EnterFrame(sys, c, m, n); Kept(sys, c, e.cpu, e.mem, c2, m2) && FpKept(sys, c, c2, m2)
    ensures
      var r := ReturnFrame(c2, m2, EnterFrame(sys, c, m, n).cpu.r[14], true);
      r.Exit? && Resumes(sys, c, c2, r.cpu) && FpResumes(sys, c, c2, r.cpu)
  {
    hide EnterFrame, Canonical, ReturnFrame, Resumes, FpResumes, FpKept, Unstacked;
    CanonicalParts(c);
    ReturnResumes(sys, c, m, n, c2, m2);
    FpFrom(sys, c, c2, m2, ReturnFrame(c2, m2, EnterFrame(sys, c, m, n).cpu.r[14], true).cpu);
  }

  /** Once a lazy reservation has been abandoned the return reads FP state that was never stacked:
      it is the interrupted one exactly when memory below the stack pointer held it already. */
  lemma AbandonedReservation(sys: SysView, c: CpuState, m: Memory, n: nat, c2: CpuState, m2: Memory)
    requires Canonical(c) && LazyEntry(sys, c) && EnterFrame(sys, c, m, n).Entry?
    requires var e := EnterFrame(sys, c, m, n); Kept(sys, c, e.cpu, e.mem, c2, m2) && !c2.extra.lazyActive
    requires SameBytes(m, m2, LayoutOf(sys, c).oldSp - LayoutOf(sys, c).size, FP_FRAME)
    ensures
      var r := ReturnFrame(c2, m2, EnterFrame(sys, c, m, n).cpu.r[14], true);
      var words := LoadWords(m, LayoutOf(sys, c).oldSp - LayoutOf(sys, c).size, 17);
      && r.Exit? && |c.extra.s| == 32 && |r.cpu.extra.s| == 32 && words.Some?
      && r.cpu.extra.s[..16] + [r.cpu.extra.fpscr] == words.value
      && (r.cpu.extra.s[..16] == c.extra.s[..16] && r.cpu.extra.fpscr == c.extra.fpscr
          <==> words == Some(c.extra.s[..16] + [c.extra.fpscr]))
  {
    hide EnterFrame, Canonical, ReturnFrame, Resumes, Kept, LoadWords;
    CanonicalParts(c);
    var l := LayoutOf(sys, c);
    var newSp := l.oldSp - l.size;
    ReturnResumes(sys, c, m, n, c2, m2);
    var e := EnterFrame(sys, c, m, n);
    assert |c2.extra.s| == 32 by { KeptParts(sys, c, e.cpu, e.mem, c2, m2); }
    AllPresent(m, m2, newSp);
    var words := LoadWords(m2, newSp, 17).value;
    assert words == words[..16] + [words[16]];
    var s := UnstackedFp(c2, words).extra.s;
    assert s[..16] == words[..16];
    assert (c.extra.s[..16] + [c.extra.fpscr])[..16] == c.extra.s[..16];
  }

  lemma KeptParts(sys: SysView, c: CpuState, c1: CpuState, m1: Memory, c2: CpuState, m2: Memory)
    requires Kept(sys, c, c1, m1, c2, m2)
    ensures |c2.extra.s| == 32
  {
  }

  lemma AllPresent(m: Memory, m1: Memory, a: int)
    requires SameBytes(m, m1, a, FP_FRAME)
    ensures LoadWords(m1, a, 17) == LoadWords(m, a, 17) && LoadWords(m, a, 17).Some?
  {
    hide LoadWords;
    SameWords(m, m1, a, 17);
    PresentWords(m, a, 17);
  }

  lemma {:induction false} PresentWords(m: Memory, a: int, n: nat)
    requires Readable(m, a, 4 * n)
    ensures LoadWords(m, a, n).Some?
    decreases n
  {
    if n > 0 {
      assert Readable(m, a, 4);
      PresentWords(m, a + 4, n - 1);
    }
  }

  /** The core with its floating-point registers unstacked, if the frame has them. */
  function Unstacked(c: CpuState, m: Memory, sp: int, extended: bool): CpuState
    requires |c.extra.s| == 32
  {
    var words := if extended && !c.extra.lazyActive then LoadWords(m, sp, 17) else None;
    var c1 := if words.Some? then UnstackedFp(c, words.value) else c;
    c1.(extra := c1.extra.(lazyActive := false))
  }

  lemma UnstackedOnlyFp(c: CpuState, m: Memory, sp: int, extended: bool)
    requires |c.extra.s| == 32
    ensures Unstacked(c, m, sp, extended) == c.(extra := Unstacked(c, m, sp, extended).extra)
  {
    hide LoadWords;
  }

  lemma ReturnGoes(c: CpuState, m: Memory, token: Word, sp: Word, frame: seq<Word>)
    requires |c.extra.s| == 32 && IsExceptionReturn(token) && InHandlerMode(c) && |frame| == 8 && Unpack(frame[7]).t
    requires sp == (if TokenPsp(token) then c.psp else c.msp)
    requires
      var offset := if TokenExtended(token) then FP_FRAME else 0;
      Writable(m, sp, offset + 32) && LoadWords(m, sp + offset, 8) == Some(frame)
    ensures ReturnFrame(c, m, token, true)
            == Exit(Restored(Unstacked(c, m, sp, TokenExtended(token)), token, sp, frame))
  {
    hide LoadWords, Restored, Unpack, TokenPsp, TokenExtended, IsExceptionReturn, Writable;
  }

  lemma FpFrom(sys: SysView, c: CpuState, c2: CpuState, m2: Memory, c3: CpuState)
    requires |c.extra.s| == |c2.extra.s| == 32 && FpKept(sys, c, c2, m2)
    requires c3.extra == Unstacked(c2, m2, LayoutOf(sys, c).oldSp - LayoutOf(sys, c).size,
             LayoutOf(sys, c).extended).extra
    ensures FpResumes(sys, c, c2, c3)
  {
    hide LoadWords, FpFrame;
    if LayoutOf(sys, c).extended && !c2.extra.lazyActive { FpWords(sys, c, c2, m2); }
  }

  lemma CanonicalParts(c: CpuState)
    requires Canonical(c)
    ensures |c.extra.s| == 32 && PsrOk(c.psr)
  {
  }

  lemma StillWritable(m: Memory, m1: Memory, m2: Memory, a: int, n: nat, k: nat)
    requires Writable(m, a, n) && k <= n && OnlyIn(m, m1, a, n) && m2.writable == m1.writable
             && m2.bytes.Keys == m1.bytes.Keys
    ensures Writable(m2, a, k)
  {
    assert forall x | a <= x < a + k :: x in m.bytes.Keys;
  }

  lemma RestoredKeepsFp(c: CpuState, token: Word, sp: Word, frame: seq<Word>)
    requires |frame| == 8
    ensures Restored(c, token, sp, frame).extra == c.extra
  {
    hide Unpack, ActiveSp, ClearBit0, TokenPsp, TokenThread, TokenExtended, Words.Add;
  }

  lemma ResumesExtra(sys: SysView, c: CpuState, c2: CpuState, d2: CpuState, c3: CpuState)
    requires Resumes(sys, c, c2, c3) && d2 == c2.(extra := d2.extra)
    ensures Resumes(sys, c, d2, c3)
  {
    hide ActiveSp, LayoutOf;
  }
}
