/** Returns of native traces: where the last op of a run goes, the exact condition under which the
    recorded charge is the true one, and concrete runs that miss it. */
module Returns {
  import opened Words
  import opened Cpu
  import opened Micro
  import opened Lowering
  import opened Native
  import opened Stack
  import opened Timing
  import opened Blocks
  import opened Trace
  import opened Refinement
  import opened Arithmetic

  /** Where op `op` will go from (`c`, `m`): a POP that loads the PC to the word on the stack, every
      other op that retires to its recorded successor. */
  function Successor(op: TraceOp, c: CpuState, m: Memory): Word {
    if PopsPc(op.decoded) && PopWord(op.decoded.registerList, c, m).Some?
    then ClearBit0(PopWord(op.decoded.registerList, c, m).value) else op.expectedNextPc
  }

  lemma PopCommitPc(regs: seq<nat>, c: CpuState, words: seq<Word>)
    requires RegNumbers(regs) && |words| == |regs| && LoadsPc(regs)
    ensures PopCommit(regs, c, words).r[15] == ClearBit0(words[|words| - 1])
  {
    hide CommitWords, WriteRegister, ActiveSp, ClearBit0, Words.Add;
  }

  /** A committed POP goes to the word it loads. */
  lemma PopGoes(op: TraceOp, c: CpuState, m: Memory, bus: Bus, dynamic: bool)
    requires PopsPc(op.decoded) && StackListValid(op.decoded.registerList, false)
    requires Effective(StackOp(op, c, m, bus, dynamic))
    ensures StackOp(op, c, m, bus, dynamic).cpu.r[15] == Successor(op, c, m)
  {
    hide StackListValid, StackRegs, PopTransfer, StackOp, LoadWords, ActiveSp, RegsFrom, Count, PopWord, PopCommit,
      ClearBit0, InTokenBlock;
    var list := op.decoded.registerList;
    PopOp(op, c, m, bus, dynamic);
    PopCommits(list, c, m, bus, op.pc, op.expectedNextPc, dynamic);
    var words := LoadWords(m, ActiveSp(c), Count(list)).value;
    assert PopCommit(RegsFrom(list, 0), c, words).r[15] == ClearBit0(words[|words| - 1]) by {
      SameCount(list);
      OrdinaryIs(list);
      PopCommitPc(RegsFrom(list, 0), c, words);
    }
  }

  /** A retired op of a valid trace goes to its successor. */
  lemma OpGoes(code: Code, src: TraceSource, op: TraceOp, c: CpuState, m: Memory, bus: Bus, cycles: nat, dynamic: bool)
    requires Coded(code, src, op) && AtOp(op, c) && RamBus(bus) && GuardHolds(op, c)
    requires Effective(OpEffect(op, c, m, bus, cycles, dynamic))
    ensures OpEffect(op, c, m, bus, cycles, dynamic).cpu.r[15] == Successor(op, c, m)
  {
    hide Coded, RamBus, GuardHolds, PopWord, StackOp, MemoryStep, PlainOp, ReturnsToken, AtOp, ClearBit0, Refill, Step;
    OpRetires(code, src, op, c, m, bus, cycles, dynamic);
    if PopsPc(op.decoded) {
      CodedList(code, src, op);
      PopGoes(op, c, m, bus, dynamic);
    }
  }

  lemma CodedList(code: Code, src: TraceSource, op: TraceOp)
    requires Coded(code, src, op) && PopsPc(op.decoded)
    ensures StackListValid(op.decoded.registerList, false)
  {
    hide StackListValid, DecoderShaped, StackDecoded, RecordedCycles, EdgeValid, BlankNative;
  }

  /** The state before the last of `n` retired ops, and where that op went. */
  predicate LastWent(
    code: Code, stall: StallFn, ops: seq<TraceOp>, i: nat, c: CpuState, m: Memory, f: Fetch, n: nat, r: Progress)
    requires 0 < n && i + n <= |ops|
  {
    var before := ChargedSteps(code, stall, c, m, f, n - 1);
    before.Some? && r.cpu.r[15] == Successor(ops[i + n - 1], before.value.cpu, before.value.mem)
  }

  lemma LastShifts(
    code: Code, stall: StallFn, ops: seq<TraceOp>, i: nat, c: CpuState, m: Memory, f: Fetch, n: nat, r: Progress)
    requires 0 < n && i + 1 + n <= |ops| && c.r[15] == ops[i].pc && FetchedSize(code, ops[i].pc) == ops[i].size
    requires Step(code, c, m).stop == StepComplete
    requires
      var st := Step(code, c, m);
      LastWent(code, stall, ops, i + 1, st.cpu, st.mem, Fetch(true, OpEnd(ops[i])), n, r)
    ensures LastWent(code, stall, ops, i, c, m, f, n + 1, r)
  {
    hide Step, Successor, FetchedSize, Words.Add, ChargedSteps;
    ChargedCons(code, stall, c, m, f, n - 1);
  }

  /** The last retired op of the loop goes where the checked state before it says. */
  lemma {:induction false} LoopLast(
    code: Code, stall: StallFn, sources: seq<TraceSource>, p: Params, admitted: bool, i: nat, s: Progress, f: Fetch)
    requires CodedTrace(code, sources, p.ops) && RamBus(p.bus)
    requires i <= |p.ops| && s.retired == i && s.exit == NoExit
    requires admitted ==> p.prefix.Some? && p.instructionLimit < |p.prefix.value| && i <= p.instructionLimit
    requires SafeCore(s.cpu) && (i < |p.ops| ==> s.cpu.r[15] == p.ops[i].pc)
    ensures
      var r := Loop(p, admitted, i, s);
      && (r.retired == i ==> r.cpu == s.cpu)
      && (r.retired > i && TokenFree(code, p.ops, i, s.cpu, s.mem, r.retired - i) ==>
            LastWent(code, stall, p.ops, i, s.cpu, s.mem, f, r.retired - i, r))
    decreases |p.ops| - i
  {
    hide Step, Refill, FetchedSize, Words.Add, RamBus, Coded, OpEffect, GuardHolds, Iterate, SafeCore, ReturnsToken,
      LastWent, ChargedSteps, Successor;
    if i < |p.ops| {
      var r := Loop(p, admitted, i, s);
      var (s1, more) := Iterate(p, admitted, i, s);
      IterateShape(p, admitted, i, s);
      if s1.retired != i {
        var op, helper := p.ops[i], HelperCycles(p, admitted, i, s);
        OpOfLoop(code, sources, p, i, s, helper, s1, more);
        SafeAt(op, s.cpu);
        assert Coded(code, sources[i], op);
        OpGoes(code, sources[i], op, s.cpu, s.mem, p.bus, helper, p.allowDynamic);
        var f1 := Fetch(true, OpEnd(op));
        if more { LoopLast(code, stall, sources, p, admitted, i + 1, s1, f1); }
        var n := r.retired - i - 1;
        if n == 0 {
          OnlyWent(code, stall, p.ops, i, s.cpu, s.mem, f, r);
        } else if !ReturnsToken(op, s.cpu, s.mem) && TokenFree(code, p.ops, i + 1, s1.cpu, s1.mem, n) {
          LastShifts(code, stall, p.ops, i, s.cpu, s.mem, f, n, r);
        }
      }
    }
  }

  lemma OnlyWent(
    code: Code, stall: StallFn, ops: seq<TraceOp>, i: nat, c: CpuState, m: Memory, f: Fetch, r: Progress)
    requires i < |ops| && r.cpu.r[15] == Successor(ops[i], c, m)
    ensures LastWent(code, stall, ops, i, c, m, f, 1, r)
  {
    hide Successor, ChargedSteps;
    ChargedNone(code, stall, c, m, f);
  }

  /** The recorded charge of a run without extended-frame tokens is the true one if and only if the
      word its last op pops, or its recorded successor, agrees with the recorded successor on whether
      the pipeline refills. The condition reads only the checked state before the last op. */
  lemma ChargeExact(code: Code, stall: StallFn, sources: seq<TraceSource>, p: Params, s: Progress, f: Fetch)
    requires CodedTrace(code, sources, p.ops) && RamBus(p.bus)
    requires SafeCore(s.cpu) && (p.ops != [] ==> s.cpu.r[15] == p.ops[0].pc)
    requires var r := Run(p, s); 0 < r.retired <= |p.ops| && TokenFree(code, p.ops, 0, s.cpu, s.mem, r.retired)
    ensures
      var n := Run(p, s).retired;
      var last := p.ops[n - 1];
      var before := ChargedSteps(code, stall, s.cpu, s.mem, f, n - 1);
      var all := ChargedSteps(code, stall, s.cpu, s.mem, f, n);
      && before.Some? && all.Some?
      && var next := Successor(last, before.value.cpu, before.value.mem);
         && all.value.cpu.r[15] == next
         && all.value.total + Refill(last, last.expectedNextPc)
            == TraceCharge(p.ops, stall, f, 0, n) + Refill(last, next)
         && (all.value.total == TraceCharge(p.ops, stall, f, 0, n)
             <==> (next == OpEnd(last) <==> last.expectedNextPc == OpEnd(last)))
  {
    hide Step, FetchedSize, Words.Add, RamBus, CodedTrace, Iterate, Loop, TokenFree, TraceCharge, ChargedSteps,
      PrefixValid, Ready, Successor, SafeCore;
    var admitted := PrefixValid(p, s.cycles);
    if admitted { PrefixHasRoom(p, s.cycles); }
    var s0 := s.(retired := 0, exit := NoExit);
    TraceRefines(code, stall, sources, p, s, f);
    LoopLast(code, stall, sources, p, admitted, 0, s0, f);
  }

  // ---------------------------------------------------------------- concrete runs

  /** POP {pc} at 0x100. */
  function PopPcDecoded(): Decoded {
    Decoded(Pop, AL, RegisterList, 0, 13, 0, 0, 0, 0, seq(16, i => i == 15), ShiftType.Lsl, 0, false,
            false, true, true, false, false, false, false, 0xbd00)
  }

  function PopCode(): Code {
    map[0x100 := Fetched(PopPcDecoded(), 2)]
  }

  /** The POP recorded with successor `expected`. */
  function PopSource(expected: Word): TraceSource {
    TraceSource(PopPcDecoded(), 0xbd00, Some(PopPcDecoded()), 0x100, 2, expected, true, if expected == 0x102 then 2
      else 4)
  }

  function PopTrace(expected: Word): TraceOp {
    TraceOp(PopPcDecoded(), BlankNative(), 0x100, 2, expected, true, if expected == 0x102 then 2 else 4)
  }

  /** A core at the POP, and its stack holding the word `w`. */
  function PopCore(): CpuState {
    CpuState(
      seq(16, i => if i == 13 then 0x1000 else if i == 15 then 0x100 else 0),
      Psr(false, false, false, false, false, true, 0, 0, false, 0, 0),
      0x1000, 0, Control(false, false, false), true, false, None, None, 0, 0x100,
      Extra(0, 0, 0, [], 0, false, 0))
  }

  function PopMemory(w: Word): Memory {
    Memory(map[0x1000 := w % 0x100, 0x1001 := w / 0x100 % 0x100, 0x1002 := w / 0x1_0000 % 0x100,
      0x1003 := w / 0x100_0000], {})
  }

  /** Helpers that accept every frame and nothing else. */
  function PopBus(): Bus {
    Bus((cycles, pc, a, width, m) => ReadDeclined, (cycles, pc, a, width, v, m) => WriteDeclined,
        (pc, a, values, m) => false, (pc, a, n, m) => true)
  }

  /** The context the dispatcher sets up: one op, ample credit, dynamic returns allowed. */
  function PopContext(expected: Word): Params {
    Params([PopTrace(expected)], 1, 100, [PopTrace(expected).executionCycles], None, true, PopBus())
  }

  function PopStart(w: Word): Progress {
    Progress(PopCore(), PopMemory(w), 0, 0, false, NoExit)
  }

  lemma PopList()
    ensures
      var list := PopPcDecoded().registerList;
      RegsFrom(list, 0) == [15] && Count(list) == 1 && StackListValid(list, false) && list[15]
  {
    var list := PopPcDecoded().registerList;
    assert RegsFrom(list, 16) == [] && RegsFrom(list, 15) == [15];
    RegsSkip(list, 0, 15);
    SameCount(list);
  }

  lemma PopLoads(w: Word)
    ensures LoadWords(PopMemory(w), 0x1000, 1) == Some([w])
    ensures ActiveSp(PopCore()) == 0x1000
  {
    hide LoadWords, Load, PopMemory;
    PopLoad(w);
    LoadsNone(PopMemory(w), 0x1004);
    ConsLoad(PopMemory(w), 0x1000, 0);
    assert [w] + [] == [w];
  }

  lemma PopLoad(w: Word)
    ensures Load(PopMemory(w), 0x1000, Four) == Some(w)
  {
    hide Join;
    ByteParts(w);
    var m := PopMemory(w);
    assert m.bytes.Keys == {0x1000, 0x1001, 0x1002, 0x1003};
    assert Readable(m, 0x1000, 4);
  }

  lemma ByteParts(w: Word)
    ensures w / 0x100_0000 < 0x100
    ensures Join(w % 0x100, w / 0x100 % 0x100, w / 0x1_0000 % 0x100, w / 0x100_0000) == w
  {
    FourBytes(w);
  }

  lemma PopCoded(expected: Word)
    requires expected % 2 == 0
    ensures CodedTrace(PopCode(), [PopSource(expected)], [PopTrace(expected)])
    ensures RamBus(PopBus()) && SafeCore(PopCore())
  {
    hide RegsFrom, Count, ValidateSource, BlankNative, PopPcDecoded, DecoderShaped, StackDecoded;
    PopList();
    PopFields();
    var src, op := PopSource(expected), PopTrace(expected);
    PopValid(expected);
    assert BasePipelineCycles(op.decoded) == 2;
    assert Coded(PopCode(), src, op);
  }

  lemma PopValid(expected: Word)
    requires expected % 2 == 0
    ensures ValidateSource(PopSource(expected)) == Some(PopTrace(expected))
  {
    hide StackListValid, BlankNative, SourceTarget, PopPcDecoded;
    PopList();
    PopFields();
    BlankIs();
  }

  lemma PopFields()
    ensures
      var d := PopPcDecoded();
      d.kind == Pop && d.form == RegisterList && !d.is32Bit && d.raw == 0xbd00 && d.condition == AL && DecoderShaped(d)
    ensures StackDecoded(PopPcDecoded())
  {
  }

  lemma BlankIs()
    ensures BlankNative().kind == Integer && BlankNative().integer.op == OpNop
  {
  }

  /** The trace takes the POP to the popped word, whatever was recorded. */
  lemma PopRuns(w: Word, expected: Word)
    requires w % 2 == 1 && !InTokenBlock(w) && expected % 2 == 0 && ClearBit0(w) != expected
    ensures
      var r := Run(PopContext(expected), PopStart(w));
      && r.retired == 1 && r.exit == DynamicReturn && r.cpu.r[15] == ClearBit0(w) && r.cpu.pendingExcReturn == None
      && PopWord(PopPcDecoded().registerList, PopCore(), PopMemory(w)) == Some(w)
  {
    hide LoadWords, ActiveSp, RegsFrom, Count, StackListValid, PopCommit, PopMemory, ClearBit0, Run, PopPcDecoded,
      BlankNative, PopCore, PopTransfer, StackOp;
    PopList();
    PopFields();
    PopLoads(w);
    var op, c, m := PopTrace(expected), PopCore(), PopMemory(w);
    PopsTo(c, m, PopBus(), 0x100, expected, w);
    PopOp(op, c, m, PopBus(), true);
    PopCommitPc([15], c, [w]);
    PopKeepsPending([15], c, [w]);
    assert c.pendingExcReturn == None by { NothingPends(); }
    RunsOne(PopContext(expected), PopStart(w), PopCommit([15], c, [w]).(instructionAddress := 0x100), m);
  }

  lemma NothingPends()
    ensures PopCore().pendingExcReturn == None
  {
  }

  lemma PopsTo(c: CpuState, m: Memory, bus: Bus, pc: Word, expected: Word, w: Word)
    requires ActiveSp(c) == 0x1000 && LoadWords(m, 0x1000, 1) == Some([w]) && bus.pop(pc, 0x1000, 1, m)
    requires w % 2 == 1 && !InTokenBlock(w) && ClearBit0(w) != expected
    ensures PopTransfer([15], c, m, bus, pc, expected, true) == Dynamic(PopCommit([15], c, [w]), m)
  {
    hide LoadWords, ActiveSp, PopCommit, ClearBit0;
  }

  /** A trace of one stack op that returns elsewhere. */
  lemma RunsOne(p: Params, s: Progress, after: CpuState, m: Memory)
    requires |p.ops| == 1 && p.instructionLimit == 1 && p.prefix == None && |p.charged| == 1
    requires s.cycles == 0 && s.retired == 0 && s.exit == NoExit && !s.boundaryStop && p.charged[0] <= p.cycleLimit
    requires IsStack(p.ops[0].decoded) && p.ops[0].native == BlankNative()
    requires StackOp(p.ops[0], s.cpu, s.mem, p.bus, p.allowDynamic) == ReturnedElsewhere(after, m)
    ensures Run(p, s) == Progress(after, m, 1, p.charged[0], false, DynamicReturn)
  {
    hide StackOp;
    assert GuardHolds(p.ops[0], s.cpu);
    assert Iterate(p, false, 0, s) == (Progress(after, m, 1, p.charged[0], false, DynamicReturn), false);
    assert s.(retired := 0, exit := NoExit) == s;
  }

  /** POP {pc} of the token 0xffffffe9, recorded to return to 0x200: the trace returns to 0xffffffe8
      with nothing pending, the checked core stays in sequence and pends the exception return. */
  lemma TokenReturn()
    ensures
      var r, st := Run(PopContext(0x200), PopStart(0xffff_ffe9)), Step(PopCode(), PopCore(), PopMemory(0xffff_ffe9));
      && r.retired == 1 && r.exit == DynamicReturn && r.cpu.r[15] == 0xffff_ffe8 && r.cpu.pendingExcReturn == None
      && st.stop == StepComplete && st.cpu.r[15] == 0x102 && st.cpu.pendingExcReturn == Some(0xffff_ffe9)
  {
    hide LoadWords, ActiveSp, RegsFrom, Count, StackListValid, PopCommit, PopMemory, Run, Retire, Execute, ExecMultiple;
    var d, c, m := PopPcDecoded(), PopCore(), PopMemory(0xffff_ffe9);
    PopRuns(0xffff_ffe9, 0x200);
    PopList();
    PopLoads(0xffff_ffe9);
    StepAt(PopCode(), d, 2, c, m);
    PopExecutes(d, 2, c, m, [0xffff_ffe9]);
    MultipleExecutes(d, Entered(c, 2), m);
    RetirePop(d, c, m);
  }

  lemma RetirePop(d: Decoded, c: CpuState, m: Memory)
    requires Ready(c) && d.kind == Pop && d.condition == AL
    ensures
      var e, r := Execute(d, Entered(c, 2), m), Retire(d, 2, c, m);
      r.cpu == e.cpu && r.mem == e.mem && r.stop == e.stop
  {
    hide Execute, Entered, BasePipelineCycles;
  }

  /** POP {pc} recorded to return to 0x200 that lands in sequence: charged two cycles too many. */
  lemma Overcharged(stall: StallFn, f: Fetch)
    ensures
      var r := Run(PopContext(0x200), PopStart(0x103));
      var ch := ChargedSteps(PopCode(), stall, PopCore(), PopMemory(0x103), f, 1);
      && r.retired == 1 && r.exit == DynamicReturn && ch.Some? && ch.value.cpu == r.cpu && ch.value.mem == r.mem
      && ch.value.total + 2 == TraceCharge([PopTrace(0x200)], stall, f, 0, 1)
  {
    ChargedAgainst(stall, f, 0x103, 0x200);
  }

  /** POP {pc} recorded in sequence that returns to 0x200: charged two cycles too few. */
  lemma Undercharged(stall: StallFn, f: Fetch)
    ensures
      var r := Run(PopContext(0x102), PopStart(0x201));
      var ch := ChargedSteps(PopCode(), stall, PopCore(), PopMemory(0x201), f, 1);
      && r.retired == 1 && r.exit == DynamicReturn && ch.Some? && ch.value.cpu == r.cpu && ch.value.mem == r.mem
      && ch.value.total == TraceCharge([PopTrace(0x102)], stall, f, 0, 1) + 2
  {
    ChargedAgainst(stall, f, 0x201, 0x102);
  }

  lemma ChargedAgainst(stall: StallFn, f: Fetch, w: Word, expected: Word)
    requires w % 2 == 1 && !InTokenBlock(w) && !ExtendedToken(w) && expected % 2 == 0 && ClearBit0(w) != expected
    ensures
      var r := Run(PopContext(expected), PopStart(w));
      var ch := ChargedSteps(PopCode(), stall, PopCore(), PopMemory(w), f, 1);
      && r.retired == 1 && r.exit == DynamicReturn && ch.Some? && ch.value.cpu == r.cpu && ch.value.mem == r.mem
      && ch.value.total + (if expected == 0x102 then 0 else 2)
         == TraceCharge([PopTrace(expected)], stall, f, 0, 1) + (if ClearBit0(w) == 0x102 then 0 else 2)
  {
    hide LoadWords, ActiveSp, RegsFrom, Count, StackListValid, PopMemory, Run, ChargedSteps, TraceCharge, ClearBit0,
      CodedTrace, RamBus, SafeCore, PopWord, PopBus, PopCode;
    PopCoded(expected);
    PopRuns(w, expected);
    var p, s := PopContext(expected), PopStart(w);
    assert TokenFree(PopCode(), p.ops, 0, s.cpu, s.mem, 1) by {
      assert TokenFree(PopCode(), p.ops, 1, Step(PopCode(), s.cpu, s.mem).cpu, Step(PopCode(), s.cpu, s.mem).mem, 0);
    }
    ChargeExact(PopCode(), stall, [PopSource(expected)], p, s, f);
    TraceRefines(PopCode(), stall, [PopSource(expected)], p, s, f);
    ChargedNone(PopCode(), stall, s.cpu, s.mem, f);
  }
}
