/** IT-then-else pairs of immediate moves: recognition in src/cpu/native_region.cpp and the fused
    step of src/cpu/micro_jit.cpp, against three checked steps. */
module ItPairs {
  import opened Words
  import opened Cpu
  import opened Timing
  import opened Blocks
  import opened Region

  /** Section A7.3 of the ARMv7-M manual: bit 0 of a condition code negates it. */
  function Opposite(code: nat): nat {
    if code % 2 == 0 then code + 1 else code - 1
  }

  /** A 16-bit MOV immediate: bits 15-11 are 00100. */
  predicate IsMovImmediate(halfword: nat) {
    halfword / 0x800 == 4
  }

  /** Recognition at an IT instruction with state byte `it` followed by two halfwords. */
  function RecognisePair(it: Byte, first: nat, second: nat): Pair {
    var next := AdvanceItState(it);
    if next != 0 && AdvanceItState(next) == 0 && next / 16 == Opposite(it / 16)
       && IsMovImmediate(first) && IsMovImmediate(second)
    then Pair(first / 0x100 % 8, first % 0x100, second / 0x100 % 8, second % 0x100, CurrentItCondition(it))
    else NoPair
  }

  /** What the decoder makes of a 16-bit MOV immediate. */
  predicate MovDecoded(halfword: nat, d: Decoded) {
    && d.kind == Mov && d.form == Immediate && d.condition == AL && d.setFlags
    && d.rd == halfword / 0x100 % 8 && d.imm == halfword % 0x100 && !d.immediateCarryValid
  }

  /** The three instructions of a recognised pair at `pc`. */
  predicate PairCoded(code: Code, op: RegionOp, it: Byte, first: nat, second: nat) {
    && op.pair.Pair? && op.pair == RecognisePair(it, first, second)
    && op.pc % 2 == 0
    && op.pc in code && Words.Add(op.pc, 2) in code && Words.Add(op.pc, 4) in code
    && code[op.pc].size == 2 && code[op.pc].decoded.kind == It && code[op.pc].decoded.imm == it
    && code[Words.Add(op.pc, 2)].size == 2 && MovDecoded(first, code[Words.Add(op.pc, 2)].decoded)
    && code[Words.Add(op.pc, 4)].size == 2 && MovDecoded(second, code[Words.Add(op.pc, 4)].decoded)
  }

  /** The live core as it is published when the region is left at `pc`. */
  function Materialise(l: Live, pc: Word): CpuState {
    WithPc(l.cpu, pc).(instructionAddress := l.last)
  }

  function PhaseStall(env: Env, sequential: bool): nat {
    if sequential then env.sequentialStall else env.nonsequentialStall
  }

  function RegionStall(env: Env): StallFn {
    (pc: Word, sequential: bool) => PhaseStall(env, sequential)
  }

  /** The core after an instruction at `at` that falls through to `pc` with IT state `it`. */
  function Moved(c: CpuState, at: Word, pc: Word, it: Byte): CpuState {
    SetItState(WithPc(c, pc).(instructionAddress := at), it)
  }

  function SetReg(c: CpuState, reg: nat, v: Word): CpuState
    requires reg < 8
  {
    c.(r := c.r[reg := v])
  }

  lemma MovedTwice(c: CpuState, at: Word, pc: Word, it: Byte, at1: Word, pc1: Word, it1: Byte, reg: nat, v: Word)
    requires reg < 8
    ensures Moved(Moved(c, at, pc, it), at1, pc1, it1) == Moved(c, at1, pc1, it1)
    ensures Moved(SetReg(Moved(c, at, pc, it), reg, v), at1, pc1, it1) == Moved(SetReg(c, reg, v), at1, pc1, it1)
  {
    assert c.r[15 := pc][15 := pc1] == c.r[15 := pc1];
    assert c.r[15 := pc][reg := v][15 := pc1] == c.r[reg := v][15 := pc1];
  }

  lemma MovedParts(c: CpuState, at: Word, pc: Word, it: Byte)
    ensures
      var c1 := Moved(c, at, pc, it);
      && c1.r[15] == pc && c1.itState == it && c1.psr == c.psr.(it := it) && c1.halted == c.halted
         && c1.thumb == c.thumb
  {
  }

  lemma OppositeCondition(code: nat, p: Psr)
    requires code < 16
    ensures Opposite(code) < 16
    ensures ConditionPasses(ConditionOf(Opposite(code)), p) == !ConditionPasses(ConditionOf(code), p)
  {
    hide ConditionPasses, ConditionOf;
    CodePairs();
    PairsOppose(p);
    if code < 2 { assert code == 0 || code == 1; }
    else if code < 4 { assert code == 2 || code == 3; }
    else if code < 6 { assert code == 4 || code == 5; }
    else if code < 8 { assert code == 6 || code == 7; }
    else if code < 10 { assert code == 8 || code == 9; }
    else if code < 12 { assert code == 10 || code == 11; }
    else if code < 14 { assert code == 12 || code == 13; }
    else { assert code == 14 || code == 15; }
  }

  lemma CodePairs()
    ensures ConditionOf(0) == EQ && ConditionOf(1) == NE && ConditionOf(2) == CS && ConditionOf(3) == CC
    ensures ConditionOf(4) == MI && ConditionOf(5) == PL && ConditionOf(6) == VS && ConditionOf(7) == VC
    ensures ConditionOf(8) == HI && ConditionOf(9) == LS && ConditionOf(10) == GE && ConditionOf(11) == LT
    ensures ConditionOf(12) == GT && ConditionOf(13) == LE && ConditionOf(14) == AL && ConditionOf(15) == NV
  {
  }

  lemma PairsOppose(p: Psr)
    ensures ConditionPasses(NE, p) == !ConditionPasses(EQ, p) && ConditionPasses(CC, p) == !ConditionPasses(CS, p)
    ensures ConditionPasses(PL, p) == !ConditionPasses(MI, p) && ConditionPasses(VC, p) == !ConditionPasses(VS, p)
    ensures ConditionPasses(LS, p) == !ConditionPasses(HI, p) && ConditionPasses(LT, p) == !ConditionPasses(GE, p)
    ensures ConditionPasses(LE, p) == !ConditionPasses(GT, p) && ConditionPasses(NV, p) == !ConditionPasses(AL, p)
  {
  }

  /** A recognised state byte covers exactly two instructions. */
  lemma TwoSlots(it: Byte)
    requires AdvanceItState(it) != 0 && AdvanceItState(AdvanceItState(it)) == 0
    ensures InItBlock(it) && InItBlock(AdvanceItState(it))
  {
    var q, r := it / 32, it % 32;
    var low := if r < 16 then 2 * r else 2 * r - 32;
    assert it % 8 != 0 && AdvanceItState(it) == q * 32 + it * 2 % 32;
    LowBits(q, r);
    LowBits(q, low);
    assert it * 2 % 32 == low by { LowBits(2 * q + (if r < 16 then 0 else 1), low); }
    LowSlots(r, low);
  }

  lemma LowSlots(r: int, low: int)
    requires 0 <= r < 32 && low == if r < 16 then 2 * r else 2 * r - 32
    ensures low % 8 == 0 && r % 8 != 0 ==> r % 16 != 0 && low % 16 != 0
  {
  }

  lemma LowBits(q: int, r: int)
    requires 0 <= r < 32
    ensures (32 * q + r) % 8 == r % 8 && (32 * q + r) % 16 == r % 16 && (32 * q + r) % 32 == r
  {
    assert 32 * q + r == 8 * (4 * q) + r && 32 * q + r == 16 * (2 * q) + r;
  }

  /** The IT instruction outside a block. */
  lemma ItStep(code: Code, c: CpuState, m: Memory)
    requires Ready(c) && c.r[15] % 2 == 0
    requires c.r[15] in code && code[c.r[15]].decoded.kind == It && code[c.r[15]].size == 2
    requires code[c.r[15]].decoded.imm < 0x100
    ensures
      var pc, it := c.r[15], code[c.r[15]].decoded.imm;
      Step(code, c, m)
      == StepResult(Moved(c, pc, Words.Add(pc, 2), it), m, StepComplete, 1)
  {
    hide ExecMov, ApplyAlu, AluOf, ExecLoad, ExecStore, ExecMultiple, ExecBranchExchange, ExecCompareBranch;
    var d := code[c.r[15]].decoded;
    assert ConditionPasses(EffectiveCondition(d, c), c.psr);
    ItExecutes(d, Entered(c, 2), m);
  }

  lemma ItExecutes(d: Decoded, c: CpuState, m: Memory)
    requires d.kind == It && d.imm < 0x100 && !InItBlock(c.itState)
    ensures Execute(d, c, m) == Done(SetItState(c, d.imm), m)
  {
    hide ExecMov, ApplyAlu, AluOf, ExecLoad, ExecStore, ExecMultiple, ExecBranchExchange, ExecCompareBranch;
  }

  lemma MovExecutes(d: Decoded, c: CpuState, m: Memory)
    requires d.kind == Mov && d.form == Immediate && d.rd < 8 && !d.setFlags
    ensures Execute(d, c, m) == Done(c.(r := c.r[d.rd := d.imm]), m)
  {
    hide ApplyAlu, AluOf, ExecLoad, ExecStore, ExecMultiple, ExecBranchExchange, ExecCompareBranch, BranchWritePc;
    assert ApplyAlu(MovAlu(d, c), c) == c.(r := c.r[d.rd := d.imm]) by { MoveApplies(d, c); }
  }

  lemma MoveApplies(d: Decoded, c: CpuState)
    requires d.kind == Mov && d.form == Immediate && d.rd < 8 && !d.setFlags
    ensures ApplyAlu(MovAlu(d, c), c) == c.(r := c.r[d.rd := d.imm])
  {
  }

  /** An instruction in an IT block: predicated on the block, flags suppressed, IT state advanced. */
  lemma RetireInIt(d: Decoded, size: int, c: CpuState, m: Memory)
    requires InItBlock(c.itState) && d.kind != It && d.setFlags && SuppressFlagsInIt(d.kind)
    ensures
      var passed := ConditionPasses(CurrentItCondition(c.itState), c.psr);
      var e := if passed then Execute(d.(setFlags := false), Entered(c, size), m) else Done(Entered(c, size), m);
      e.stop == StepComplete && e.cpu.r[15] == Words.Add(c.r[15], size) ==>
        Retire(d, size, c, m)
        == StepResult(SetItState(e.cpu, AdvanceItState(e.cpu.itState)), e.mem, StepComplete,
                      if passed then BasePipelineCycles(d) else 1)
  {
    hide Execute, InItBlock, AdvanceItState, CurrentItCondition, ConditionPasses, BasePipelineCycles, Entered,
      Words.Add;
  }

  lemma MovFacts(d: Decoded)
    requires d.kind == Mov
    ensures SuppressFlagsInIt(d.kind) && BasePipelineCycles(d) == 1
  {
  }

  lemma EnteredAt(c: CpuState, reg: nat, v: Word)
    requires reg < 8
    ensures
      var c1, pc := Entered(c, 2), c.r[15];
      && c1.r[15] == Words.Add(pc, 2) && c1.itState == c.itState && c1.psr == c.psr
      && c1 == WithPc(c, Words.Add(pc, 2)).(instructionAddress := pc)
      && c1.(r := c1.r[reg := v]) == WithPc(c.(r := c.r[reg := v]), Words.Add(pc, 2)).(instructionAddress := pc)
  {
  }

  lemma AddTwice(pc: Word, a: nat, b: nat)
    requires a <= 4 && b <= 4
    ensures Words.Add(Words.Add(pc, a), b) == Words.Add(pc, a + b)
    ensures pc % 2 == 0 && a % 2 == 0 ==> Words.Add(pc, a) % 2 == 0
  {
    WrapNear(pc + a);
    WrapNear(pc + a + b);
    WrapNear(Words.Add(pc, a) + b);
  }

  /** A MOV immediate inside an IT block: predicated, and without flags. */
  lemma PredicatedMov(code: Code, c: CpuState, m: Memory, halfword: nat)
    requires !c.halted && c.thumb && c.psr.t && InItBlock(c.itState)
    requires c.r[15] % 2 == 0
    requires c.r[15] in code && code[c.r[15]].size == 2 && MovDecoded(halfword, code[c.r[15]].decoded)
    ensures
      var pc := c.r[15];
      var after := if ConditionPasses(CurrentItCondition(c.itState), c.psr)
                   then SetReg(c, halfword / 0x100 % 8, halfword % 0x100) else c;
      Step(code, c, m) == StepResult(Moved(after, pc, Words.Add(pc, 2), AdvanceItState(c.itState)), m, StepComplete, 1)
  {
    hide Execute, InItBlock, AdvanceItState, CurrentItCondition, ConditionPasses, Entered, Retire, BasePipelineCycles,
      Words.Add;
    var pc, d := c.r[15], code[c.r[15]].decoded;
    EnteredAt(c, halfword / 0x100 % 8, halfword % 0x100);
    MovFacts(d);
    MovExecutes(d.(setFlags := false), Entered(c, 2), m);
    RetireInIt(d, 2, c, m);
  }

  /** What recognition guarantees about the IT state bytes and the two conditions. */
  lemma PairFacts(it: Byte, first: nat, second: nat, p: Psr)
    requires RecognisePair(it, first, second).Pair?
    ensures
      var pair, next := RecognisePair(it, first, second), AdvanceItState(it);
      && pair == Pair(first / 0x100 % 8, first % 0x100, second / 0x100 % 8, second % 0x100, CurrentItCondition(it))
      && InItBlock(it) && InItBlock(next) && AdvanceItState(next) == 0
      && ConditionPasses(CurrentItCondition(next), p.(it := next)) == !ConditionPasses(pair.condition, p)
  {
    hide AdvanceItState, ConditionPasses, ConditionOf, InItBlock, Opposite, IsMovImmediate;
    var next := AdvanceItState(it);
    TwoSlots(it);
    OppositeCondition(it / 16, p);
    ItIgnored(CurrentItCondition(next), p, next);
  }

  function PairMoves(p: Pair, c: CpuState): CpuState
    requires p.Pair? && p.thenReg < 8 && p.elseReg < 8
  {
    if ConditionPasses(p.condition, c.psr) then SetReg(c, p.thenReg, p.thenValue) else SetReg(c, p.elseReg, p.elseValue)
  }

  lemma SetRegParts(c: CpuState, reg: nat, v: Word)
    requires reg < 8
    ensures var c1 := SetReg(c, reg, v); c1.psr == c.psr && c1.halted == c.halted && c1.thumb == c.thumb
  {
  }

  /** Two predicated moves after an IT: exactly one of them happens. */
  lemma TwoMoves(code: Code, c: CpuState, m: Memory, it: Byte, first: nat, second: nat)
    requires !c.halted && c.thumb && c.psr.t && c.itState == it
    requires c.r[15] % 2 == 0 && RecognisePair(it, first, second).Pair?
    requires c.r[15] in code && code[c.r[15]].size == 2 && MovDecoded(first, code[c.r[15]].decoded)
    requires Words.Add(c.r[15], 2) in code && code[Words.Add(c.r[15], 2)].size == 2
    requires MovDecoded(second, code[Words.Add(c.r[15], 2)].decoded)
    ensures
      var s := Step(code, c, m);
      var t := Step(code, s.cpu, s.mem);
      var p := RecognisePair(it, first, second);
      && s.stop == StepComplete && s.cycles == 1 && s.cpu.r[15] == Words.Add(c.r[15], 2) && s.mem == m
      && p.thenReg < 8 && p.elseReg < 8
      && t == StepResult(Moved(PairMoves(p, c), Words.Add(c.r[15], 2), Words.Add(c.r[15], 4), 0), m, StepComplete, 1)
  {
    hide Step, InItBlock, AdvanceItState, ConditionPasses, CurrentItCondition, RecognisePair, MovDecoded, Moved, SetReg,
      Words.Add;
    var p, next, pc := RecognisePair(it, first, second), AdvanceItState(it), c.r[15];
    PairFacts(it, first, second, c.psr);
    PredicatedMov(code, c, m, first);
    var after := if ConditionPasses(p.condition, c.psr) then SetReg(c, p.thenReg, p.thenValue) else c;
    assert after.psr == c.psr && after.halted == c.halted
           && after.thumb == c.thumb by { SetRegParts(c, p.thenReg, p.thenValue); }
    MovedParts(after, pc, Words.Add(pc, 2), next);
    AddTwice(pc, 2, 2);
    PredicatedMov(code, Moved(after, pc, Words.Add(pc, 2), next), m, second);
    MovedTwice(after, pc, Words.Add(pc, 2), next, Words.Add(pc, 2), Words.Add(pc, 4), 0, p.elseReg, p.elseValue);
  }

  lemma ItIgnored(k: Condition, p: Psr, it: Byte)
    ensures ConditionPasses(k, p.(it := it)) == ConditionPasses(k, p)
  {
  }

  lemma ThreeCharged(
    code: Code, stall: StallFn, c: CpuState, m: Memory, f: Fetch, x: StepResult, y: StepResult, z: StepResult)
    requires x == Step(code, c, m) && y == Step(code, x.cpu, x.mem) && z == Step(code, y.cpu, y.mem)
    requires x.stop == y.stop == z.stop == StepComplete
    ensures
      var p, q, r := c.r[15], x.cpu.r[15], y.cpu.r[15];
      var f1 := Fetch(true, Words.Add(p, FetchedSize(code, p)));
      var f2 := Fetch(true, Words.Add(q, FetchedSize(code, q)));
      ChargedSteps(code, stall, c, m, f, 3)
      == Some(Charged(z.cpu, z.mem, Fetch(true, Words.Add(r, FetchedSize(code, r))),
                      x.cycles + stall(p, Sequential(f, p)) + (y.cycles + stall(q, Sequential(f1, q))
                      + (z.cycles + stall(r, Sequential(f2, r))))))
  {
    hide Step, FetchedSize, Words.Add, Sequential;
    var p, q, r := c.r[15], x.cpu.r[15], y.cpu.r[15];
    var f1 := Fetch(true, Words.Add(p, FetchedSize(code, p)));
    var f2 := Fetch(true, Words.Add(q, FetchedSize(code, q)));
    var f3 := Fetch(true, Words.Add(r, FetchedSize(code, r)));
    assert ChargedSteps(code, stall, z.cpu, z.mem, f3, 0) == Some(Charged(z.cpu, z.mem, f3, 0));
    assert ChargedSteps(code, stall, y.cpu, y.mem, f2, 1)
      == Some(Charged(z.cpu, z.mem, f3, z.cycles + stall(r, Sequential(f2, r))));
    assert ChargedSteps(code, stall, x.cpu, x.mem, f1, 2)
      == Some(Charged(z.cpu, z.mem, f3, y.cycles + stall(q, Sequential(f1, q))
        + (z.cycles + stall(r, Sequential(f2, r)))));
  }

  /** IT-pair fusion: the fused step is the three checked steps of the pair, in registers, flags,
      IT state, PC, instruction address, count, fetch state and cycles. */
  lemma PairIsThreeSteps(code: Code, env: Env, op: RegionOp, l: Live, it: Byte, first: nat, second: nat)
    requires PairCoded(code, op, it, first, second)
    requires Ready(l.cpu) && l.cpu.itState == 0
    ensures
      var after := PairAct(env, op, l);
      && after.count == l.count + 3
      && ChargedSteps(code, RegionStall(env), Materialise(l, op.pc), l.mem, l.fetch, 3)
         == Some(Charged(Materialise(after, Words.Add(op.pc, 6)), after.mem, after.fetch, after.cycles - l.cycles))
  {
    hide Step, ConditionPasses, AdvanceItState, ChargedSteps, RecognisePair, MovDecoded, InItBlock, CurrentItCondition,
      Moved, SetReg, PairAct, Materialise, Words.Add;
    var pc, p := op.pc, op.pair;
    AddTwice(pc, 2, 2);
    AddTwice(pc, 2, 4);
    AddTwice(pc, 4, 2);
    var c := Materialise(l, pc);
    PairFacts(it, first, second, l.cpu.psr);
    MaterialParts(l, pc);
    ItStep(code, c, l.mem);
    var x := Step(code, c, l.mem);
    MovedParts(c, pc, Words.Add(pc, 2), it);
    TwoMoves(code, x.cpu, l.mem, it, first, second);
    ItIgnored(p.condition, l.cpu.psr, it);
    var y := Step(code, x.cpu, x.mem);
    ThreeCharged(code, RegionStall(env), c, l.mem, l.fetch, x, y, Step(code, y.cpu, y.mem));
    MovedTwice(c, pc, Words.Add(pc, 2), it, Words.Add(pc, 4), Words.Add(pc, 6), 0, p.thenReg, p.thenValue);
    MovedTwice(c, pc, Words.Add(pc, 2), it, Words.Add(pc, 4), Words.Add(pc, 6), 0, p.elseReg, p.elseValue);
    PairMaterial(env, op, l);
  }

  lemma MaterialParts(l: Live, pc: Word)
    ensures
      var c := Materialise(l, pc);
      c.r[15] == pc && c.psr == l.cpu.psr && c.halted == l.cpu.halted && c.thumb == l.cpu.thumb
        && c.itState == l.cpu.itState
  {
  }

  /** The fused pair on the published core. */
  lemma PairMaterial(env: Env, op: RegionOp, l: Live)
    requires op.pair.Pair? && op.pair.thenReg < 8 && op.pair.elseReg < 8 && l.cpu.itState == 0
    ensures
      var after := PairAct(env, op, l);
      && Materialise(after, Words.Add(op.pc, 6))
         == Moved(PairMoves(op.pair, Materialise(l, op.pc)), Words.Add(op.pc, 4), Words.Add(op.pc, 6), 0)
      && after.mem == l.mem && after.count == l.count + 3 && after.fetch == Fetch(true, Words.Add(op.pc, 6))
      && after.cycles == l.cycles + 3 + StallAt(env, l.fetch, op.pc) + 2 * env.sequentialStall
  {
    hide ConditionPasses;
    var p, c := op.pair, Materialise(l, op.pc);
    assert c.r[p.thenReg := p.thenValue][15 := Words.Add(op.pc, 6)]
           == l.cpu.r[p.thenReg := p.thenValue][15 := Words.Add(op.pc, 6)];
    assert c.r[p.elseReg := p.elseValue][15 := Words.Add(op.pc, 6)]
           == l.cpu.r[p.elseReg := p.elseValue][15 := Words.Add(op.pc, 6)];
  }
}
