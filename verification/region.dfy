/** Native regions: a compiled control-flow graph executed one op at a time, after the entry,
    guard and body code that compileRegionPlan in src/cpu/micro_jit.cpp emits for every op. */
module Region {
  import opened Words
  import opened Cpu
  import opened Micro
  import opened Lowering
  import opened Native
  import opened Stack
  import opened Timing

  datatype Flow = FlowNext | Jump | Conditional | Call | Indirect | CheckedFlow

  datatype Addressing = Addressing(
    rm: nat, shift: nat, registerOffset: bool, add: bool, index: bool, writeback: bool)

  /** An IT-then-else pair of immediate moves recognised at an IT instruction. */
  datatype Pair = NoPair | Pair(thenReg: nat, thenValue: Word, elseReg: nat, elseValue: Word, condition: Condition)

  /** One node of the graph. A missing edge leaves the region. */
  datatype RegionOp = RegionOp(
    inst: NativeInst, regs: seq<nat>, push: bool, address: Addressing, pair: Pair,
    pc: Word, size: int, fallthrough: Word, target: Word,
    fallthroughCycles: nat, takenCycles: nat, flow: Flow, edge0: Option<nat>, edge1: Option<nat>)

  predicate IsStackOp(op: RegionOp) {
    op.regs != []
  }

  /** A directly bound span of guest memory. */
  datatype Window = Window(begin: Word, size: Word)

  /** Limits, fetch costs and memory bindings of one invocation. */
  datatype Env = Env(
    instructionLimit: nat, cycleLimit: nat, sequentialStall: nat, nonsequentialStall: nat,
    ram: Window, code: Window, write: Window)

  /** The emitted window test: 32-bit differences and one unsigned comparison. */
  predicate InWindow(w: Window, a: Word, width: nat) {
    w.size >= width && Words.Sub(a, w.begin) <= w.size - width
  }

  predicate Inside(w: Window, a: Word, width: nat) {
    w.begin <= a && a + width <= w.begin + w.size
  }

  /** The wrapping test admits exactly the accesses inside a window that does not wrap. */
  lemma WindowExact(w: Window, a: Word, width: nat)
    requires w.begin + w.size <= 0x1_0000_0000 && width > 0
    ensures InWindow(w, a, width) <==> Inside(w, a, width)
  {
    assert Words.Sub(a, w.begin) == if a >= w.begin then a - w.begin else a - w.begin + 0x1_0000_0000;
  }

  predicate ReadGuard(env: Env, a: Word, width: nat) {
    InWindow(env.ram, a, width) || InWindow(env.code, a, width)
  }

  predicate WriteGuard(env: Env, a: Word, width: nat) {
    InWindow(env.write, a, width)
  }

  // ---------------------------------------------------------------- effects of one op

  /** The guest state native code keeps live; `last` and `fetch` are the packed address of the
      last retired op and its fetch end. r15 is written only when the region is left. */
  datatype Live = Live(cpu: CpuState, mem: Memory, count: nat, cycles: nat, fetch: Fetch, last: Word)

  /** What the guards and effects of an op produce, before its cycles are admitted. */
  datatype Act = Miss | Act(cpu: CpuState, mem: Memory, taken: bool, dest: Word)

  function RegionOffset(op: RegionOp, c: CpuState): Word {
    if op.address.registerOffset
    then (if op.address.shift == 0 then ReadRegister(c, op.address.rm)
          else ShiftLeft(ReadRegister(c, op.address.rm), op.address.shift))
    else op.inst.offset
  }

  /** Base plus or minus offset: the indexed address and the written-back base. */
  function IndexedAddress(op: RegionOp, c: CpuState): Word {
    var base := ReadRegister(c, op.inst.rn);
    if op.address.add then Words.Add(base, RegionOffset(op, c)) else Words.Sub(base, RegionOffset(op, c))
  }

  function AccessAddress(op: RegionOp, c: CpuState): Word {
    if op.inst.absolute then op.inst.absoluteAddress
    else if op.address.index then IndexedAddress(op, c) else ReadRegister(c, op.inst.rn)
  }

  function BaseWriteback(op: RegionOp, c: CpuState, value: Word): CpuState {
    if !op.inst.absolute && op.address.writeback then WriteRegister(c, op.inst.rn, value) else c
  }

  /** Guarded access, data register, then base register. */
  function MemoryAct(env: Env, op: RegionOp, c: CpuState, m: Memory): Act {
    var a := AccessAddress(op, c);
    var w := WidthOf(op.inst.kind);
    if IsLoad(op.inst.kind) then
      if !ReadGuard(env, a, Bytes(w)) then Miss
      else
        match Load(m, a, w)
        case None => Miss
        case Some(v) =>
          Act(BaseWriteback(op, WriteRegister(c, op.inst.rd, SignedLoad(op.inst.kind, v)), IndexedAddress(op, c)), m,
            false, 0)
    else
      if !WriteGuard(env, a, Bytes(w)) then Miss
      else
        match Store(m, a, w, ReadRegister(c, op.inst.rd))
        case None => Miss
        case Some(m1) => Act(BaseWriteback(op, c, IndexedAddress(op, c)), m1, false, 0)
  }

  /** Every EXC_RETURN token, basic or extended, fails the region's return guard. */
  predicate ReturnGuard(target: Word) {
    target % 2 == 1 && target < 0xffff_ffe0
  }

  function StackAct(env: Env, op: RegionOp, c: CpuState, m: Memory): Act
    requires RegNumbers(op.regs)
  {
    var bytes := 4 * |op.regs|;
    var sp := ActiveSp(c);
    if op.push then
      if sp < bytes || !WriteGuard(env, sp - bytes, bytes) then Miss
      else
        match StoreWords(m, sp - bytes, Values(c, op.regs))
        case None => Miss
        case Some(m1) => Act(WriteRegister(c, 13, sp - bytes), m1, false, 0)
    else if !ReadGuard(env, sp, bytes) then Miss
    else
      match LoadWords(m, sp, |op.regs|)
      case None => Miss
      case Some(words) =>
        // The live core keeps r15; the popped PC is the destination.
        var popped := WithPc(PopCommit(op.regs, c, words), c.r[15]);
        if !LoadsPc(op.regs) then Act(popped, m, false, 0)
        else
          var target := words[|words| - 1];
          if !ReturnGuard(target) then Miss
          else Act(popped, m, ClearBit0(target) != op.fallthrough, ClearBit0(target))
  }

  function IndirectAct(op: RegionOp, c: CpuState, m: Memory): Act {
    var reg := if op.inst.kind == BxLr then 14 else op.inst.rn;
    var target := if reg < 16 then c.r[reg] else 0;
    if !ReturnGuard(target) then Miss
    else Act(if op.inst.kind == BlxReg then WithLr(c, SetBit0(op.fallthrough)) else c, m,
             ClearBit0(target) != op.fallthrough, ClearBit0(target))
  }

  predicate BranchPasses(inst: MicroInst, c: CpuState) {
    if inst.op == OpCbz then ReadRegister(c, inst.rn) == 0
    else if inst.op == OpCbnz then ReadRegister(c, inst.rn) != 0
    else ConditionPasses(inst.condition, c.psr)
  }

  /** An integer op on the live core. */
  function IntegerEffect(inst: MicroInst, c: CpuState): CpuState {
    ApplyAlu(Effect(inst, View(c)), c)
  }

  function ActOf(env: Env, op: RegionOp, c: CpuState, m: Memory): Act
    requires RegNumbers(op.regs)
  {
    if IsStackOp(op) then StackAct(env, op, c, m)
    else if IsMemory(op.inst.kind) then MemoryAct(env, op, c, m)
    else
      match op.flow
      case Indirect => IndirectAct(op, c, m)
      case Conditional => Act(c, m, BranchPasses(op.inst.integer, c), 0)
      case Jump => Act(c, m, true, 0)
      case Call => Act(WithLr(c, SetBit0(op.fallthrough)), m, true, 0)
      case FlowNext => Act(IntegerEffect(op.inst.integer, c), m, false, 0)
      case CheckedFlow => Miss
  }

  // ---------------------------------------------------------------- one op at a time

  datatype RegionExit = InstructionBudget | CycleBudget | CheckedInstruction | ExternalEdge

  datatype Next = Goto(index: nat) | Leave(exit: RegionExit, pc: Word)

  type Plan = seq<RegionOp>

  /** A plan whose edges stay inside it and whose register plans are register numbers. */
  predicate WellFormed(plan: Plan) {
    forall i | 0 <= i < |plan| ::
      && RegNumbers(plan[i].regs)
      && (plan[i].edge0.Some? ==> plan[i].edge0.value < |plan|)
      && (plan[i].edge1.Some? ==> plan[i].edge1.value < |plan|)
  }

  function StallAt(env: Env, f: Fetch, pc: Word): nat {
    if Sequential(f, pc) then env.sequentialStall else env.nonsequentialStall
  }

  /** The address switch: the node at `pc`, if the region has one. */
  function Dispatch(plan: Plan, pc: Word, i: nat): (r: Option<nat>)
    requires i <= |plan|
    ensures r.Some? ==> i <= r.value < |plan| && plan[r.value].pc == pc
    ensures r.None? ==> forall k | i <= k < |plan| :: plan[k].pc != pc
    decreases |plan| - i
  {
    if i == |plan| then None else if plan[i].pc == pc then Some(i) else Dispatch(plan, pc, i + 1)
  }

  function Link(index: Option<nat>, pc: Word): Next {
    if index.Some? then Goto(index.value) else Leave(ExternalEdge, pc)
  }

  function EdgeOf(op: RegionOp, taken: bool): Next {
    Link(if op.flow == Conditional && taken then op.edge1 else op.edge0,
         if taken || op.flow == Jump || op.flow == Call then op.target else op.fallthrough)
  }

  function Continue(plan: Plan, op: RegionOp, act: Act): Next
    requires act.Act?
  {
    if op.flow == Indirect then Link(Dispatch(plan, act.dest, 0), act.dest) else EdgeOf(op, act.taken)
  }

  function ChargeOf(env: Env, op: RegionOp, taken: bool, f: Fetch): nat {
    (if taken then op.takenCycles else op.fallthroughCycles) + StallAt(env, f, op.pc)
  }

  /** Whether the fused IT pair at `op` is admitted. */
  predicate PairAdmitted(env: Env, op: RegionOp, l: Live) {
    && op.pair.Pair? && l.count + 3 <= env.instructionLimit
    && l.cycles + 3 + StallAt(env, l.fetch, op.pc) + 2 * env.sequentialStall <= env.cycleLimit
  }

  /** The fused IT pair: one move, IT bits cleared, three instructions retired. */
  function PairAct(env: Env, op: RegionOp, l: Live): Live
    requires op.pair.Pair?
  {
    var p := op.pair;
    var c := if ConditionPasses(p.condition, l.cpu.psr) then WriteRegister(l.cpu, p.thenReg, p.thenValue)
             else WriteRegister(l.cpu, p.elseReg, p.elseValue);
    Live(c.(psr := c.psr.(it := 0)), l.mem, l.count + 3,
         l.cycles + 3 + StallAt(env, l.fetch, op.pc) + 2 * env.sequentialStall,
         Fetch(true, Words.Add(op.pc, 6)), Words.Add(op.pc, 4))
  }

  /** Entering node `i`: limit check, fused IT pair, guards, cycle admission, effects, edge. */
  function OneOp(env: Env, plan: Plan, i: nat, l: Live): (r: (Live, Next))
    requires WellFormed(plan) && i < |plan|
    ensures r.1.Goto? ==> r.1.index < |plan| && l.count < r.0.count && l.count < env.instructionLimit
  {
    var op := plan[i];
    if l.count >= env.instructionLimit then (l, Leave(InstructionBudget, op.pc))
    else if PairAdmitted(env, op, l) then (PairAct(env, op, l), Link(op.edge0, Words.Add(op.pc, 6)))
    else if op.flow == CheckedFlow then (l, Leave(CheckedInstruction, op.pc))
    else
      var act := ActOf(env, op, l.cpu, l.mem);
      if act.Miss? then (l, Leave(CheckedInstruction, op.pc))
      else
        var charge := ChargeOf(env, op, act.taken, l.fetch);
        if l.cycles + charge > env.cycleLimit then (l, Leave(CycleBudget, op.pc))
        else
          (Live(act.cpu, act.mem, l.count + 1, l.cycles + charge, Fetch(true, op.fallthrough), op.pc),
           Continue(plan, op, act))
  }

  datatype Outcome = Outcome(live: Live, exit: RegionExit, pc: Word)

  /** One-op-at-a-time execution from node `i` to the exit. */
  function RunPlain(env: Env, plan: Plan, i: nat, l: Live): Outcome
    requires WellFormed(plan) && i < |plan|
    decreases if l.count < env.instructionLimit then env.instructionLimit - l.count else 0
  {
    var (l1, next) := OneOp(env, plan, i, l);
    match next
    case Leave(exit, pc) => Outcome(l1, exit, pc)
    case Goto(j) => RunPlain(env, plan, j, l1)
  }
}
