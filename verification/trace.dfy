/** Reference execution of a validated native trace, checked op by op or under an admitted cycle
    prefix, after executeNativeTrace in src/cpu/micro_jit.cpp and native_execution.cpp. */
module Trace {
  import opened Words
  import opened Cpu
  import opened Micro
  import opened Lowering
  import opened Native
  import opened Stack
  import opened Sums

  datatype TraceExit =
    | NoExit | InstructionLimit | CycleLimit | HelperDeclined | BranchMismatch | UnsupportedInstruction | DynamicReturn

  /** The caller's side of the execution context. `charged` is the cost of each op; `prefix` is the
      optional admitted table of running sums. */
  datatype Params = Params(
    ops: seq<TraceOp>, instructionLimit: nat, cycleLimit: nat,
    charged: seq<nat>, prefix: Option<seq<nat>>, allowDynamic: bool, bus: Bus)

  /** The mutable side: core, memory and progress. */
  datatype Progress = Progress(
    cpu: CpuState, mem: Memory, retired: nat, cycles: nat, boundaryStop: bool, exit: TraceExit)

  /** nativeAdmittedCyclePrefixValid. */
  predicate PrefixValid(p: Params, retiredCycles: nat) {
    && p.prefix.Some?
    && p.instructionLimit <= |p.charged| && p.instructionLimit < |p.prefix.value|
    && retiredCycles == 0
    && p.prefix.value[0] == 0 && p.prefix.value[p.instructionLimit] <= p.cycleLimit
  }

  /** Whether a recorded branch leaves the way this core would take it. */
  predicate BranchTaken(op: TraceOp, c: CpuState) {
    var inst := op.native.integer;
    match inst.op
    case OpB | OpBl => true
    case BCond => ConditionPasses(inst.condition, c.psr)
    case OpCbz => ReadRegister(c, inst.rn) == 0
    case OpCbnz => ReadRegister(c, inst.rn) != 0
    case _ => false
  }

  /** The guard in front of every op: the recorded edge is the one this core takes. */
  predicate GuardHolds(op: TraceOp, c: CpuState) {
    match op.native.kind
    case BxLr => c.r[14] % 2 == 1 && c.r[14] == SetBit0(op.expectedNextPc) && !InTokenBlock(c.r[14])
    case BlxReg =>
      op.native.rn < 16 && c.r[op.native.rn] == SetBit0(op.expectedNextPc) && !InTokenBlock(c.r[op.native.rn])
    case _ => IsBranchOp(op.native.integer.op) ==> BranchTaken(op, c) == op.expectedTaken
  }

  function MemoryAddress(n: NativeInst, c: CpuState): Word {
    if n.absolute then n.absoluteAddress else Words.Add(ReadRegister(c, n.rn), n.offset)
  }

  datatype OpResult =
    | Retired(cpu: CpuState, mem: Memory, stop: bool)
    | ReturnedElsewhere(cpu: CpuState, mem: Memory)
    | DeclinedOp
    | MismatchedOp

  function StackOp(op: TraceOp, c: CpuState, m: Memory, bus: Bus, allowDynamic: bool): OpResult {
    var push := op.decoded.kind == Push;
    var regs := StackRegs(op.decoded.registerList, push);
    match if push then PushTransfer(regs, c, m, bus, op.pc)
          else PopTransfer(regs, c, m, bus, op.pc, op.expectedNextPc, allowDynamic)
    case Transferred(c1, m1) => Retired(WithPc(c1, op.expectedNextPc).(instructionAddress := op.pc), m1, false)
    case Dynamic(c1, m1) => ReturnedElsewhere(c1.(instructionAddress := op.pc), m1)
    case TransferDeclined => DeclinedOp
    case TransferMismatch => MismatchedOp
  }

  function MemoryStep(op: TraceOp, c: CpuState, m: Memory, bus: Bus, cycles: nat): OpResult {
    var n := op.native;
    var address := MemoryAddress(n, c);
    if IsLoad(n.kind) then
      match bus.read(cycles, op.pc, address, WidthOf(n.kind), m)
      case ReadDeclined => DeclinedOp
      case ReadOk(value, m1, stop) =>
        var c1 := if n.rd < 16 then c.(r := c.r[n.rd := SignedLoad(n.kind, value)]) else c;
        Retired(WithPc(c1, op.expectedNextPc).(instructionAddress := op.pc), m1, stop)
    else
      match bus.write(cycles, op.pc, address, WidthOf(n.kind), if n.rd < 16 then c.r[n.rd] else 0, m)
      case WriteDeclined => DeclinedOp
      case WriteOk(m1, stop) => Retired(WithPc(c, op.expectedNextPc).(instructionAddress := op.pc), m1, stop)
  }

  /** Integer, branch and indirect-branch ops have no helper and cannot decline. */
  function PlainOp(op: TraceOp, c: CpuState): CpuState {
    var inst := op.native.integer;
    var c1 :=
      if op.native.kind == BxLr then c
      else if op.native.kind == BlxReg || inst.op == OpBl then WithLr(c, SetBit0(Words.Add(op.pc, op.size)))
      else if IsBranchOp(inst.op) then c
      else Publish(MicroStep(inst, View(c)), c, op.pc);
    WithPc(c1, op.expectedNextPc).(instructionAddress := op.pc)
  }

  /** The effects of one op once its guard and its cycle admission hold. `cycles` is what the memory
      helpers observe as already retired. */
  function OpEffect(op: TraceOp, c: CpuState, m: Memory, bus: Bus, cycles: nat, allowDynamic: bool): OpResult {
    if IsStack(op.decoded) then StackOp(op, c, m, bus, allowDynamic)
    else if IsMemory(op.native.kind) then MemoryStep(op, c, m, bus, cycles)
    else Retired(PlainOp(op, c), m, false)
  }

  /** One pass of the loop body at op `i`: the new progress, and whether the loop goes on. */
  function Iterate(p: Params, admitted: bool, i: nat, s: Progress): (Progress, bool)
    requires i < |p.ops|
    requires admitted ==> p.prefix.Some? && p.instructionLimit < |p.prefix.value| && s.retired == i
  {
    var op := p.ops[i];
    if s.retired >= p.instructionLimit || s.boundaryStop then (s.(exit := InstructionLimit), false)
    else if !admitted && i >= |p.charged| then (s.(exit := UnsupportedInstruction), false)
    else if !GuardHolds(op, s.cpu) then (s.(exit := BranchMismatch), false)
    else if !admitted && s.cycles + p.charged[i] > p.cycleLimit then (s.(exit := CycleLimit), false)
    else
      var helperCycles := if admitted && IsMemory(op.native.kind) then p.prefix.value[i] else s.cycles;
      var charged := if admitted then helperCycles else s.cycles + p.charged[i];
      match OpEffect(op, s.cpu, s.mem, p.bus, helperCycles, p.allowDynamic)
      case Retired(c1, m1, stop) =>
        (Progress(c1, m1, s.retired + 1, charged, s.boundaryStop || stop, s.exit), true)
      case ReturnedElsewhere(c1, m1) =>
        (Progress(c1, m1, s.retired + 1, charged, s.boundaryStop, DynamicReturn), false)
      case DeclinedOp => (s.(cycles := helperCycles, exit := HelperDeclined), false)
      case MismatchedOp => (s.(exit := BranchMismatch), false)
  }

  /** The loop from op `i` on. */
  function Loop(p: Params, admitted: bool, i: nat, s: Progress): (r: Progress)
    requires i <= |p.ops| && s.retired == i
    requires admitted ==> p.prefix.Some? && p.instructionLimit < |p.prefix.value|
    requires admitted ==> i <= p.instructionLimit
    ensures i <= r.retired <= |p.ops|
    ensures admitted ==> r.retired <= p.instructionLimit
    decreases |p.ops| - i
  {
    if i == |p.ops| then s
    else
      var (s1, more) := Iterate(p, admitted, i, s);
      if more then Loop(p, admitted, i + 1, s1) else s1
  }

  /** The whole call: counters reset, admission validated once, cycles published at the end. */
  function Run(p: Params, s: Progress): Progress {
    var admitted := PrefixValid(p, s.cycles);
    var r := Loop(p, admitted, 0, s.(retired := 0, exit := NoExit));
    if admitted then r.(cycles := p.prefix.value[r.retired]) else r
  }

  /** The execution context with the kernel's own loop. */
  class Context {
    var state: Progress

    constructor (start: Progress)
      ensures state == start
    {
      state := start;
    }

    method Execute(p: Params)
      modifies this
      ensures state == Run(p, old(state))
    {
      hide GuardHolds, OpEffect, PrefixValid;
      state := state.(retired := 0, exit := NoExit);
      var admitted := PrefixValid(p, state.cycles);
      assert admitted ==> p.prefix.Some? && p.instructionLimit < |p.prefix.value| by {
        if admitted { PrefixHasRoom(p, state.cycles); }
      }
      ghost var start := state;
      var i := 0;
      var running := true;
      while running && i < |p.ops|
        invariant 0 <= i <= |p.ops|
        invariant running ==> state.retired == i && (admitted ==> i <= p.instructionLimit)
        invariant state.retired <= |p.ops| && (admitted ==> state.retired <= p.instructionLimit)
        invariant Loop(p, admitted, 0, start) == if running then Loop(p, admitted, i, state) else state
        decreases |p.ops| - i, running
      {
        var (next, more) := Iterate(p, admitted, i, state);
        state, running := next, more;
        if more { i := i + 1; }
      }
      if admitted { state := state.(cycles := p.prefix.value[state.retired]); }
    }
  }

  lemma PrefixHasRoom(p: Params, cycles: nat)
    requires PrefixValid(p, cycles)
    ensures p.prefix.Some? && p.instructionLimit < |p.prefix.value| && p.instructionLimit <= |p.charged|
  {
  }
}
