/** Effect summaries of native traces: which prefix touches only private memory, after
    src/cpu/effect_summary.cpp. */
module Effects {
  import opened Words
  import opened Cpu
  import opened Micro
  import opened Lowering
  import opened Native
  import opened Stack
  import opened Trace
  import opened Refinement
  import opened Frames

  datatype PrivateRegion = PrivateRegion(begin: Word, end: Word)

  datatype Facts = Facts(regions: seq<PrivateRegion>, stackPointer: Option<Word>)

  /** Every byte from `a` to `a + size` lies in one private region. */
  predicate Private(facts: Facts, a: int, size: nat) {
    size == 0 || exists i :: 0 <= i < |facts.regions| && facts.regions[i].begin <= a && a + size <= facts.regions[i].end
  }

  /** PrivateMemoryFacts::contains. */
  method Contains(facts: Facts, address: Word, size: nat) returns (r: bool)
    ensures r == Private(facts, address, size)
  {
    if size == 0 { return true; }
    var end := address + size;
    if end > 0x1_0000_0000 { return false; }
    var i := 0;
    while i < |facts.regions|
      invariant 0 <= i <= |facts.regions|
      invariant forall k | 0 <= k < i :: !(facts.regions[k].begin <= address && end <= facts.regions[k].end)
    {
      var region := facts.regions[i];
      if region.end > region.begin && address >= region.begin && end <= region.end { return true; }
      i := i + 1;
    }
    return false;
  }

  // ---------------------------------------------------------------- the abstract step

  function StackBytes(d: Decoded): nat {
    4 * Count(d.registerList)
  }

  predicate IsControl(op: TraceOp) {
    if IsStack(op.decoded) then PopsPc(op.decoded)
    else op.native.kind == Integer && IsBranchOp(op.native.integer.op)
  }

  /** The address a scalar access is summarised at, if it is known. */
  function KnownAddress(n: NativeInst, sp: Option<Word>): Option<Word> {
    if n.absolute then Some(n.absoluteAddress)
    else if n.rn == 13 && sp.Some? then Some(Words.Add(sp.value, n.offset))
    else None
  }

  /** Whether op is proved private when the stack pointer before it is `sp`. */
  predicate Local(facts: Facts, op: TraceOp, sp: Option<Word>) {
    var bytes := StackBytes(op.decoded);
    if IsStack(op.decoded) then
      && sp.Some? && bytes != 0
      && (if op.decoded.kind == Push then sp.value >= bytes && Private(facts, sp.value - bytes, bytes)
          else Private(facts, sp.value, bytes))
    else if op.native.kind == Integer then true
    else if IsMemory(op.native.kind) then
      KnownAddress(op.native, sp).Some? && Private(facts, KnownAddress(op.native, sp).value, 4)
    else false
  }

  /** The stack pointer after a private op. */
  function SpAfter(op: TraceOp, sp: Option<Word>): Option<Word> {
    if !IsStack(op.decoded) || sp == None then sp
    else if op.decoded.kind == Push then Some(Words.Sub(sp.value, StackBytes(op.decoded)))
    else Some(Words.Add(sp.value, StackBytes(op.decoded)))
  }

  function SpBefore(ops: seq<TraceOp>, facts: Facts, i: nat): Option<Word>
    requires i <= |ops|
  {
    if i == 0 then facts.stackPointer else SpAfter(ops[i - 1], SpBefore(ops, facts, i - 1))
  }

  function Cost(op: TraceOp): nat {
    if op.executionCycles == 0 then 1 else op.executionCycles
  }

  function CostOf(ops: seq<TraceOp>, n: nat): nat
    requires n <= |ops|
  {
    if n == 0 then 0 else CostOf(ops, n - 1) + Cost(ops[n - 1])
  }

  /** Op `i` belongs to the provable window. */
  predicate InWindow(ops: seq<TraceOp>, facts: Facts, i: nat)
    requires i < |ops|
  {
    Local(facts, ops[i], SpBefore(ops, facts, i)) && (IsControl(ops[i]) ==> i + 1 == |ops|)
  }

  datatype Summary = Summary(minimumCycles: nat, localOps: nat, reachesShared: bool, unknownControlFlow: bool)

  /** summarizeNativeEffects: the longest entry prefix of private ops, cut before a branch that is
      not the last op. */
  method Summarize(ops: seq<TraceOp>, facts: Facts) returns (s: Summary)
    ensures s.localOps <= |ops| && s.minimumCycles == CostOf(ops, s.localOps)
    ensures forall i | 0 <= i < s.localOps :: InWindow(ops, facts, i)
    ensures s.localOps < |ops| ==> !InWindow(ops, facts, s.localOps)
    ensures s.reachesShared <==> s.localOps < |ops|
    ensures s.unknownControlFlow <==>
              exists i :: 0 <= i <= s.localOps && i < |ops| && IsControl(ops[i])
                && Local(facts, ops[i], SpBefore(ops, facts, i))
  {
    hide IsControl, Local, SpAfter, Cost;
    var stack := facts.stackPointer;
    var cycles, local, control := 0, 0, false;
    while local < |ops|
      invariant 0 <= local <= |ops| && stack == SpBefore(ops, facts, local) && cycles == CostOf(ops, local)
      invariant forall i | 0 <= i < local :: InWindow(ops, facts, i)
      invariant control <==>
                exists i :: 0 <= i < local && IsControl(ops[i]) && Local(facts, ops[i], SpBefore(ops, facts, i))
    {
      var op := ops[local];
      var isLocal, next := SummarizeOp(facts, op, stack);
      if !isLocal { return Summary(cycles, local, true, control); }
      if IsControl(op) && local + 1 < |ops| { return Summary(cycles, local, true, true); }
      stack := next;
      cycles := cycles + Cost(op);
      if IsControl(op) { control := true; }
      local := local + 1;
    }
    s := Summary(cycles, local, false, control);
  }

  /** One op of the summary loop. */
  method SummarizeOp(facts: Facts, op: TraceOp, stack: Option<Word>) returns (local: bool, next: Option<Word>)
    ensures local == Local(facts, op, stack)
    ensures local ==> next == SpAfter(op, stack)
  {
    hide Private;
    next := stack;
    if IsStack(op.decoded) {
      var bytes := StackBytes(op.decoded);
      if stack == None || bytes == 0 { return false, stack; }
      if op.decoded.kind == Push {
        if stack.value < bytes { return false, stack; }
        local := Contains(facts, stack.value - bytes, bytes);
        if local { next := Some(stack.value - bytes); }
      } else {
        local := Contains(facts, stack.value, bytes);
        if local { next := Some(Words.Add(stack.value, bytes)); }
      }
    } else if op.native.kind == Integer {
      local := true;
    } else if IsMemory(op.native.kind) {
      var address := KnownAddress(op.native, stack);
      if address == None { return false, stack; }
      local := Contains(facts, address.value, 4);
    } else {
      local := false;
    }
  }

  // ---------------------------------------------------------------- soundness

  datatype Footprint = Footprint(begin: int, size: nat)

  /** The bytes an op reads or writes when it runs from `c`. */
  function FootprintOf(op: TraceOp, c: CpuState): Footprint {
    if IsStack(op.decoded) then
      Footprint(if op.decoded.kind == Push then ActiveSp(c) - StackBytes(op.decoded)
        else ActiveSp(c), StackBytes(op.decoded))
    else if IsMemory(op.native.kind) then Footprint(MemoryAddress(op.native, c), Bytes(WidthOf(op.native.kind)))
    else Footprint(0, 0)
  }

  predicate PrivatePrint(facts: Facts, f: Footprint) {
    Private(facts, f.begin, f.size)
  }

  /** Stack pointer selection never changes inside a trace. */
  predicate SameBank(c: CpuState, c1: CpuState) {
    InHandlerMode(c) == InHandlerMode(c1) && c.control == c1.control
  }

  lemma PrivateShrinks(facts: Facts, a: int, size: nat, k: nat)
    requires Private(facts, a, size) && k <= size && size > 0
    ensures Private(facts, a, k)
  {
    var i :| 0 <= i < |facts.regions| && facts.regions[i].begin <= a && a + size <= facts.regions[i].end;
    assert a + k <= facts.regions[i].end;
  }

  /** A private op at the right stack pointer touches only private bytes. */
  lemma LocalIsPrivate(facts: Facts, op: TraceOp, c: CpuState, sp: Option<Word>)
    requires Local(facts, op, sp) && (sp.Some? ==> sp.value == ActiveSp(c))
    ensures PrivatePrint(facts, FootprintOf(op, c))
  {
    hide Private, ActiveSp;
    if !IsStack(op.decoded) && IsMemory(op.native.kind) {
      PrivateShrinks(facts, KnownAddress(op.native, sp).value, 4, Bytes(WidthOf(op.native.kind)));
    } else if !IsStack(op.decoded) {
      Nothing(facts);
    }
  }

  lemma Nothing(facts: Facts)
    ensures Private(facts, 0, 0)
  {
  }

  /** The real stack pointer after an op that retired. */
  lemma SpTracks(op: TraceOp, c: CpuState, m: Memory, bus: Bus, cycles: nat, dynamic: bool)
    requires OpEffect(op, c, m, bus, cycles, dynamic).Retired?
    requires IsStack(op.decoded) ==> StackListValid(op.decoded.registerList, op.decoded.kind == Push)
    ensures
      var c1 := OpEffect(op, c, m, bus, cycles, dynamic).cpu;
      && SameBank(c, c1)
      && ActiveSp(c1) == (if !IsStack(op.decoded) then ActiveSp(c)
                          else if op.decoded.kind == Push then Words.Sub(ActiveSp(c), StackBytes(op.decoded))
                          else Words.Add(ActiveSp(c), StackBytes(op.decoded)))
  {
    hide StackOp, MemoryStep, PlainOp, StackListValid, Words.Add, Words.Sub;
    if IsStack(op.decoded) {
      StackSp(op, c, m, bus, dynamic);
    } else if IsMemory(op.native.kind) {
      MemorySp(op, c, m, bus, cycles);
    } else {
      PlainSp(op, c);
    }
  }

  lemma MemorySp(op: TraceOp, c: CpuState, m: Memory, bus: Bus, cycles: nat)
    requires MemoryStep(op, c, m, bus, cycles).Retired?
    ensures var c1 := MemoryStep(op, c, m, bus, cycles).cpu; SameBank(c, c1) && ActiveSp(c1) == ActiveSp(c)
  {
    hide MemoryAddress, SignedLoad, WidthOf;
  }

  lemma PlainSp(op: TraceOp, c: CpuState)
    ensures SameBank(c, PlainOp(op, c)) && ActiveSp(PlainOp(op, c)) == ActiveSp(c)
  {
    hide MicroStep, View, Words.Add, SetBit0;
    var inst := op.native.integer;
    assert View(c).psr == c.psr by { ReadCore(c, 0, 0); }
    assert MicroStep(inst, View(c)).psr.ipsr == c.psr.ipsr by { StepKeepsMode(inst, View(c)); }
  }

  lemma StepKeepsMode(inst: MicroInst, g: MicroCpu)
    ensures MicroStep(inst, g).psr.ipsr == g.psr.ipsr
  {
    hide Effect, Taken, OpTarget, OpSequential, SetBit0;
    EffectKeepsRest(inst, g);
  }

  lemma StackSp(op: TraceOp, c: CpuState, m: Memory, bus: Bus, dynamic: bool)
    requires IsStack(op.decoded) && StackListValid(op.decoded.registerList, op.decoded.kind == Push)
    requires StackOp(op, c, m, bus, dynamic).Retired?
    ensures
      var c1 := StackOp(op, c, m, bus, dynamic).cpu;
      && SameBank(c, c1)
      && ActiveSp(c1) == (if op.decoded.kind == Push then Words.Sub(ActiveSp(c), StackBytes(op.decoded))
                          else Words.Add(ActiveSp(c), StackBytes(op.decoded)))
  {
    hide StackListValid, PushTransfer, PopTransfer, Words.Add, RegsFrom, Count;
    var list := op.decoded.registerList;
    SameCount(list);
    if op.decoded.kind == Push {
      PushSp(StackRegs(list, true), c, m, bus, op.pc);
    } else {
      PopCommits(list, c, m, bus, op.pc, op.expectedNextPc, dynamic);
      PopSp(RegsFrom(list, 0), c, LoadWords(m, ActiveSp(c), Count(list)).value);
    }
  }

  lemma PushSp(regs: seq<nat>, c: CpuState, m: Memory, bus: Bus, pc: Word)
    requires RegNumbers(regs)
    ensures
      var t := PushTransfer(regs, c, m, bus, pc);
      && (t.Transferred? || t.TransferDeclined?)
      && (t.Transferred? ==> SameBank(c, t.cpu) && ActiveSp(t.cpu) == Words.Sub(ActiveSp(c), 4 * |regs|))
  {
    hide StoreWords, Values;
  }

  lemma PopSp(regs: seq<nat>, c: CpuState, words: seq<Word>)
    requires RegNumbers(regs) && |words| == |regs|
    ensures
      var c1 := PopCommit(regs, c, words);
      SameBank(c, c1) && ActiveSp(c1) == Words.Add(ActiveSp(c), 4 * |regs|)
  {
    hide CommitWords, Words.Add, ClearBit0;
    CommitKeeps(c, Ordinary(regs), words[..|Ordinary(regs)|]);
  }

  /** The progress of a trace run just before op `k`, if it gets there. */
  function StateAt(p: Params, admitted: bool, s: Progress, k: nat): (r: Option<Progress>)
    requires s.retired == 0 && k <= |p.ops|
    requires admitted ==> p.prefix.Some? && p.instructionLimit < |p.prefix.value|
    ensures r.Some? ==> r.value.retired == k && (admitted ==> k <= p.instructionLimit)
    decreases k
  {
    if k == 0 then Some(s)
    else
      match StateAt(p, admitted, s, k - 1)
      case None => None
      case Some(t) => var (next, more) := Iterate(p, admitted, k - 1, t); if more then Some(next) else None
  }

  /** Summary soundness: in every execution of the trace that starts with the given stack pointer,
      under any limits and helpers, each op of the provable window that runs reads and writes only
      private bytes, and the summarised stack pointer is the real one before it. */
  lemma {:induction false} SummarySound(p: Params, admitted: bool, s: Progress, facts: Facts, n: nat, k: nat)
    requires s.retired == 0 && k <= n <= |p.ops|
    requires admitted ==> p.prefix.Some? && p.instructionLimit < |p.prefix.value|
    requires forall i | 0 <= i < |p.ops| ::
               IsStack(p.ops[i].decoded) ==>
                 StackListValid(p.ops[i].decoded.registerList, p.ops[i].decoded.kind == Push)
    requires facts.stackPointer.Some? ==> facts.stackPointer.value == ActiveSp(s.cpu)
    requires forall i | 0 <= i < n :: InWindow(p.ops, facts, i)
    ensures
      var t := StateAt(p, admitted, s, k);
      t.Some? ==>
        && (SpBefore(p.ops, facts, k).Some? ==> SpBefore(p.ops, facts, k).value == ActiveSp(t.value.cpu))
        && (k < n ==> PrivatePrint(facts, FootprintOf(p.ops[k], t.value.cpu)))
    decreases k
  {
    hide OpEffect, GuardHolds, Iterate, Local, StackListValid, ActiveSp, FootprintOf, PrivatePrint, IsControl,
      Words.Add, Words.Sub, SameBank, StackBytes, HelperCycles;
    var t := StateAt(p, admitted, s, k);
    if t.Some? {
      if k > 0 {
        var before := StateAt(p, admitted, s, k - 1).value;
        SummarySound(p, admitted, s, facts, n, k - 1);
        IterateShape(p, admitted, k - 1, before);
        SpTracks(p.ops[k - 1], before.cpu, before.mem, p.bus, HelperCycles(p, admitted, k - 1, before), p.allowDynamic);
      }
      if k < n {
        assert InWindow(p.ops, facts, k);
        LocalIsPrivate(facts, p.ops[k], t.value.cpu, SpBefore(p.ops, facts, k));
      }
    }
  }

  // ---------------------------------------------------------------- footprints are what ops touch

  lemma StoreOnly(m: Memory, a: int, w: Width, v: Word)
    requires Store(m, a, w, v).Some?
    ensures OnlyIn(m, Store(m, a, w, v).value, a, Bytes(w))
  {
  }

  lemma {:induction false} StoreWordsOnly(m: Memory, a: int, words: seq<Word>)
    requires StoreWords(m, a, words).Some?
    ensures OnlyIn(m, StoreWords(m, a, words).value, a, 4 * |words|)
    decreases |words|
  {
    hide Store;
    if words != [] {
      StoreOnly(m, a, Four, words[0]);
      StoreWordsOnly(Store(m, a, Four, words[0]).value, a + 4, words[1..]);
    }
  }

  /** Over RAM, an op changes no byte outside its footprint. */
  lemma WritesFootprint(op: TraceOp, c: CpuState, m: Memory, bus: Bus, cycles: nat, dynamic: bool)
    requires RamBus(bus) && OpEffect(op, c, m, bus, cycles, dynamic).Retired?
    requires IsStack(op.decoded) ==> StackListValid(op.decoded.registerList, op.decoded.kind == Push)
    ensures
      var f := FootprintOf(op, c);
      OnlyIn(m, OpEffect(op, c, m, bus, cycles, dynamic).mem, f.begin, f.size)
  {
    hide PlainOp, StackListValid, RamBus, Load, Store, LoadWords, StoreWords, PopCommit, RegsFrom, Count, SignedLoad,
      MemoryAddress, ActiveSp, Values, WriteRegister, ClearBit0, InTokenBlock, LoadsPc, OnlyIn;
    UnchangedOnly(m, FootprintOf(op, c));
    if IsStack(op.decoded) {
      var regs := StackRegs(op.decoded.registerList, op.decoded.kind == Push);
      SameCount(op.decoded.registerList);
      if op.decoded.kind == Push { StoreWordsOnly(m, ActiveSp(c) - 4 * |regs|, Values(c, regs)); }
    } else if IsMemory(op.native.kind) {
      var a, w := MemoryAddress(op.native, c), WidthOf(op.native.kind);
      if IsLoad(op.native.kind) {
        BusReads(bus, cycles, op.pc, a, w, m);
      } else {
        var v := if op.native.rd < 16 then c.r[op.native.rd] else 0;
        BusWrites(bus, cycles, op.pc, a, w, v, m);
        StoreOnly(m, a, w, v);
      }
    }
  }

  lemma UnchangedOnly(m: Memory, f: Footprint)
    ensures OnlyIn(m, m, f.begin, f.size)
  {
  }

  lemma LoadDepends(m: Memory, m1: Memory, a: int, w: Width)
    requires SameBytes(m, m1, a, Bytes(w))
    ensures Load(m1, a, w) == Load(m, a, w)
  {
  }

  /** Over RAM, what an op leaves in the core depends on memory only through its footprint. */
  lemma ReadsFootprint(op: TraceOp, c: CpuState, m: Memory, m1: Memory, bus: Bus, cycles: nat, dynamic: bool)
    requires RamBus(bus) && SameBytes(m, m1, FootprintOf(op, c).begin, FootprintOf(op, c).size)
    requires OpEffect(op, c, m, bus, cycles, dynamic).Retired? && OpEffect(op, c, m1, bus, cycles, dynamic).Retired?
    requires IsStack(op.decoded) ==> StackListValid(op.decoded.registerList, op.decoded.kind == Push)
    ensures OpEffect(op, c, m, bus, cycles, dynamic).cpu == OpEffect(op, c, m1, bus, cycles, dynamic).cpu
  {
    hide PlainOp, StackListValid, RamBus, Load, Store, LoadWords, StoreWords, PopCommit, RegsFrom, Count, SignedLoad,
      MemoryAddress, ActiveSp, Values, WriteRegister, ClearBit0, InTokenBlock, LoadsPc, SameBytes;
    if IsStack(op.decoded) {
      SameCount(op.decoded.registerList);
      if op.decoded.kind == Pop { SameWords(m, m1, ActiveSp(c), Count(op.decoded.registerList)); }
    } else if IsMemory(op.native.kind) {
      var a, w := MemoryAddress(op.native, c), WidthOf(op.native.kind);
      if IsLoad(op.native.kind) {
        BusReads(bus, cycles, op.pc, a, w, m);
        BusReads(bus, cycles, op.pc, a, w, m1);
        LoadDepends(m, m1, a, w);
      }
    }
  }
}
