/** Admission and settlement of native traces: the cached charge table, the prefix search and
    the credit the caller owns, after executeNativeTrace in src/cpu/cortex_m4.cpp. */
module Admission {
  import opened Words
  import opened Cpu
  import opened Micro
  import opened Lowering
  import opened Native
  import opened Stack
  import opened Timing
  import opened Blocks
  import opened Trace
  import opened Refinement

  /** The flash window in which fetches stall. */
  datatype FetchTiming = FetchTiming(
    begin: Word, end: Word, aliasBegin: Word, aliasEnd: Word, nonsequential: nat, sequential: nat)

  function Stall(t: FetchTiming, pc: Word, sequential: bool): nat {
    var cycles := if sequential then t.sequential else t.nonsequential;
    if t.begin <= pc < t.end || t.aliasBegin <= pc < t.aliasEnd then cycles else 0
  }

  function StallOf(t: FetchTiming): StallFn {
    (pc: Word, sequential: bool) => Stall(t, pc, sequential)
  }

  // ---------------------------------------------------------------- the charge table

  function Min(a: nat, b: nat): nat {
    if a < b then a else b
  }

  /** The entry fetch at its cheaper phase. */
  function FirstStall(ops: seq<TraceOp>, stall: StallFn): nat
    requires ops != []
  {
    Min(stall(ops[0].pc, false), stall(ops[0].pc, true))
  }

  /** first_fetch_extra: what the entry fetch costs above that. */
  function FirstExtra(ops: seq<TraceOp>, stall: StallFn, sequential: bool): (r: nat)
    requires ops != []
  {
    stall(ops[0].pc, sequential) - FirstStall(ops, stall)
  }

  function ChargeAt(ops: seq<TraceOp>, stall: StallFn, i: nat): nat
    requires i < |ops|
  {
    ops[i].executionCycles
    + if i == 0 then FirstStall(ops, stall) else stall(ops[i].pc, ops[i].pc == OpEnd(ops[i - 1]))
  }

  datatype Tables = Tables(charges: seq<nat>, prefix: seq<nat>, valid: nat)

  /** The cached tables of a trace: charges, their running sums and the length of the leading run
      of charges that fit sixteen bits. */
  predicate TablesOf(ops: seq<TraceOp>, stall: StallFn, t: Tables) {
    && ops != [] && |t.charges| == |ops| && |t.prefix| == |ops| + 1 && t.prefix[0] == 0
    && (forall i | 0 <= i < |ops| :: t.charges[i] == ChargeAt(ops, stall, i))
    && (forall i | 0 <= i < |ops| :: t.prefix[i + 1] == t.prefix[i] + t.charges[i])
    && t.valid <= |ops|
    && (forall i | 0 <= i < t.valid :: t.charges[i] <= 0xffff)
    && (t.valid < |ops| ==> t.charges[t.valid] > 0xffff)
  }

  /** Filling the tables, in the original's single pass. */
  method FillTables(ops: seq<TraceOp>, stall: StallFn) returns (t: Tables)
    requires ops != []
    ensures TablesOf(ops, stall, t)
  {
    hide OpEnd;
    var firstStall := FirstStall(ops, stall);
    var fetchEnd := ops[0].pc;
    var charges: seq<nat>, prefix: seq<nat>, valid := [], [0], 0;
    var i := 0;
    while i < |ops|
      invariant 0 <= i <= |ops| && |charges| == i && |prefix| == i + 1 && prefix[0] == 0
      invariant i > 0 ==> fetchEnd == OpEnd(ops[i - 1])
      invariant forall k | 0 <= k < i :: charges[k] == ChargeAt(ops, stall, k)
      invariant forall k | 0 <= k < i :: prefix[k + 1] == prefix[k] + charges[k]
      invariant valid <= i && (forall k | 0 <= k < valid :: charges[k] <= 0xffff)
      invariant valid < i ==> charges[valid] > 0xffff
    {
      var op := ops[i];
      var charge := op.executionCycles + if i == 0 then firstStall else stall(op.pc, op.pc == fetchEnd);
      if valid == i && charge <= 0xffff { valid := valid + 1; }
      prefix := prefix + [prefix[i] + charge];
      charges := charges + [charge];
      fetchEnd := OpEnd(op);
      i := i + 1;
    }
    t := Tables(charges, prefix, valid);
  }

  lemma {:induction false} TailSum(ops: seq<TraceOp>, stall: StallFn, t: Tables, i: nat, n: nat)
    requires TablesOf(ops, stall, t) && 0 < i && i + n <= |ops|
    ensures t.prefix[i] + TraceCharge(ops, stall, Fetch(true, OpEnd(ops[i - 1])), i, n) == t.prefix[i + n]
    decreases n
  {
    hide OpEnd;
    if n > 0 {
      assert t.prefix[i + 1] == t.prefix[i] + t.charges[i] && t.charges[i] == ChargeAt(ops, stall, i);
      TailSum(ops, stall, t, i + 1, n - 1);
    }
  }

  /** The cached table plus the entry extra is the exact charge, for either fetch phase. */
  lemma TableIsExact(ops: seq<TraceOp>, stall: StallFn, t: Tables, f: Fetch, n: nat)
    requires TablesOf(ops, stall, t) && 0 < n <= |ops|
    ensures t.prefix[n] + FirstExtra(ops, stall, Sequential(f, ops[0].pc)) == TraceCharge(ops, stall, f, 0, n)
  {
    hide OpEnd;
    assert t.prefix[1] == t.prefix[0] + t.charges[0] && t.charges[0] == ChargeAt(ops, stall, 0);
    TailSum(ops, stall, t, 1, n - 1);
  }

  lemma {:induction false} TableGrows(ops: seq<TraceOp>, stall: StallFn, t: Tables, i: nat, j: nat)
    requires TablesOf(ops, stall, t) && i <= j <= |ops|
    ensures t.prefix[i] <= t.prefix[j]
    decreases j - i
  {
    if i < j {
      assert t.prefix[i + 1] == t.prefix[i] + t.charges[i];
      TableGrows(ops, stall, t, i + 1, j);
    }
  }

  /** The 32-bit sums never wrap: sixteen-bit execution cycles and stalls, at most 64 ops. */
  lemma {:induction false} TableFits(ops: seq<TraceOp>, stall: StallFn, t: Tables, i: nat)
    requires TablesOf(ops, stall, t) && i <= |ops| <= MAX_TRACE
    requires forall k | 0 <= k < |ops| :: ops[k].executionCycles <= 0xffff
    requires forall pc: Word, sequential: bool :: stall(pc, sequential) <= 0xffff
    ensures t.prefix[i] <= i * 0x1_fffe < 0x1_0000_0000
    decreases i
  {
    if i > 0 {
      TableFits(ops, stall, t, i - 1);
      assert t.prefix[i - 1 + 1] == t.prefix[i - 1] + t.charges[i - 1];
      assert t.charges[i - 1] == ChargeAt(ops, stall, i - 1) <= 0x1_fffe;
    }
  }

  // ---------------------------------------------------------------- the prefix search

  predicate Sorted(s: seq<nat>) {
    forall i, j | 0 <= i <= j < |s| :: s[i] <= s[j]
  }

  /** std::upper_bound. */
  method UpperBound(s: seq<nat>, v: nat) returns (k: nat)
    requires Sorted(s)
    ensures k <= |s|
    ensures forall i | 0 <= i < k :: s[i] <= v
    ensures forall i | k <= i < |s| :: s[i] > v
  {
    k := 0;
    var count := |s|;
    while count > 0
      invariant 0 <= count && k + count <= |s|
      invariant forall i | 0 <= i < k :: s[i] <= v
      invariant forall i | k + count <= i < |s| :: s[i] > v
    {
      var step := count / 2;
      if s[k + step] <= v {
        k := k + step + 1;
        count := count - step - 1;
      } else {
        count := step;
      }
    }
  }

  /** An admissible prefix of `n` ops: within the limit, every charge in sixteen bits with the
      entry fetch counted, and paid for by the credit. */
  predicate Admissible(ops: seq<TraceOp>, stall: StallFn, f: Fetch, limit: nat, credit: nat, n: nat)
    requires ops != []
  {
    && 0 < n <= limit && n <= |ops|
    && (forall i | 0 <= i < n :: ChargeAt(ops, stall, i) <= 0xffff)
    && ChargeAt(ops, stall, 0) + FirstExtra(ops, stall, Sequential(f, ops[0].pc)) <= 0xffff
    && TraceCharge(ops, stall, f, 0, n) <= credit
  }

  /** The planned prefix is the longest admissible one, and there is none when admission declines. */
  method Admit(ops: seq<TraceOp>, stall: StallFn, t: Tables, f: Fetch, limit: nat, credit: nat) returns (planned: nat)
    requires TablesOf(ops, stall, t) && limit <= |ops|
    ensures planned > 0 ==> Admissible(ops, stall, f, limit, credit, planned)
    ensures forall n | n > planned :: !Admissible(ops, stall, f, limit, credit, n)
  {
    hide OpEnd, TraceCharge, ChargeAt, FirstExtra;
    var extra := FirstExtra(ops, stall, Sequential(f, ops[0].pc));
    forall n | 0 < n <= |ops|
      ensures t.prefix[n] + extra == TraceCharge(ops, stall, f, 0, n)
      ensures n > t.valid ==> !Admissible(ops, stall, f, limit, credit, n)
    {
      TableIsExact(ops, stall, t, f, n);
      if n > t.valid { assert t.charges[t.valid] > 0xffff; }
    }
    if extra > credit || t.charges[0] + extra > 0xffff { return 0; }
    var normalized := credit - extra;
    var available := if limit < t.valid then limit else t.valid;
    planned := available;
    if t.prefix[available] > normalized {
      var table := t.prefix[..available + 1];
      forall i, j | 0 <= i <= j < |table|
        ensures table[i] <= table[j]
      {
        TableGrows(ops, stall, t, i, j);
      }
      var end := UpperBound(table, normalized);
      planned := end - 1;
      forall n | planned < n <= available
        ensures !Admissible(ops, stall, f, limit, credit, n)
      {
        assert table[n] > normalized;
      }
      if planned > 0 { assert table[planned] <= normalized; }
    }
    if planned > 0 {
      forall i | 0 <= i < planned
        ensures ChargeAt(ops, stall, i) <= 0xffff
      {
        assert t.charges[i] <= 0xffff;
      }
    }
  }

  // ---------------------------------------------------------------- dispatch and settlement

  /** The helpers behind a context whose cycle count is offset by the entry extra. */
  function Biased(bus: Bus, extra: nat): Bus {
    bus.(read := (cycles: nat, pc: Word, a: Word, w: Width, m: Memory) => bus.read(cycles + extra, pc, a, w, m),
         write := (cycles: nat, pc: Word, a: Word, w: Width, v: Word, m: Memory) =>
                    bus.write(cycles + extra, pc, a, w, v, m))
  }

  lemma BiasedIsRam(bus: Bus, extra: nat)
    requires RamBus(bus)
    ensures RamBus(Biased(bus, extra))
  {
    hide Load, Store, RamBus;
    var b := Biased(bus, extra);
    forall cycles: nat, pc: Word, a: Word, w: Width, m: Memory
      ensures b.read(cycles, pc, a, w, m).ReadOk? ==>
                b.read(cycles, pc, a, w, m).mem == m && Load(m, a, w) == Some(b.read(cycles, pc, a, w, m).value)
    {
      BusReads(bus, cycles + extra, pc, a, w, m);
    }
    forall cycles: nat, pc: Word, a: Word, w: Width, v: Word, m: Memory
      ensures b.write(cycles, pc, a, w, v, m).WriteOk? ==>
                Store(m, a, w, v) == Some(b.write(cycles, pc, a, w, v, m).mem)
    {
      BusWrites(bus, cycles + extra, pc, a, w, v, m);
    }
    RamFrom(b);
  }

  lemma RamFrom(bus: Bus)
    requires forall cycles: nat, pc: Word, a: Word, w: Width, m: Memory ::
               bus.read(cycles, pc, a, w, m).ReadOk? ==>
                 bus.read(cycles, pc, a, w, m).mem == m && Load(m, a, w) == Some(bus.read(cycles, pc, a, w, m).value)
    requires forall cycles: nat, pc: Word, a: Word, w: Width, v: Word, m: Memory ::
               bus.write(cycles, pc, a, w, v, m).WriteOk? ==>
                 Store(m, a, w, v) == Some(bus.write(cycles, pc, a, w, v, m).mem)
    ensures RamBus(bus)
  {
    hide Load, Store;
  }

  /** The context the dispatcher builds for an admitted prefix of `planned` ops. */
  function ContextOf(
    ops: seq<TraceOp>, stall: StallFn, t: Tables, f: Fetch, limit: nat, credit: nat, bus: Bus, planned: nat): Params
    requires TablesOf(ops, stall, t) && planned <= |ops|
  {
    var extra := FirstExtra(ops, stall, Sequential(f, ops[0].pc));
    var available := if limit < t.valid then limit else t.valid;
    Params(ops, planned, if extra <= credit then credit - extra else 0,
           t.charges[..planned], Some(t.prefix[..available + 1]), true, Biased(bus, extra))
  }

  /** The admitted table the kernel validates, and the cycles it publishes. */
  lemma ContextValid(
    ops: seq<TraceOp>, stall: StallFn, t: Tables, f: Fetch, limit: nat, credit: nat, bus: Bus, planned: nat)
    requires TablesOf(ops, stall, t) && Admissible(ops, stall, f, limit, credit, planned)
    ensures
      var p := ContextOf(ops, stall, t, f, limit, credit, bus, planned);
      PrefixValid(p, 0) && RunningSums(p) && p.prefix.value == t.prefix[..|p.prefix.value|]
  {
    hide OpEnd, TraceCharge, ChargeAt, FirstExtra, Biased;
    TableIsExact(ops, stall, t, f, planned);
    assert t.valid < |ops| ==> t.charges[t.valid] == ChargeAt(ops, stall, t.valid);
  }

  /** The kernel, run on the context of an admitted prefix, retired `retired` ops and left by `exit`. */
  ghost predicate KernelRan(
    ops: seq<TraceOp>, stall: StallFn, f: Fetch, limit: nat, credit: nat, bus: Bus, planned: nat, start: Progress,
    retired: nat, exit: TraceExit)
    requires planned <= |ops|
  {
    exists t: Tables ::
      && TablesOf(ops, stall, t)
      && Run(ContextOf(ops, stall, t, f, limit, credit, bus, planned), start).retired == retired
      && Run(ContextOf(ops, stall, t, f, limit, credit, bus, planned), start).exit == exit
  }

  /** What the kernel leaves behind, whatever its helpers do. */
  lemma {:induction false} LoopMetadata(p: Params, admitted: bool, i: nat, s: Progress)
    requires i <= |p.ops| && s.retired == i && s.exit == NoExit
    requires admitted ==> p.prefix.Some? && p.instructionLimit < |p.prefix.value| && i <= p.instructionLimit
    requires i > 0 ==> s.cpu.r[15] == p.ops[i - 1].expectedNextPc && s.cpu.instructionAddress == p.ops[i - 1].pc
    ensures
      var r := Loop(p, admitted, i, s);
      && (r.retired == i ==> r.cpu == s.cpu && r.mem == s.mem)
      && r.retired <= (if i <= p.instructionLimit then p.instructionLimit else i)
      && (r.retired > 0 ==>
            var last := p.ops[r.retired - 1];
            && r.cpu.instructionAddress == last.pc
            && (r.exit != DynamicReturn ==> r.cpu.r[15] == last.expectedNextPc)
            && (r.exit == DynamicReturn ==> PopsPc(last.decoded)))
    decreases |p.ops| - i
  {
    hide OpEffect, GuardHolds, Iterate;
    if i < |p.ops| {
      IterateShape(p, admitted, i, s);
      IterateStops(p, admitted, i, s);
      var (s1, more) := Iterate(p, admitted, i, s);
      if s1.retired != i {
        OpMetadata(p.ops[i], s.cpu, s.mem, p.bus, HelperCycles(p, admitted, i, s), p.allowDynamic);
        if more { LoopMetadata(p, admitted, i + 1, s1); }
      }
    }
  }

  lemma IterateStops(p: Params, admitted: bool, i: nat, s: Progress)
    requires i < |p.ops| && s.retired == i
    requires admitted ==> p.prefix.Some? && p.instructionLimit < |p.prefix.value|
    ensures Iterate(p, admitted, i, s).0.retired != i ==> i < p.instructionLimit
    ensures Iterate(p, admitted, i, s).0.retired == i ==> !Iterate(p, admitted, i, s).1
  {
    hide OpEffect, GuardHolds;
  }

  lemma OpMetadata(op: TraceOp, c: CpuState, m: Memory, bus: Bus, cycles: nat, dynamic: bool)
    ensures
      var r := OpEffect(op, c, m, bus, cycles, dynamic);
      && (Effective(r) ==> r.cpu.instructionAddress == op.pc)
      && (r.Retired? ==> r.cpu.r[15] == op.expectedNextPc)
      && (r.ReturnedElsewhere? ==> PopsPc(op.decoded))
  {
    hide PushTransfer, PopTransfer, Publish, MicroStep, WithLr, MemoryAddress, SignedLoad, StackRegs, Words.Add;
    PushKeeps(StackRegs(op.decoded.registerList, true), c, m, bus, op.pc);
    DynamicPopsPc(op, c, m, bus, dynamic);
  }

  lemma DynamicPopsPc(op: TraceOp, c: CpuState, m: Memory, bus: Bus, dynamic: bool)
    ensures
      op.decoded.kind == Pop
      && PopTransfer(StackRegs(op.decoded.registerList, false), c, m, bus, op.pc, op.expectedNextPc,
         dynamic).Dynamic? ==>
        PopsPc(op.decoded)
  {
    hide LoadWords, PopCommit, ActiveSp, ClearBit0, InTokenBlock, RegsFrom, StackListValid, LoadsPc;
    var list := op.decoded.registerList;
    if StackListValid(list, false) { OrdinaryIs(list); }
  }

  lemma AdmissibleBound(ops: seq<TraceOp>, stall: StallFn, f: Fetch, limit: nat, credit: nat, n: nat)
    requires ops != [] && Admissible(ops, stall, f, limit, credit, n)
    ensures 0 < n <= limit && n <= |ops| && TraceCharge(ops, stall, f, 0, n) <= credit
  {
  }

  lemma TablesShape(ops: seq<TraceOp>, stall: StallFn, t: Tables)
    requires TablesOf(ops, stall, t)
    ensures ops != [] && |t.prefix| == |ops| + 1
  {
  }

  /** The progress an admitted run makes, and that its charge is covered. */
  lemma Settles(
    ops: seq<TraceOp>, stall: StallFn, t: Tables, f: Fetch, limit: nat, credit: nat, bus: Bus, planned: nat,
    start: Progress)
    requires TablesOf(ops, stall, t) && Admissible(ops, stall, f, limit, credit, planned)
    requires start.cycles == 0 && start.retired == 0 && start.exit == NoExit
    ensures
      var r := Run(ContextOf(ops, stall, t, f, limit, credit, bus, planned), start);
      && |t.prefix| == |ops| + 1 && r.retired <= planned <= limit && planned <= |ops|
      && r.cycles == t.prefix[r.retired]
      && (r.retired == 0 ==> r.cpu == start.cpu && r.mem == start.mem)
      && (r.retired > 0 ==>
            var last := ops[r.retired - 1];
            && t.prefix[r.retired] + FirstExtra(ops, stall, Sequential(f, ops[0].pc))
               == TraceCharge(ops, stall, f, 0, r.retired)
            && TraceCharge(ops, stall, f, 0, r.retired) <= credit
            && r.cpu.instructionAddress == last.pc
            && (r.exit != DynamicReturn ==> r.cpu.r[15] == last.expectedNextPc)
            && (r.exit == DynamicReturn ==> PopsPc(last.decoded)))
  {
    hide OpEnd, TraceCharge, TablesOf, Admissible, Loop, FirstExtra, Biased, PrefixValid, RunningSums;
    TablesShape(ops, stall, t);
    AdmissibleBound(ops, stall, f, limit, credit, planned);
    var p := ContextOf(ops, stall, t, f, limit, credit, bus, planned);
    ContextValid(ops, stall, t, f, limit, credit, bus, planned);
    PrefixHasRoom(p, 0);
    LoopMetadata(p, true, 0, start);
    var r := Run(p, start);
    if r.retired > 0 {
      TableIsExact(ops, stall, t, f, r.retired);
      TableIsExact(ops, stall, t, f, planned);
      TableGrows(ops, stall, t, r.retired, planned);
    }
  }

  /** The admitted run against checked execution. */
  lemma SettlesExactly(
    code: Code, sources: seq<TraceSource>, ops: seq<TraceOp>, stall: StallFn, t: Tables, f: Fetch, limit: nat,
    credit: nat,
    bus: Bus, planned: nat, start: Progress)
    requires TablesOf(ops, stall, t) && Admissible(ops, stall, f, limit, credit, planned)
    requires CodedTrace(code, sources, ops) && RamBus(bus) && SafeCore(start.cpu) && ops != []
             && start.cpu.r[15] == ops[0].pc
    requires planned <= |ops|
    ensures
      var r := Run(ContextOf(ops, stall, t, f, limit, credit, bus, planned), start);
      && r.retired <= |ops|
      && (r.retired > 0 && TokenFree(code, ops, 0, start.cpu, start.mem, r.retired) ==>
            var ch := ChargedSteps(code, stall, start.cpu, start.mem, f, r.retired);
            var last := ops[r.retired - 1];
            && ch.Some? && r.cpu == ch.value.cpu && r.mem == ch.value.mem && ch.value.fetch == Fetch(true, OpEnd(last))
            && ch.value.total + Refill(last, last.expectedNextPc)
               == TraceCharge(ops, stall, f, 0, r.retired) + Refill(last, r.cpu.r[15]))
  {
    hide OpEnd, TraceCharge, TablesOf, Admissible, FirstExtra, Biased, Run, TokenFree, ChargedSteps, CodedTrace, RamBus,
      SafeCore, Refill;
    var p := ContextOf(ops, stall, t, f, limit, credit, bus, planned);
    TablesShape(ops, stall, t);
    BiasedIsRam(bus, FirstExtra(ops, stall, Sequential(f, ops[0].pc)));
    TraceRefines(code, stall, sources, p, start, f);
  }

  /** The core, memory and credit behind the dispatcher. */
  class Dispatcher {
    var cpu: CpuState
    var mem: Memory
    var budget: Budget

    /** One native trace under the caller's credit: the kernel runs the longest admissible prefix.
        Declining changes nothing; otherwise the credit pays exactly the recorded cycles and fetch
        stalls of the retired ops, the retirement metadata is consistent, and the core is where as
        many checked steps leave it. */
    method ExecuteNativeTrace(
      ghost code: Code, ghost sources: seq<TraceSource>, ops: seq<TraceOp>, limit: nat, stall: StallFn, bus: Bus)
      returns (retired: nat, exit: TraceExit, ghost planned: nat)
      requires ops != [] && limit <= |ops| && CodedTrace(code, sources, ops) && RamBus(bus)
      requires SafeCore(cpu) && cpu.r[15] == ops[0].pc
      modifies this
      ensures retired <= planned <= limit
      ensures planned > 0 ==> Admissible(ops, stall, old(budget.fetch), limit, old(budget.remaining), planned)
      ensures forall n | n > planned :: !Admissible(ops, stall, old(budget.fetch), limit, old(budget.remaining), n)
      ensures planned > 0 ==>
                KernelRan(ops, stall, old(budget.fetch), limit, old(budget.remaining), bus, planned,
                          Progress(old(cpu), old(mem), 0, 0, false, NoExit), retired, exit)
      ensures retired == 0 ==> cpu == old(cpu) && mem == old(mem) && budget == old(budget)
      ensures retired > 0 ==>
                && budget.remaining + TraceCharge(ops, stall, old(budget.fetch), 0, retired) == old(budget.remaining)
                && budget.fetch == Fetch(true, OpEnd(ops[retired - 1]))
                && cpu.instructionAddress == ops[retired - 1].pc
                && (exit != DynamicReturn ==> cpu.r[15] == ops[retired - 1].expectedNextPc)
      ensures retired > 0 && TokenFree(code, ops, 0, old(cpu), old(mem), retired) ==>
                var ch := ChargedSteps(code, stall, old(cpu), old(mem), old(budget.fetch), retired);
                var last := ops[retired - 1];
                && ch.Some? && cpu == ch.value.cpu && mem == ch.value.mem && budget.fetch == ch.value.fetch
                && budget.remaining + ch.value.total + Refill(last, last.expectedNextPc)
                   == old(budget.remaining) + Refill(last, cpu.r[15])
    {
      hide OpEnd, TraceCharge, TablesOf, Admissible, ContextOf, Run, RunAgrees, TokenFree, ChargedSteps, CodedTrace,
        RamBus, SafeCore, Refill, Biased, FirstExtra;
      var t := FillTables(ops, stall);
      var admitted := Admit(ops, stall, t, budget.fetch, limit, budget.remaining);
      planned := admitted;
      if admitted == 0 { return 0, NoExit, 0; }
      assert planned <= limit by { AdmissibleBound(ops, stall, budget.fetch, limit, budget.remaining, planned); }
      var p := ContextOf(ops, stall, t, budget.fetch, limit, budget.remaining, bus, admitted);
      var start := Progress(cpu, mem, 0, 0, false, NoExit);
      var context := new Context(start);
      context.Execute(p);
      var r := context.state;
      Settles(ops, stall, t, budget.fetch, limit, budget.remaining, bus, planned, start);
      SettlesExactly(code, sources, ops, stall, t, budget.fetch, limit, budget.remaining, bus, planned, start);
      exit, retired := r.exit, r.retired;
      cpu, mem := r.cpu, r.mem;
      if retired == 0 { return; }
      var last := ops[retired - 1];
      var extra := FirstExtra(ops, stall, Sequential(budget.fetch, ops[0].pc));
      var charged := t.prefix[retired] + extra;
      budget := Budget(budget.remaining - charged, Fetch(true, OpEnd(last)));
    }
  }
}
