/** Fused execution of native regions: straight-line spans and integer loops admitted and retired
    as a whole, after linear_span, fast_loop and their detection passes in src/cpu/micro_jit.cpp. */
module Fusion {
  import opened Words
  import opened Cpu
  import opened Micro
  import opened Lowering
  import opened Native
  import opened Timing
  import opened Region
  import opened DeadFlags

  // ---------------------------------------------------------------- linked plans

  predicate EdgeAt(plan: Plan, edge: Option<nat>, pc: Word) {
    edge.Some? ==> edge.value < |plan| && plan[edge.value].pc == pc
  }

  /** What the graph builder guarantees of a node. */
  predicate OpLinked(plan: Plan, op: RegionOp) {
    && (op.pair.Pair? ==> op.flow == CheckedFlow && EdgeAt(plan, op.edge0, Words.Add(op.pc, 6)))
    && (op.flow == FlowNext || op.flow == Conditional ==> EdgeAt(plan, op.edge0, op.fallthrough))
    && (op.flow == Jump || op.flow == Call ==> EdgeAt(plan, op.edge0, op.target))
    && (op.flow == Conditional ==> EdgeAt(plan, op.edge1, op.target) && op.takenCycles >= op.fallthroughCycles)
    && (op.flow == FlowNext && !IsMemory(op.inst.kind) ==> !IsBranchOp(op.inst.integer.op))
  }

  predicate Linked(plan: Plan) {
    WellFormed(plan) && forall i | 0 <= i < |plan| :: OpLinked(plan, plan[i])
  }

  // ---------------------------------------------------------------- chains of fallthrough ops

  predicate Indices(plan: Plan, chain: seq<nat>) {
    forall k | 0 <= k < |chain| :: chain[k] < |plan|
  }

  predicate ChainStep(plan: Plan, i: nat, j: nat) {
    i < |plan| && j < |plan| && plan[i].flow == FlowNext && plan[i].edge0 == Some(j)
      && plan[j].pc == plan[i].fallthrough
  }

  /** Ops that follow one another by fallthrough edges. */
  predicate Chained(plan: Plan, chain: seq<nat>) {
    && chain != [] && Indices(plan, chain)
    && forall k | 0 <= k < |chain| - 1 :: ChainStep(plan, chain[k], chain[k + 1])
  }

  function Pipeline(plan: Plan, chain: seq<nat>, n: nat): nat
    requires Indices(plan, chain) && n <= |chain|
    decreases n
  {
    if n == 0 then 0 else Pipeline(plan, chain, n - 1) + plan[chain[n - 1]].fallthroughCycles
  }

  /** Exact charge of the first `n` ops: only the first fetch depends on the entry phase. */
  function PrefixCharge(env: Env, plan: Plan, chain: seq<nat>, f: Fetch, n: nat): nat
    requires Indices(plan, chain) && n <= |chain|
  {
    if n == 0 then 0
    else (n - 1) * env.sequentialStall + StallAt(env, f, plan[chain[0]].pc) + Pipeline(plan, chain, n)
  }

  function FetchAt(plan: Plan, chain: seq<nat>, f: Fetch, n: nat): Fetch
    requires Indices(plan, chain) && n <= |chain|
  {
    if n == 0 then f else Fetch(true, plan[chain[n - 1]].fallthrough)
  }

  lemma PrefixStep(env: Env, plan: Plan, chain: seq<nat>, f: Fetch, n: nat)
    requires Chained(plan, chain) && n < |chain|
    ensures PrefixCharge(env, plan, chain, f, n + 1)
            == PrefixCharge(env, plan, chain, f, n) + ChargeOf(env, plan[chain[n]], false, FetchAt(plan, chain, f, n))
  {
    assert Pipeline(plan, chain, n + 1) == Pipeline(plan, chain, n) + plan[chain[n]].fallthroughCycles;
    if n == 0 {
      assert Pipeline(plan, chain, 0) == 0;
    } else {
      assert ChainStep(plan, chain[n - 1], chain[n]);
      assert n * env.sequentialStall == (n - 1) * env.sequentialStall + env.sequentialStall;
    }
  }

  lemma {:induction false} PrefixGrows(env: Env, plan: Plan, chain: seq<nat>, f: Fetch, n: nat, k: nat)
    requires Chained(plan, chain) && n <= k <= |chain|
    ensures PrefixCharge(env, plan, chain, f, n) <= PrefixCharge(env, plan, chain, f, k)
    decreases k - n
  {
    hide PrefixCharge, Chained;
    if n < k {
      ChainIndices(plan, chain);
      PrefixStep(env, plan, chain, f, n);
      PrefixGrows(env, plan, chain, f, n + 1, k);
    }
  }

  lemma ChainIndices(plan: Plan, chain: seq<nat>)
    requires Chained(plan, chain)
    ensures chain != [] && Indices(plan, chain)
  {
  }

  /** The live state after `n` ops of a chain, one op at a time. */
  function LiveAt(env: Env, plan: Plan, chain: seq<nat>, l: Live, n: nat, c: CpuState, m: Memory): Live
    requires Indices(plan, chain) && n <= |chain|
  {
    Live(c, m, l.count + n, l.cycles + PrefixCharge(env, plan, chain, l.fetch, n), FetchAt(plan, chain, l.fetch, n),
         if n == 0 then l.last else plan[chain[n - 1]].pc)
  }

  // ---------------------------------------------------------------- linear spans

  const MAX_SPAN: nat := 16

  predicate IsSpan(plan: Plan, span: seq<nat>) {
    && 3 <= |span| <= MAX_SPAN && Chained(plan, span)
    && forall k | 0 <= k < |span| :: plan[span[k]].flow == FlowNext && !IsStackOp(plan[span[k]])
  }

  function OpsOf(plan: Plan, span: seq<nat>): (r: seq<RegionOp>)
    requires Indices(plan, span)
    ensures |r| == |span| && forall k | 0 <= k < |span| :: r[k] == plan[span[k]]
  {
    seq(|span|, k requires 0 <= k < |span| => plan[span[k]])
  }

  predicate SpanAdmitted(env: Env, plan: Plan, span: seq<nat>, l: Live)
    requires Indices(plan, span)
  {
    && l.count + |span| <= env.instructionLimit
    && l.cycles + PrefixCharge(env, plan, span, l.fetch, |span|) <= env.cycleLimit
  }

  /** Where the emitted span ends: after its last op or at a missed access. */
  datatype SpanEnd = SpanEnd(cpu: CpuState, mem: Memory, miss: Option<nat>)

  /** The emitted body from op `n` on: guarded accesses, and integer ops without dead flag writes. */
  function SpanFrom(env: Env, span: seq<RegionOp>, n: nat, c: CpuState, m: Memory): (r: SpanEnd)
    requires n <= |span|
    ensures r.miss.Some? ==> n <= r.miss.value < |span|
    decreases |span| - n
  {
    if n == |span| then SpanEnd(c, m, None)
    else if IsMemory(span[n].inst.kind) then
      match MemoryAct(env, span[n], c, m)
      case Miss => SpanEnd(c, m, Some(n))
      case Act(c1, m1, _, _) => SpanFrom(env, span, n + 1, c1, m1)
    else SpanFrom(env, span, n + 1, Emitted(span[n].inst.integer, Dead(span, n), c), m)
  }

  /** Counters are published at the end of the span or by the stub of the missed access. */
  function SpanCommit(env: Env, plan: Plan, span: seq<nat>, l: Live, e: SpanEnd): (Live, Next)
    requires Indices(plan, span) && span != [] && (e.miss.Some? ==> e.miss.value < |span|)
  {
    match e.miss
    case Some(n) => (LiveAt(env, plan, span, l, n, e.cpu, e.mem), Leave(CheckedInstruction, plan[span[n]].pc))
    case None => (LiveAt(env, plan, span, l, |span|, e.cpu, e.mem), EdgeOf(plan[span[|span| - 1]], false))
  }

  // ---------------------------------------------------------------- integer loops

  predicate IsLoop(plan: Plan, chain: seq<nat>) {
    && |chain| > 1 && Chained(plan, chain)
    && (forall k | 0 <= k < |chain| :: !IsStackOp(plan[chain[k]]) && plan[chain[k]].inst.kind == Integer)
    && var terminal := plan[chain[|chain| - 1]];
       (terminal.flow == Jump || terminal.flow == Conditional) && terminal.target == plan[chain[0]].pc
  }

  /** Conservative charge of one whole iteration, taken at the end. */
  function LoopCharge(env: Env, plan: Plan, chain: seq<nat>, f: Fetch): (r: nat)
    requires Indices(plan, chain) && chain != []
    ensures r >= plan[chain[|chain| - 1]].takenCycles
  {
    var n := |chain| - 1;
    var internal: nat := n * env.sequentialStall;
    internal + StallAt(env, f, plan[chain[0]].pc) + Pipeline(plan, chain, n) + plan[chain[n]].takenCycles
  }

  predicate LoopAdmitted(env: Env, plan: Plan, chain: seq<nat>, l: Live)
    requires Indices(plan, chain) && chain != []
  {
    l.count + |chain| <= env.instructionLimit && l.cycles + LoopCharge(env, plan, chain, l.fetch) <= env.cycleLimit
  }

  /** The straight-line ops of the loop from op `n` on. */
  function LoopFrom(plan: Plan, chain: seq<nat>, n: nat, c: CpuState): CpuState
    requires Indices(plan, chain) && n < |chain|
    decreases |chain| - n
  {
    if n == |chain| - 1 then c
    else LoopFrom(plan, chain, n + 1, IntegerEffect(plan[chain[n]].inst.integer, c))
  }

  predicate LoopTaken(terminal: RegionOp, c: CpuState) {
    terminal.flow == Conditional ==> BranchPasses(terminal.inst.integer, c)
  }

  /** Charged as taken; the refill is given back when the branch falls through. */
  function LoopCommit(env: Env, plan: Plan, chain: seq<nat>, l: Live, c: CpuState): (Live, Next)
    requires Indices(plan, chain) && chain != []
  {
    var terminal := plan[chain[|chain| - 1]];
    var full := l.cycles + LoopCharge(env, plan, chain, l.fetch);
    var taken := LoopTaken(terminal, c);
    (Live(c, l.mem, l.count + |chain|,
          if taken then full else full - terminal.takenCycles + terminal.fallthroughCycles,
          Fetch(true, terminal.fallthrough), terminal.pc),
     EdgeOf(terminal, taken))
  }

  // ---------------------------------------------------------------- fused execution

  /** What the detection passes attach to each node. */
  datatype Fused = Fused(loop: Option<seq<nat>>, span: Option<seq<nat>>)

  predicate FusedAt(plan: Plan, i: nat, f: Fused) {
    && (f.loop.Some? ==> IsLoop(plan, f.loop.value) && f.loop.value[0] == i)
    && (f.span.Some? ==> IsSpan(plan, f.span.value) && f.span.value[0] == i)
  }

  predicate Detected(plan: Plan, table: seq<Fused>) {
    |table| == |plan| && forall i | 0 <= i < |plan| :: FusedAt(plan, i, table[i])
  }

  predicate LoopReady(env: Env, plan: Plan, f: Fused, l: Live) {
    f.loop.Some? && IsLoop(plan, f.loop.value) && LoopAdmitted(env, plan, f.loop.value, l)
  }

  predicate SpanReady(env: Env, plan: Plan, f: Fused, l: Live) {
    f.span.Some? && IsSpan(plan, f.span.value) && SpanAdmitted(env, plan, f.span.value, l)
  }

  /** Entering node `i`: the whole loop or span when it is admitted, otherwise one op. */
  function FusedOp(env: Env, plan: Plan, table: seq<Fused>, i: nat, l: Live): (Live, Next)
    requires Linked(plan) && Detected(plan, table) && i < |plan|
  {
    if l.count >= env.instructionLimit || PairAdmitted(env, plan[i], l) then OneOp(env, plan, i, l)
    else if LoopReady(env, plan, table[i], l) then
      var chain := table[i].loop.value;
      LoopCommit(env, plan, chain, l, LoopFrom(plan, chain, 0, l.cpu))
    else if SpanReady(env, plan, table[i], l) then
      var span := table[i].span.value;
      SpanCommit(env, plan, span, l, SpanFrom(env, OpsOf(plan, span), 0, l.cpu, l.mem))
    else OneOp(env, plan, i, l)
  }

  // ---------------------------------------------------------------- fused is plain

  /** Going on one op at a time from `next`. */
  function RunNext(env: Env, plan: Plan, l: Live, next: Next): Outcome
    requires WellFormed(plan) && (next.Goto? ==> next.index < |plan|)
  {
    match next
    case Leave(exit, pc) => Outcome(l, exit, pc)
    case Goto(j) => RunPlain(env, plan, j, l)
  }

  lemma RunUnfolds(env: Env, plan: Plan, i: nat, l: Live)
    requires WellFormed(plan) && i < |plan|
    ensures RunPlain(env, plan, i, l) == RunNext(env, plan, OneOp(env, plan, i, l).0, OneOp(env, plan, i, l).1)
  {
    hide OneOp;
  }

  lemma EdgeInside(plan: Plan, op: RegionOp, taken: bool)
    requires WellFormed(plan) && op in plan
    ensures EdgeOf(op, taken).Goto? ==> EdgeOf(op, taken).index < |plan|
  {
  }

  /** One chained op that its guards and limits let through. */
  lemma ChainOp(env: Env, plan: Plan, i: nat, l: Live, act: Act)
    requires Linked(plan) && i < |plan| && plan[i].flow != CheckedFlow && plan[i].flow != Indirect
    requires l.count < env.instructionLimit && act == ActOf(env, plan[i], l.cpu, l.mem) && act.Act?
    requires l.cycles + ChargeOf(env, plan[i], act.taken, l.fetch) <= env.cycleLimit
    ensures OneOp(env, plan, i, l)
            == (Live(act.cpu, act.mem, l.count + 1, l.cycles + ChargeOf(env, plan[i], act.taken, l.fetch),
                     Fetch(true, plan[i].fallthrough), plan[i].pc),
                EdgeOf(plan[i], act.taken))
  {
    hide ActOf, ChargeOf, EdgeOf;
    assert OpLinked(plan, plan[i]);
  }

  lemma SpanActs(env: Env, plan: Plan, i: nat, c: CpuState, m: Memory)
    requires Linked(plan) && i < |plan| && plan[i].flow == FlowNext && !IsStackOp(plan[i])
    ensures ActOf(env, plan[i], c, m) ==
            if IsMemory(plan[i].inst.kind) then MemoryAct(env, plan[i], c, m)
            else Act(IntegerEffect(plan[i].inst.integer, c), m, false, 0)
    ensures !IsMemory(plan[i].inst.kind) ==> !IsBranchOp(plan[i].inst.integer.op)
    ensures MemoryAct(env, plan[i], c, m).Act? ==> !MemoryAct(env, plan[i], c, m).taken
  {
    hide IntegerEffect, ReadGuard, WriteGuard, Load, Store, AccessAddress, WriteRegister, BaseWriteback;
    assert OpLinked(plan, plan[i]);
  }

  /** Where plain execution of a span stands before op `n`. */
  function SpanResume(env: Env, plan: Plan, span: seq<nat>, l: Live, n: nat, c: CpuState, m: Memory): Outcome
    requires WellFormed(plan) && Indices(plan, span) && span != [] && n <= |span|
  {
    EdgeInside(plan, plan[span[|span| - 1]], false);
    var at := LiveAt(env, plan, span, l, n, c, m);
    if n < |span| then RunPlain(env, plan, span[n], at)
      else RunNext(env, plan, at, EdgeOf(plan[span[|span| - 1]], false))
  }

  /** How the plain live state moves over one op of a chain. */
  lemma LiveStep(
    env: Env, plan: Plan, chain: seq<nat>, l: Live, n: nat, k: nat, c: CpuState, m: Memory, c1: CpuState, m1: Memory)
    requires Chained(plan, chain) && n < k <= |chain|
    ensures
      var at := LiveAt(env, plan, chain, l, n, c, m);
      var op := plan[chain[n]];
      && at.cpu == c && at.mem == m && at.count == l.count + n
      && LiveAt(env, plan, chain, l, n + 1, c1, m1)
         == Live(c1, m1, at.count + 1, at.cycles + ChargeOf(env, op, false, at.fetch), Fetch(true, op.fallthrough),
           op.pc)
      && at.cycles + ChargeOf(env, op, false, at.fetch) <= l.cycles + PrefixCharge(env, plan, chain, l.fetch, k)
  {
    hide PrefixCharge, ChargeOf, Chained;
    ChainIndices(plan, chain);
    PrefixStep(env, plan, chain, l.fetch, n);
    PrefixGrows(env, plan, chain, l.fetch, n + 1, k);
  }

  /** One op of an admitted span, one at a time. */
  lemma SpanStep(env: Env, plan: Plan, span: seq<nat>, l: Live, n: nat, c: CpuState, m: Memory)
    requires Linked(plan) && IsSpan(plan, span) && SpanAdmitted(env, plan, span, l) && n < |span|
    ensures
      var op := plan[span[n]];
      var act := if IsMemory(op.inst.kind) then MemoryAct(env, op, c, m)
                 else Act(IntegerEffect(op.inst.integer, c), m, false, 0);
      SpanResume(env, plan, span, l, n, c, m) ==
        if act.Miss? then Outcome(LiveAt(env, plan, span, l, n, c, m), CheckedInstruction, op.pc)
        else SpanResume(env, plan, span, l, n + 1, act.cpu, act.mem)
  {
    hide IntegerEffect, MemoryAct, ActOf, ChargeOf, PrefixCharge, OneOp, RunPlain, Linked, EdgeOf, LiveAt, Chained;
    SpanShape(plan, span);
    var i := span[n];
    var at := LiveAt(env, plan, span, l, n, c, m);
    SpanActs(env, plan, i, c, m);
    RunUnfolds(env, plan, i, at);
    var act := ActOf(env, plan[i], c, m);
    EdgeInside(plan, plan[span[|span| - 1]], false);
    if act.Miss? {
      LiveStep(env, plan, span, l, n, |span|, c, m, c, m);
      MissLeaves(env, plan, i, at);
    } else {
      LiveStep(env, plan, span, l, n, |span|, c, m, act.cpu, act.mem);
      ChainOp(env, plan, i, at, act);
      if n + 1 < |span| {
        assert ChainStep(plan, span[n], span[n + 1]) by { ChainNext(plan, span, n); }
        FallsTo(plan[i], span[n + 1]);
      }
    }
  }

  lemma ChainNext(plan: Plan, chain: seq<nat>, n: nat)
    requires Chained(plan, chain) && n + 1 < |chain|
    ensures ChainStep(plan, chain[n], chain[n + 1])
  {
  }

  lemma FallsTo(op: RegionOp, j: nat)
    requires op.flow == FlowNext && op.edge0 == Some(j)
    ensures EdgeOf(op, false) == Goto(j)
  {
  }

  lemma LinkedIsWellFormed(plan: Plan)
    requires Linked(plan)
    ensures WellFormed(plan)
  {
  }

  lemma MissLeaves(env: Env, plan: Plan, i: nat, l: Live)
    requires Linked(plan) && i < |plan| && plan[i].flow == FlowNext && l.count < env.instructionLimit
    requires ActOf(env, plan[i], l.cpu, l.mem).Miss?
    ensures OneOp(env, plan, i, l) == (l, Leave(CheckedInstruction, plan[i].pc))
  {
    hide ActOf, EdgeOf;
    assert OpLinked(plan, plan[i]);
  }

  /** Where execution goes after a committed span. */
  function FinishSpan(env: Env, plan: Plan, span: seq<nat>, l: Live, e: SpanEnd): Outcome
    requires WellFormed(plan) && Indices(plan, span) && span != [] && (e.miss.Some? ==> e.miss.value < |span|)
  {
    EdgeInside(plan, plan[span[|span| - 1]], false);
    var (l1, next) := SpanCommit(env, plan, span, l, e);
    RunNext(env, plan, l1, next)
  }

  lemma FinishMissed(env: Env, plan: Plan, span: seq<nat>, l: Live, n: nat, c: CpuState, m: Memory)
    requires WellFormed(plan) && Indices(plan, span) && n < |span|
    ensures FinishSpan(env, plan, span, l, SpanEnd(c, m, Some(n)))
            == Outcome(LiveAt(env, plan, span, l, n, c, m), CheckedInstruction, plan[span[n]].pc)
  {
    hide LiveAt, RunPlain, EdgeOf;
  }

  lemma FinishWhole(env: Env, plan: Plan, span: seq<nat>, l: Live, c: CpuState, m: Memory)
    requires WellFormed(plan) && Indices(plan, span) && span != []
    ensures FinishSpan(env, plan, span, l, SpanEnd(c, m, None)) == SpanResume(env, plan, span, l, |span|, c, m)
  {
    hide LiveAt, RunPlain, EdgeOf;
    EdgeInside(plan, plan[span[|span| - 1]], false);
  }

  /** A span about to run whole. */
  predicate SpanRuns(env: Env, plan: Plan, span: seq<nat>, l: Live) {
    Linked(plan) && IsSpan(plan, span) && SpanAdmitted(env, plan, span, l)
  }

  /** What is left to do from op `n`, plain and emitted, comes to the same. */
  predicate SpanAgrees(env: Env, plan: Plan, span: seq<nat>, l: Live, n: nat, c: CpuState, d: CpuState, m: Memory) {
    && WellFormed(plan) && Indices(plan, span) && span != [] && n <= |span|
    && SpanResume(env, plan, span, l, n, d, m)
       == FinishSpan(env, plan, span, l, SpanFrom(env, OpsOf(plan, span), n, c, m))
  }

  lemma SpanMemoryCase(
    env: Env, plan: Plan, span: seq<nat>, l: Live, ops: seq<RegionOp>, n: nat, c: CpuState, m: Memory)
    requires SpanRuns(env, plan, span, l) && n < |span| && Indices(plan, span) && ops == OpsOf(plan, span)
             && IsMemory(ops[n].inst.kind)
    requires var act := MemoryAct(env, ops[n], c, m); act.Act? ==>
             SpanAgrees(env, plan, span, l, n + 1, act.cpu, act.cpu, act.mem)
    ensures SpanAgrees(env, plan, span, l, n, c, c, m)
  {
    hide IntegerEffect, MemoryAct, Linked, SpanAdmitted, IsSpan, LiveAt, SpanFrom, SpanResume, FinishSpan, WellFormed;
    SpanShape(plan, span);
    SpanUnfolds(env, ops, n, c, m);
    SpanStep(env, plan, span, l, n, c, m);
    if MemoryAct(env, ops[n], c, m).Miss? { FinishMissed(env, plan, span, l, n, c, m); }
  }

  lemma SpanIntegerCase(
    env: Env, plan: Plan, span: seq<nat>, l: Live, ops: seq<RegionOp>, n: nat, c: CpuState, d: CpuState, m: Memory)
    requires SpanRuns(env, plan, span, l) && n < |span| && Indices(plan, span) && ops == OpsOf(plan, span)
             && !IsMemory(ops[n].inst.kind)
    requires var inst := ops[n].inst.integer; SpanAgrees(env, plan, span, l, n + 1, Emitted(inst, Dead(ops, n), c),
             IntegerEffect(inst, d), m)
    ensures SpanAgrees(env, plan, span, l, n, c, d, m)
  {
    hide IntegerEffect, MemoryAct, Linked, SpanAdmitted, IsSpan, LiveAt, SpanFrom, SpanResume, FinishSpan, WellFormed,
      Emitted, Dead;
    SpanShape(plan, span);
    SpanUnfolds(env, ops, n, c, m);
    SpanStep(env, plan, span, l, n, d, m);
  }

  /** The simulation of one integer op of a span. */
  lemma SpanAgreement(
    env: Env, plan: Plan, span: seq<nat>, l: Live, ops: seq<RegionOp>, n: nat, c: CpuState, d: CpuState)
    requires SpanRuns(env, plan, span, l) && n < |span| && Indices(plan, span) && ops == OpsOf(plan, span)
             && !IsMemory(ops[n].inst.kind)
    requires Agree(LiveBefore(ops, n), c, d)
    ensures var inst := ops[n].inst.integer; Agree(LiveBefore(ops, n + 1), Emitted(inst, Dead(ops, n), c),
            IntegerEffect(inst, d))
  {
    hide IntegerEffect, Linked, SpanAdmitted, IsSpan, Emitted, Dead, Agree, LiveAcross, LiveBefore;
    SpanShape(plan, span);
    LiveUnfolds(ops, n);
    assert !IsBranchOp(ops[n].inst.integer.op) by { SpanActs(env, plan, span[n], c, l.mem); }
    OpKeepsAgreement(ops[n], LiveBefore(ops, n + 1), c, d);
    DeadIs(ops, n);
  }

  /** Span fusion with dead-flag elimination: from any op of an admitted span, the emitted body with
      its deferred counters and miss stubs ends where one-op-at-a-time execution ends. */
  lemma {:induction false} SpanIsPlain(
    env: Env, plan: Plan, span: seq<nat>, l: Live, ops: seq<RegionOp>, n: nat, c: CpuState, d: CpuState, m: Memory)
    requires SpanRuns(env, plan, span, l) && n <= |span| && Indices(plan, span) && ops == OpsOf(plan, span)
    requires Agree(LiveBefore(ops, n), c, d)
    ensures SpanAgrees(env, plan, span, l, n, c, d, m)
    decreases |span| - n
  {
    hide IntegerEffect, MemoryAct, Emitted, Dead, Agree, LiveBefore, SpanAgrees, SpanRuns, IsMemory;
    LiveUnfolds(ops, n);
    if n == |span| {
      AgreeLive(c, d);
      SpanEnds(env, plan, span, l, c, m);
    } else if IsMemory(ops[n].inst.kind) {
      AgreeLive(c, d);
      var act := MemoryAct(env, ops[n], c, m);
      if act.Act? {
        AgreeWeakens(act.cpu, LiveBefore(ops, n + 1));
        SpanIsPlain(env, plan, span, l, ops, n + 1, act.cpu, act.cpu, act.mem);
      }
      SpanMemoryCase(env, plan, span, l, ops, n, c, m);
    } else {
      var inst := ops[n].inst.integer;
      SpanAgreement(env, plan, span, l, ops, n, c, d);
      SpanIsPlain(env, plan, span, l, ops, n + 1, Emitted(inst, Dead(ops, n), c), IntegerEffect(inst, d), m);
      SpanIntegerCase(env, plan, span, l, ops, n, c, d, m);
    }
  }

  lemma SpanEnds(env: Env, plan: Plan, span: seq<nat>, l: Live, c: CpuState, m: Memory)
    requires SpanRuns(env, plan, span, l)
    ensures SpanAgrees(env, plan, span, l, |span|, c, c, m)
  {
    hide SpanFrom, SpanResume, FinishSpan, WellFormed, Linked, IsSpan, SpanAdmitted;
    SpanShape(plan, span);
    SpanUnfolds(env, OpsOf(plan, span), |span|, c, m);
    FinishWhole(env, plan, span, l, c, m);
  }

  lemma SpanInside(env: Env, plan: Plan, span: seq<nat>, l: Live, e: SpanEnd)
    requires WellFormed(plan) && Indices(plan, span) && span != [] && (e.miss.Some? ==> e.miss.value < |span|)
    ensures
      var (l1, next) := SpanCommit(env, plan, span, l, e);
      && (next.Goto? ==> next.index < |plan|)
      && FinishSpan(env, plan, span, l, e) == RunNext(env, plan, l1, next)
  {
    hide LiveAt, EdgeOf, RunPlain;
    EdgeInside(plan, plan[span[|span| - 1]], false);
  }

  lemma SpanStarts(env: Env, plan: Plan, span: seq<nat>, l: Live)
    requires WellFormed(plan) && Indices(plan, span) && span != []
    ensures SpanResume(env, plan, span, l, 0, l.cpu, l.mem) == RunPlain(env, plan, span[0], l)
  {
    hide RunPlain, EdgeOf;
    LiveAtStart(env, plan, span, l);
  }

  lemma AgreeLive(c: CpuState, d: CpuState)
    requires Agree(true, c, d)
    ensures c == d
  {
  }

  lemma LiveUnfolds(span: seq<RegionOp>, n: nat)
    requires n <= |span|
    ensures LiveBefore(span, n) == if n == |span| then true else LiveAcross(span[n], LiveBefore(span, n + 1))
    ensures n < |span| && IsMemory(span[n].inst.kind) ==> LiveBefore(span, n)
  {
  }

  lemma SpanUnfolds(env: Env, span: seq<RegionOp>, n: nat, c: CpuState, m: Memory)
    requires n <= |span|
    ensures SpanFrom(env, span, n, c, m) ==
            if n == |span| then SpanEnd(c, m, None)
            else if IsMemory(span[n].inst.kind) then
              match MemoryAct(env, span[n], c, m)
              case Miss => SpanEnd(c, m, Some(n))
              case Act(c1, m1, _, _) => SpanFrom(env, span, n + 1, c1, m1)
            else SpanFrom(env, span, n + 1, Emitted(span[n].inst.integer, Dead(span, n), c), m)
  {
    hide MemoryAct, Emitted, Dead;
  }

  lemma DeadIs(span: seq<RegionOp>, n: nat)
    requires n < |span| && !IsMemory(span[n].inst.kind)
    ensures Dead(span, n) == (WritesFlags(span[n].inst.integer) && !LiveBefore(span, n + 1))
  {
  }

  lemma SpanShape(plan: Plan, span: seq<nat>)
    requires Linked(plan) && IsSpan(plan, span)
    ensures WellFormed(plan) && Indices(plan, span) && span != []
    ensures forall k | 0 <= k < |span| :: plan[span[k]].flow == FlowNext && !IsStackOp(plan[span[k]])
  {
  }

  lemma LoopShape(plan: Plan, chain: seq<nat>)
    requires Linked(plan) && IsLoop(plan, chain)
    ensures WellFormed(plan) && Indices(plan, chain) && |chain| > 1 && Chained(plan, chain)
    ensures forall k | 0 <= k < |chain| :: !IsStackOp(plan[chain[k]]) && plan[chain[k]].inst.kind == Integer
    ensures plan[chain[|chain| - 1]].flow == Jump || plan[chain[|chain| - 1]].flow == Conditional
  {
  }

  /** The conservative charge is the exact one up to the branch, plus the branch taken. */
  lemma LoopChargeSplits(env: Env, plan: Plan, chain: seq<nat>, f: Fetch)
    requires Chained(plan, chain) && |chain| > 1
    ensures
      var n := |chain| - 1;
      LoopCharge(env, plan, chain, f)
      == PrefixCharge(env, plan, chain, f, n) + plan[chain[n]].takenCycles
        + StallAt(env, FetchAt(plan, chain, f, n), plan[chain[n]].pc)
  {
    var n := |chain| - 1;
    assert ChainStep(plan, chain[n - 1], chain[n]);
    assert n * env.sequentialStall == (n - 1) * env.sequentialStall + env.sequentialStall;
  }

  lemma TerminalActs(env: Env, op: RegionOp, c: CpuState, m: Memory)
    requires RegNumbers(op.regs) && !IsStackOp(op) && op.inst.kind == Integer
             && (op.flow == Jump || op.flow == Conditional)
    ensures ActOf(env, op, c, m) == Act(c, m, LoopTaken(op, c), 0)
  {
    hide BranchPasses;
  }

  lemma TerminalCycles(plan: Plan, i: nat)
    requires Linked(plan) && i < |plan|
    ensures plan[i].flow == Conditional ==> plan[i].takenCycles >= plan[i].fallthroughCycles
  {
    assert OpLinked(plan, plan[i]);
  }

  lemma JumpTaken(op: RegionOp, c: CpuState)
    ensures op.flow != Conditional ==> LoopTaken(op, c)
  {
  }

  /** The last op of an admitted loop, one at a time. */
  lemma LoopEnds(env: Env, plan: Plan, chain: seq<nat>, l: Live, c: CpuState)
    requires Linked(plan) && IsLoop(plan, chain) && LoopAdmitted(env, plan, chain, l)
    ensures
      var n := |chain| - 1;
      OneOp(env, plan, chain[n], LiveAt(env, plan, chain, l, n, c, l.mem)) == LoopCommit(env, plan, chain, l, c)
  {
    hide PrefixCharge, LoopCharge, OneOp, EdgeOf, LoopTaken, Linked, IsLoop, ActOf, Pipeline, StallAt;
    LoopShape(plan, chain);
    var n := |chain| - 1;
    var op := plan[chain[n]];
    LoopChargeSplits(env, plan, chain, l.fetch);
    TerminalActs(env, op, c, l.mem);
    assert op.flow == Conditional ==> op.takenCycles >= op.fallthroughCycles by { TerminalCycles(plan, chain[n]); }
    JumpTaken(op, c);
    ChainOp(env, plan, chain[n], LiveAt(env, plan, chain, l, n, c, l.mem), ActOf(env, op, c, l.mem));
  }

  /** A fallthrough op that its guards and limits let through hands over to its successor. */
  lemma ChainRuns(env: Env, plan: Plan, i: nat, j: nat, l: Live, c1: CpuState, m1: Memory)
    requires Linked(plan) && WellFormed(plan) && ChainStep(plan, i, j) && l.count < env.instructionLimit
    requires ActOf(env, plan[i], l.cpu, l.mem) == Act(c1, m1, false, 0)
    requires l.cycles + ChargeOf(env, plan[i], false, l.fetch) <= env.cycleLimit
    ensures RunPlain(env, plan, i, l)
            == RunPlain(env, plan, j, Live(c1, m1, l.count + 1, l.cycles + ChargeOf(env, plan[i], false, l.fetch),
                                           Fetch(true, plan[i].fallthrough), plan[i].pc))
  {
    hide ActOf, ChargeOf, OneOp, RunPlain, Linked, EdgeOf;
    RunUnfolds(env, plan, i, l);
    ChainOp(env, plan, i, l, Act(c1, m1, false, 0));
    FallsTo(plan[i], j);
  }

  lemma LoopOp(plan: Plan, chain: seq<nat>, n: nat)
    requires Linked(plan) && IsLoop(plan, chain) && n < |chain| - 1
    ensures WellFormed(plan) && Indices(plan, chain) && |chain| > 1 && Chained(plan, chain)
    ensures ChainStep(plan, chain[n], chain[n + 1]) && !IsStackOp(plan[chain[n]]) && plan[chain[n]].inst.kind == Integer
  {
    hide WellFormed, OpLinked;
    LoopShape(plan, chain);
    ChainNext(plan, chain, n);
  }

  /** An admitted loop can afford each of its straight-line ops. */
  lemma LoopAffords(env: Env, plan: Plan, chain: seq<nat>, l: Live, n: nat, c: CpuState, c1: CpuState)
    requires Chained(plan, chain) && |chain| > 1 && LoopAdmitted(env, plan, chain, l) && n < |chain| - 1
    ensures
      var at, op := LiveAt(env, plan, chain, l, n, c, l.mem), plan[chain[n]];
      && at.cpu == c && at.mem == l.mem && at.count < env.instructionLimit
      && at.cycles + ChargeOf(env, op, false, at.fetch) <= env.cycleLimit
      && LiveAt(env, plan, chain, l, n + 1, c1, l.mem)
         == Live(c1, l.mem, at.count + 1, at.cycles + ChargeOf(env, op, false, at.fetch), Fetch(true, op.fallthrough),
           op.pc)
  {
    hide ChargeOf, PrefixCharge, LiveAt, Chained, LoopCharge, StallAt;
    ChainIndices(plan, chain);
    LiveStep(env, plan, chain, l, n, |chain| - 1, c, l.mem, c1, l.mem);
    LoopChargeSplits(env, plan, chain, l.fetch);
  }

  /** One straight-line op of an admitted loop, one at a time. */
  lemma LoopStep(env: Env, plan: Plan, chain: seq<nat>, l: Live, n: nat, c: CpuState)
    requires Linked(plan) && IsLoop(plan, chain) && LoopAdmitted(env, plan, chain, l) && n < |chain| - 1
    ensures
      var c1 := IntegerEffect(plan[chain[n]].inst.integer, c);
      RunPlain(env, plan, chain[n], LiveAt(env, plan, chain, l, n, c, l.mem))
      == RunPlain(env, plan, chain[n + 1], LiveAt(env, plan, chain, l, n + 1, c1, l.mem))
  {
    hide IntegerEffect, ActOf, ChargeOf, RunPlain, Linked, LiveAt, Chained, IsLoop, LoopAdmitted, WellFormed, MemoryAct;
    LoopOp(plan, chain, n);
    var c1 := IntegerEffect(plan[chain[n]].inst.integer, c);
    SpanActs(env, plan, chain[n], c, l.mem);
    LoopAffords(env, plan, chain, l, n, c, c1);
    ChainRuns(env, plan, chain[n], chain[n + 1], LiveAt(env, plan, chain, l, n, c, l.mem), c1, l.mem);
  }

  /** Loop fusion: one admitted iteration is its ops one at a time, ending on the taken or the
      refunded fallthrough edge. */
  lemma {:induction false} LoopIsPlain(env: Env, plan: Plan, chain: seq<nat>, l: Live, n: nat, c: CpuState)
    requires Linked(plan) && IsLoop(plan, chain) && LoopAdmitted(env, plan, chain, l) && n < |chain|
    ensures
      var (l1, next) := LoopCommit(env, plan, chain, l, LoopFrom(plan, chain, n, c));
      && (next.Goto? ==> next.index < |plan|)
      && RunPlain(env, plan, chain[n], LiveAt(env, plan, chain, l, n, c, l.mem)) == RunNext(env, plan, l1, next)
    decreases |chain| - n
  {
    hide IntegerEffect, OneOp, RunPlain, Linked, LiveAt, IsLoop, LoopCommit, LoopAdmitted;
    LoopShape(plan, chain);
    if n == |chain| - 1 {
      RunUnfolds(env, plan, chain[n], LiveAt(env, plan, chain, l, n, c, l.mem));
      LoopEnds(env, plan, chain, l, c);
      CommitInside(env, plan, chain, l, c);
    } else {
      LoopStep(env, plan, chain, l, n, c);
      LoopIsPlain(env, plan, chain, l, n + 1, IntegerEffect(plan[chain[n]].inst.integer, c));
    }
  }

  lemma CommitInside(env: Env, plan: Plan, chain: seq<nat>, l: Live, c: CpuState)
    requires Linked(plan) && IsLoop(plan, chain)
    ensures
      var next := LoopCommit(env, plan, chain, l, c).1; next.Goto? ==> next.index < |plan|
  {
    hide LoopTaken, LoopCharge, EdgeOf;
    EdgeInside(plan, plan[chain[|chain| - 1]], LoopTaken(plan[chain[|chain| - 1]], c));
  }

  /** One entry of the fused code goes where the same ops go one at a time. */
  lemma FusedIsPlain(env: Env, plan: Plan, table: seq<Fused>, i: nat, l: Live)
    requires Linked(plan) && Detected(plan, table) && i < |plan|
    ensures
      var (l1, next) := FusedOp(env, plan, table, i, l);
      && (next.Goto? ==> next.index < |plan| && l.count < l1.count && l.count < env.instructionLimit)
      && RunPlain(env, plan, i, l) == RunNext(env, plan, l1, next)
  {
    hide OneOp, RunPlain, Linked, LoopFrom, SpanFrom, PairAdmitted, OpLinked, IsLoop, IsSpan, LoopAdmitted,
      SpanAdmitted, LiveAt, LoopCommit, SpanCommit, WellFormed, FinishSpan, SpanResume, LiveBefore, Agree;
    LinkedIsWellFormed(plan);
    assert FusedAt(plan, i, table[i]);
    RunUnfolds(env, plan, i, l);
    if l.count >= env.instructionLimit || PairAdmitted(env, plan[i], l) {
    } else if LoopReady(env, plan, table[i], l) {
      var chain := table[i].loop.value;
      LoopShape(plan, chain);
      LiveAtStart(env, plan, chain, l);
      LoopIsPlain(env, plan, chain, l, 0, l.cpu);
      LoopCounts(env, plan, chain, l, LoopFrom(plan, chain, 0, l.cpu));
    } else if SpanReady(env, plan, table[i], l) {
      var span := table[i].span.value;
      SpanShape(plan, span);
      AgreeWeakens(l.cpu, LiveBefore(OpsOf(plan, span), 0));
      SpanIsPlain(env, plan, span, l, OpsOf(plan, span), 0, l.cpu, l.cpu, l.mem);
      SpanStarts(env, plan, span, l);
      var e := SpanFrom(env, OpsOf(plan, span), 0, l.cpu, l.mem);
      SpanInside(env, plan, span, l, e);
      SpanCounts(env, plan, span, l, e);
    }
  }

  lemma LiveAtStart(env: Env, plan: Plan, chain: seq<nat>, l: Live)
    requires Indices(plan, chain) && chain != []
    ensures LiveAt(env, plan, chain, l, 0, l.cpu, l.mem) == l
  {
  }

  lemma LoopCounts(env: Env, plan: Plan, chain: seq<nat>, l: Live, c: CpuState)
    requires Indices(plan, chain) && chain != [] && LoopAdmitted(env, plan, chain, l)
    ensures l.count < LoopCommit(env, plan, chain, l, c).0.count <= env.instructionLimit
  {
    hide LoopCharge, LoopTaken, EdgeOf;
  }

  lemma SpanCounts(env: Env, plan: Plan, span: seq<nat>, l: Live, e: SpanEnd)
    requires Indices(plan, span) && span != [] && SpanAdmitted(env, plan, span, l)
    requires e.miss.Some? ==> e.miss.value < |span|
    ensures
      var (l1, next) := SpanCommit(env, plan, span, l, e);
      next.Goto? ==> l.count < l1.count <= env.instructionLimit
  {
    hide PrefixCharge, EdgeOf;
  }

  /** Execution of the compiled region from node `i` to its exit. */
  function RunFused(env: Env, plan: Plan, table: seq<Fused>, i: nat, l: Live): Outcome
    requires Linked(plan) && Detected(plan, table) && i < |plan|
    decreases if l.count < env.instructionLimit then env.instructionLimit - l.count else 0
  {
    FusedIsPlain(env, plan, table, i, l);
    var (l1, next) := FusedOp(env, plan, table, i, l);
    match next
    case Leave(exit, pc) => Outcome(l1, exit, pc)
    case Goto(j) => RunFused(env, plan, table, j, l1)
  }

  /** Region fusion: for every linked plan, every pair of limits and every pattern of guard misses,
      fused execution ends with the registers, flags, memory, counts, cycles, fetch state, exit
      reason and exit PC of one-op-at-a-time execution. */
  lemma {:induction false} RegionFusion(env: Env, plan: Plan, table: seq<Fused>, i: nat, l: Live)
    requires Linked(plan) && Detected(plan, table) && i < |plan|
    ensures RunFused(env, plan, table, i, l) == RunPlain(env, plan, i, l)
    decreases if l.count < env.instructionLimit then env.instructionLimit - l.count else 0
  {
    hide FusedOp, RunPlain, Linked, Detected;
    FusedIsPlain(env, plan, table, i, l);
    var (l1, next) := FusedOp(env, plan, table, i, l);
    if next.Goto? { RegionFusion(env, plan, table, next.index, l1); }
  }

  // ---------------------------------------------------------------- detection

  ghost function Below(n: nat): (r: set<nat>)
    ensures forall i: nat | i < n :: i in r
  {
    if n == 0 then {} else Below(n - 1) + {n - 1}
  }

  /** No loop of the plan starts at `start`. */
  ghost predicate NoLoopAt(plan: Plan, start: nat) {
    forall chain: seq<nat> :: IsLoop(plan, chain) ==> chain[0] != start
  }

  /** Walked nodes fall through to walked nodes or to `out`. */
  predicate WalkedTo(plan: Plan, seen: set<nat>, out: Option<nat>) {
    forall x | x in seen ::
      x < |plan| && plan[x].flow == FlowNext
        && (plan[x].edge0.Some? ==> plan[x].edge0.value in seen || plan[x].edge0 == out)
  }

  /** A chain from a walked node, or from `out`, stays among walked nodes until it meets `out`. */
  lemma {:induction false} ChainStays(plan: Plan, seen: set<nat>, out: Option<nat>, chain: seq<nat>, k: nat)
    requires WalkedTo(plan, seen, out) && Chained(plan, chain) && k < |chain|
    requires chain[0] in seen || out == Some(chain[0])
    ensures chain[k] in seen || exists j :: 0 <= j <= k && out == Some(chain[j])
    decreases k
  {
    if k == 0 {
      if chain[0] !in seen { assert out == Some(chain[0]); }
    } else {
      ChainStays(plan, seen, out, chain, k - 1);
      if chain[k - 1] in seen {
        assert ChainStep(plan, chain[k - 1], chain[k]);
        if chain[k] !in seen { assert out == Some(chain[k]); }
      }
    }
  }

  /** Every loop through walked nodes meets `out`, at its last op unless `out` falls through. */
  lemma LoopMeets(plan: Plan, seen: set<nat>, out: Option<nat>, chain: seq<nat>)
    requires WalkedTo(plan, seen, out) && IsLoop(plan, chain) && (chain[0] in seen || out == Some(chain[0]))
    ensures
      exists j ::
        0 <= j < |chain| && out == Some(chain[j]) && (plan[chain[j]].flow == FlowNext || j == |chain| - 1)
  {
    hide IsStackOp;
    var t := |chain| - 1;
    ChainStays(plan, seen, out, chain, t);
    var j :| 0 <= j <= t && out == Some(chain[j]);
    if j < t { assert ChainStep(plan, chain[j], chain[j + 1]); }
  }

  lemma ClosedWalk(plan: Plan, seen: set<nat>, cursor: Option<nat>, start: nat)
    requires WalkedTo(plan, seen, cursor) && start in seen && (cursor.Some? ==> cursor.value in seen)
    ensures NoLoopAt(plan, start)
  {
    hide IsStackOp;
    assert WalkedTo(plan, seen, None);
    forall chain: seq<nat> | IsLoop(plan, chain)
      ensures chain[0] != start
    {
      if chain[0] == start { LoopMeets(plan, seen, None, chain); }
    }
  }

  /** The search stops at node `i`, which cannot be inside a loop or end one back at `start`. */
  lemma DeadEnd(plan: Plan, seen: set<nat>, i: nat, start: nat)
    requires WalkedTo(plan, seen, Some(i)) && i < |plan| && start < |plan| && (start in seen || i == start)
    requires
      || IsStackOp(plan[i]) || plan[i].inst.kind != Integer
      || (plan[i].flow != FlowNext
          && (i == start || !((plan[i].flow == Jump || plan[i].flow == Conditional)
             && plan[i].target == plan[start].pc)))
    ensures NoLoopAt(plan, start)
  {
    hide IsStackOp;
    forall chain: seq<nat> | IsLoop(plan, chain)
      ensures chain[0] != start
    {
      assert ChainStep(plan, chain[0], chain[1]);
      if chain[0] == start { LoopMeets(plan, seen, Some(i), chain); }
    }
  }

  /** The loop search from one start node: follow integer fallthrough edges to a branch back. It
      finds the loop at `start` exactly when there is one. */
  method FindLoop(plan: Plan, start: nat) returns (chain: Option<seq<nat>>)
    requires Linked(plan) && start < |plan|
    ensures chain.Some? ==> IsLoop(plan, chain.value) && chain.value[0] == start
    ensures chain.None? ==> NoLoopAt(plan, start)
  {
    hide OpLinked, IsStackOp;
    var seen: set<nat> := {};
    var cursor: Option<nat> := Some(start);
    var walked: seq<nat> := [];
    while cursor.Some? && cursor.value !in seen
      invariant seen <= Below(|plan|)
      invariant cursor.Some? ==> cursor.value < |plan|
      invariant Indices(plan, walked)
      invariant walked == [] ==> cursor == Some(start)
      invariant walked != [] ==> walked[0] == start
      invariant WalkedTo(plan, seen, cursor) && (start in seen || cursor == Some(start))
      invariant start in seen <==> walked != []
      invariant walked != [] && cursor.Some? ==> ChainStep(plan, walked[|walked| - 1], cursor.value)
      invariant forall k | 0 <= k < |walked| - 1 :: ChainStep(plan, walked[k], walked[k + 1])
      invariant forall k | 0 <= k < |walked| :: !IsStackOp(plan[walked[k]]) && plan[walked[k]].inst.kind == Integer
      decreases Below(|plan|) - seen
    {
      var i := cursor.value;
      ghost var before := seen;
      seen := seen + {i};
      var op := plan[i];
      if IsStackOp(op) || op.inst.kind != Integer {
        DeadEnd(plan, before, i, start);
        return None;
      }
      walked := walked + [i];
      if op.flow == FlowNext {
        assert EdgeAt(plan, op.edge0, op.fallthrough) by { LinkedEdge(plan, i); }
        cursor := op.edge0;
      } else {
        if |walked| > 1 && (op.flow == Jump || op.flow == Conditional) && op.target == plan[start].pc {
          return Some(walked);
        }
        DeadEnd(plan, before, i, start);
        return None;
      }
    }
    ClosedWalk(plan, seen, cursor, start);
    return None;
  }

  lemma LinkedEdge(plan: Plan, i: nat)
    requires Linked(plan) && i < |plan| && plan[i].flow == FlowNext
    ensures EdgeAt(plan, plan[i].edge0, plan[i].fallthrough)
  {
    assert OpLinked(plan, plan[i]);
  }

  /** Where a span could go on: nowhere, into a node already taken, or at an op no span holds. */
  predicate SpanBlocked(plan: Plan, covered: set<nat>, span: seq<nat>, next: Option<nat>) {
    next.Some? ==>
      || next.value in covered || next.value in span || next.value >= |plan|
      || plan[next.value].flow != FlowNext || IsStackOp(plan[next.value])
  }

  /** The span search from one start node: the longest run of fallthrough ops not yet covered, up to
      sixteen. */
  method FindSpan(plan: Plan, covered: set<nat>, start: nat) returns (span: seq<nat>)
    requires Linked(plan) && start < |plan|
    ensures |span| >= 3 ==> IsSpan(plan, span) && span[0] == start
    ensures forall i | i in span :: i !in covered
    ensures forall j, k | 0 <= j < k < |span| :: span[j] != span[k]
    ensures Indices(plan, span)
    ensures |span| == MAX_SPAN
            || SpanBlocked(plan, covered, span, if span == [] then Some(start) else plan[span[|span| - 1]].edge0)
  {
    hide OpLinked, IsStackOp;
    var cursor: Option<nat> := Some(start);
    span := [];
    while cursor.Some? && |span| < MAX_SPAN && cursor.value !in covered && cursor.value !in span
      invariant |span| <= MAX_SPAN && Indices(plan, span)
      invariant cursor.Some? ==> cursor.value < |plan|
      invariant cursor == if span == [] then Some(start) else plan[span[|span| - 1]].edge0
      invariant span != [] ==> span[0] == start
      invariant span != [] && cursor.Some? ==> ChainStep(plan, span[|span| - 1], cursor.value)
      invariant forall k | 0 <= k < |span| - 1 :: ChainStep(plan, span[k], span[k + 1])
      invariant forall k | 0 <= k < |span| :: plan[span[k]].flow == FlowNext && !IsStackOp(plan[span[k]])
      invariant forall i | i in span :: i !in covered
      invariant forall j, k | 0 <= j < k < |span| :: span[j] != span[k]
      decreases MAX_SPAN - |span|
    {
      var i := cursor.value;
      var op := plan[i];
      if op.flow != FlowNext || IsStackOp(op) { break; }
      span := span + [i];
      assert EdgeAt(plan, op.edge0, op.fallthrough) by { LinkedEdge(plan, i); }
      cursor := op.edge0;
    }
  }

  /** Both detection passes. Every loop head is found, no node lies in two spans, and a loop head
      starts none. */
  method Detect(plan: Plan) returns (table: seq<Fused>)
    requires Linked(plan)
    ensures Detected(plan, table)
    ensures forall i | 0 <= i < |plan| :: table[i].loop.None? ==> NoLoopAt(plan, i)
    ensures forall i, j | 0 <= i < j < |plan| && table[i].span.Some? && table[j].span.Some? ::
              forall k | k in table[i].span.value :: k !in table[j].span.value
    ensures forall i | 0 <= i < |plan| :: table[i].loop.Some? ==> table[i].span.None?
  {
    hide Linked, IsLoop, IsSpan, NoLoopAt, SpanBlocked;
    table := [];
    var covered: set<nat> := {};
    var i := 0;
    while i < |plan|
      invariant 0 <= i == |table| <= |plan|
      invariant forall k | 0 <= k < i :: FusedAt(plan, k, table[k])
      invariant forall k | 0 <= k < i :: table[k].loop.None? ==> NoLoopAt(plan, k)
      invariant forall k | 0 <= k < i && table[k].span.Some? :: forall x | x in table[k].span.value :: x in covered
      invariant forall a, b | 0 <= a < b < i && table[a].span.Some? && table[b].span.Some? ::
                  forall x | x in table[a].span.value :: x !in table[b].span.value
      invariant forall k | 0 <= k < i :: table[k].loop.Some? ==> table[k].span.None?
    {
      var loop := FindLoop(plan, i);
      var entry := Fused(loop, None);
      if i !in covered && loop.None? {
        var span := FindSpan(plan, covered, i);
        if |span| >= 3 {
          entry := Fused(loop, Some(span));
          covered := covered + (set x | x in span);
        }
      }
      table := table + [entry];
      i := i + 1;
    }
  }
}
