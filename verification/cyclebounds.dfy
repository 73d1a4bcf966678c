/** The minimum cycles of an effect summary against the cycles checked execution charges, after
    include/fil/cpu/effect_summary.hpp and src/cpu/effect_summary.cpp. */
module CycleBounds {
  import opened Words
  import opened Cpu
  import opened Lowering
  import opened Native
  import opened Stack
  import opened Timing
  import opened Blocks
  import opened Trace
  import opened Refinement
  import opened Returns
  import opened Effects

  /** The fetch stalls of the next `n` ops from op `i`. */
  function Stalls(ops: seq<TraceOp>, stall: StallFn, f: Fetch, i: nat, n: nat): nat
    requires i + n <= |ops|
    decreases n
  {
    if n == 0 then 0
    else stall(ops[i].pc, Sequential(f, ops[i].pc)) + Stalls(ops, stall, Fetch(true, OpEnd(ops[i])), i + 1, n - 1)
  }

  /** Recorded cycles are never zero, so the summary counts exactly the recorded ones. */
  lemma RecordedCost(code: Code, src: TraceSource, op: TraceOp)
    requires Coded(code, src, op)
    ensures Cost(op) == op.executionCycles
  {
    hide ValidateSource, DecoderShaped, StackDecoded;
    BaseIsPositive(op.decoded);
  }

  lemma {:induction false} ChargeIsCost(
    code: Code, sources: seq<TraceSource>, ops: seq<TraceOp>, stall: StallFn, f: Fetch, i: nat, n: nat)
    requires CodedTrace(code, sources, ops) && i + n <= |ops|
    ensures TraceCharge(ops, stall, f, i, n) + CostOf(ops, i) == CostOf(ops, i + n) + Stalls(ops, stall, f, i, n)
    decreases n
  {
    hide Coded, Cost, Words.Add;
    if n > 0 {
      RecordedCost(code, sources[i], ops[i]);
      ChargeIsCost(code, sources, ops, stall, Fetch(true, OpEnd(ops[i])), i + 1, n - 1);
      assert CostOf(ops, i + 1) == CostOf(ops, i) + Cost(ops[i]);
    }
  }

  /** The summarised cycles of the retired ops are a lower bound on what checked execution charges for
      them, if and only if the fetch stalls cover a recorded refill that the last op did not take.
      Only a final POP that lands in sequence can fall short. */
  lemma MinimumCycles(code: Code, stall: StallFn, sources: seq<TraceSource>, p: Params, s: Progress, f: Fetch)
    requires CodedTrace(code, sources, p.ops) && RamBus(p.bus)
    requires SafeCore(s.cpu) && (p.ops != [] ==> s.cpu.r[15] == p.ops[0].pc)
    requires var r := Run(p, s); 0 < r.retired <= |p.ops| && TokenFree(code, p.ops, 0, s.cpu, s.mem, r.retired)
    ensures
      var n := Run(p, s).retired;
      var last := p.ops[n - 1];
      var before := ChargedSteps(code, stall, s.cpu, s.mem, f, n - 1);
      var all := ChargedSteps(code, stall, s.cpu, s.mem, f, n);
      && before.Some? && all.Some?
      && var next := Successor(last, before.value.cpu, before.value.mem);
         && (CostOf(p.ops, n) <= all.value.total
             <==> Refill(last, last.expectedNextPc) <= Stalls(p.ops, stall, f, 0, n) + Refill(last, next))
         && (!PopsPc(last.decoded) ==> CostOf(p.ops, n) <= all.value.total)
  {
    hide Step, RamBus, CodedTrace, Run, TokenFree, TraceCharge, ChargedSteps, Ready, SafeCore, Refill, Stalls, CostOf,
      PopWord, ClearBit0;
    ChargeExact(code, stall, sources, p, s, f);
    var n := Run(p, s).retired;
    ChargeIsCost(code, sources, p.ops, stall, f, 0, n);
    CostOfNone(p.ops);
  }

  lemma CostOfNone(ops: seq<TraceOp>)
    ensures CostOf(ops, 0) == 0
  {
  }

  /** A concrete shortfall: POP {pc} recorded to return to 0x200 that lands in sequence, fetched
      without stalls, is summarised at four cycles and charged two. */
  lemma MinimumMissed(f: Fetch)
    ensures
      var free: StallFn := (pc, sequential) => 0;
      var ch := ChargedSteps(PopCode(), free, PopCore(), PopMemory(0x103), f, 1);
      ch.Some? && ch.value.total == 2 && CostOf([PopTrace(0x200)], 1) == 4
  {
    var free: StallFn := (pc, sequential) => 0;
    Overcharged(free, f);
    var ops := [PopTrace(0x200)];
    assert CostOf(ops, 0) == 0 && Cost(ops[0]) == 4;
    assert TraceCharge(ops, free, Fetch(true, OpEnd(ops[0])), 1, 0) == 0;
    assert TraceCharge(ops, free, f, 0, 1) == 4;
  }
}
