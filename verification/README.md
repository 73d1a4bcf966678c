# Verified model of the FIL Cortex-M4 core

FIL emulates a Cortex-M4. A plain executor retires one Thumb instruction at a time; several faster
forms must retire exactly what it retires and charge exactly what it charges. This project models
the plain executor, every fast form above the level of host machine code, the interrupt and
exception controllers, and the stdio frame codec, and proves that they agree.

`Cpu.Step` is the reference: one checked instruction on registers, banked stack pointers, xPSR
(with IT state), byte memory and pipeline cycles. `Timing.ChargedSteps` runs n of them and adds the
fetch stalls; every fast form is proved equal to it.

## What is proved

- **Lowering.** One FilIR step of any accepted instruction is the checked step, on every register,
  xPSR bit and cycle; a block retires an exact prefix under any limit.
- **Staged credit.** Planning with worst-case charges, refunding failed branches and the unexecuted
  tail, and adding one refill leaves exactly the credit the checked steps leave.
- **Fast handlers.** Every handler of `executeJitFast` declines and changes nothing, or ends in the
  executor's exact state; the reversible loop over a prepared block is as many checked steps, with
  exact credit (a division charged by its live divisor), and stops only where it must.
- **Traces.** For every plan, limit, charge table, helper behaviour and exit, a native trace leaves
  what as many checked steps leave *if and only if* no retired op returned through the EXC_RETURN
  token of an extended frame. Its guards test for 0xfffffff0-0xffffffff, so a POP of 0xffffffe1,
  0xffffffe9 or 0xffffffed into the PC is taken as an ordinary return. The recorded charge is exact
  *if and only if* the word the last POP will load agrees with the recorded successor on refilling
  the pipeline; runs that are charged two cycles too many and two too few are exhibited. A POP
  through the direct-read window is the POP through the bulk helper *if and only if* its frame does
  not begin below the window.
- **Admission.** The planned prefix is the longest affordable one, the cached table is exact for
  either entry fetch phase, and admitted mode equals checked mode, helpers' cycle counts included.
- **Regions.** The builder's graph is closed. Fused spans with dead-flag elimination, fused loops and
  fused IT pairs equal one-op-at-a-time execution under every limit and miss pattern, and that
  equals checked execution.
- **Effect summary.** Every access of the summarised prefix is private, with the abstract stack
  pointer equal to the real one. Its minimum cycles bound the real charge from below *if and only if*
  fetch stalls cover a recorded refill the last POP did not take.
- **Interrupts.** No asserted line is lost, selection is the least eligible (priority, number) pair,
  and SysTick batching is ticking. Entries chosen by `enterPending`, returns and device events keep
  the preemption discipline; a priority write keeps it *if and only if* it leaves an active exception
  between its neighbours, and a supervisor call, which the board enters whatever the priorities
  (src/sim/board.cpp:1849-1852), *if and only if* it preempts the top. A run that re-enters an active
  interrupt after a priority write is exhibited. Nested exceptions restore what they interrupted,
  floating-point registers of eager frames included. A nested entry abandons an outer lazy FP
  reservation; the FP registers then come back right *if and only if* the unwritten frame memory
  already held them, and a run that loses S0 is exhibited.
- **Codec.** Any frames cut into any chunks come out in order exactly when every chunk fits the
  buffer, `finish` succeeds exactly at a frame boundary, and every accepted byte stream is the
  encoding of the frames produced and the bytes still held, so no two streams decode alike.

## Conventions

A word is an integer below 2^32 with wrap-around written out; register lists and NVIC words are
sequences of bits; xPSR is a record packed and unpacked only when stacked. Memory is a byte map with
a set of writable addresses; code is an immutable map disjoint from it. Code outside this model
(buses, devices, fetch timing, the instruction decoder) enters as a parameter: a helper may decline
any access, and an accepted access is the plain memory access. Facts about the decoder are explicit
predicates (`DecoderShaped`, `StackDecoded`, `MovDecoded`, `Shaped`, `FastDecoded`) and restate what
src/cpu/decoder.cpp guarantees. Mutable objects of the source are classes, its loops are loops.

Where code and comment disagree the code is followed: the frame header carries version 2 although a
message in src/cli/network_protocol.cpp speaks of version 1, and the trace guard of
src/cpu/micro_jit.cpp admits the three extended-frame tokens its comment excludes.

The exception model follows sections B1.5.4, B1.5.6, B1.5.7 and B1.5.8 of the ARMv7-M Architecture
Reference Manual (ARM DDI 0403), the NVIC section B3.4, SysTick section B3.3, and the shift, add and
condition primitives sections A2.2.1 and A7.3.

## Model

| member | source | states |
|---|---|---|
| Words.AddWithCarryMeaning | src/cpu/execute.cpp:109-125 | The sum modulo 2^32; C is unsigned overflow, V is signed overflow, both ways. |
| Words.CompareConditions | src/cpu/execute.cpp:172-196 | CMP followed by EQ, CS, HI, GE or GT is the unsigned or signed comparison the condition is named after. |
| Cpu.StepsCompose | src/cpu/cortex_m4.cpp:751-839 | a + b checked steps are a steps and then b, cycles added. |
| Timing.ChargedIsSteps | src/cpu/cortex_m4.cpp:751-839 | Charged steps retire exactly what plain steps retire, and fault exactly when they do. |
| Timing.ChargedCompose | src/cpu/cortex_m4.cpp:2602-2613 | Pipeline cycles and fetch stalls add up over consecutive runs, with the fetch phase carried across. |
| Micro.InterpretMicroOps | src/cpu/micro_jit_ir.cpp:387-584 | The interpreter loop is the run function the other results speak about: final core and retired count under any limit. |
| Micro.EffectKeepsRest | src/cpu/micro_jit_ir.cpp:387-538 | No FilIR op writes an xPSR bit outside NZCV. |
| Lowering.LoweringSound | src/cpu/micro_jit_ir.cpp:54-347 | For every accepted instruction outside an IT block, one FilIR step is the checked step: registers, LR, PC, all xPSR bits, memory and cycles. |
| Blocks.BuildMicroBlock | src/cpu/micro_jit_ir.cpp:349-373 | Accepts exactly the runs of 1 to 16 lowerable sources with B and BL only at the end, and returns their lowerings in order. |
| Blocks.BlockIsSteps | src/cpu/micro_jit_ir.cpp:387-584 | A prepared block under any instruction limit retires an exact prefix: core, fetch state and charge of as many checked steps. |
| Blocks.StopsOnlyWhenTaken | src/cpu/micro_jit_ir.cpp:539-579 | A run ends short of limit and block only at a branch, with the PC at its target. |
| Blocks.ChargesSettle | src/cpu/cortex_m4.cpp:2396-2437 | What a run really costs is the plan with failed branches refunded and one refill on the last op. |
| Blocks.Core.Plan | src/cpu/cortex_m4.cpp:2322-2367 | Planned charges are base plus stall, credit is conserved, every op's taken refill stays affordable, and planning stops only at the limit, off the block, after a terminator or before an op it might not pay. |
| Blocks.Core.Refund | src/cpu/cortex_m4.cpp:2396-2409 | Each failed branch comes back to one cycle and credit plus charges is conserved. |
| Blocks.Core.ReturnTail | src/cpu/cortex_m4.cpp:2410-2415 | Charges of ops that did not retire return to the credit exactly. |
| Blocks.Core.Settle | src/cpu/cortex_m4.cpp:2396-2437 | Refund, tail and refill together: credit plus settled charges equals the initial credit, without underflow. |
| Blocks.Core.StepMicroBlock | src/cpu/cortex_m4.cpp:2315-2450 | Retires what FilIR retires of the planned prefix; core, fetch state and remaining credit are those of as many checked steps; falls back untouched exactly when no op can be planned. |
| Handlers.JitAddIsAddWithCarry | src/cpu/cortex_m4.cpp:89-100 | The packed adder, V from the sign of ~(left ^ right) & (left ^ value), gives the value and four flags of AddWithCarry. |
| Handlers.MovHandler | src/cpu/cortex_m4.cpp:866-890 | MOV, MOVW and MOVT handlers end in the executor's state. |
| Handlers.AddSubHandler | src/cpu/cortex_m4.cpp:891-909 | ADD, ADC, SUB and SBC handlers end in the executor's state, PC-relative forms included. |
| Handlers.CompareHandler | src/cpu/cortex_m4.cpp:910-920 | CMP and CMN handlers end in the executor's state. |
| Handlers.LogicHandler | src/cpu/cortex_m4.cpp:921-936 | Bitwise handlers end in the executor's state, shifter carry included. |
| Handlers.ShiftHandler | src/cpu/cortex_m4.cpp:969-980 | Shift handlers end in the executor's state for immediate and register amounts. |
| Handlers.RsbTstHandler | src/cpu/cortex_m4.cpp:1006-1030 | RSB and TST handlers end in the executor's state, 16-bit operand selection included. |
| Handlers.ExtendHandler | src/cpu/cortex_m4.cpp:1066-1089 | UBFX and the sign and zero extensions end in the executor's state. |
| Handlers.BranchHandler | src/cpu/cortex_m4.cpp:848-865 | B, BL, CBZ and CBNZ handlers end in the executor's state. |
| Handlers.ExchangeHandler | src/cpu/cortex_m4.cpp:1120-1131 | BX accepts exactly EXC_RETURN tokens and Thumb targets, and then does what the executor does. |
| Handlers.WordHandler | src/cpu/cortex_m4.cpp:1185-1197 | Plain word transfers accept exactly a backed access and then do what the executor does. |
| Handlers.LoadOneHandler | src/cpu/cortex_m4.cpp:1198-1267 | Word, byte and halfword loads with every addressing form, sign extension and writeback: declined exactly when the access is, else the executor's state. |
| Handlers.StoreOneHandler | src/cpu/cortex_m4.cpp:1198-1267 | The same for stores. |
| Handlers.StoreHandler | src/cpu/cortex_m4.cpp:1298-1340 | STM and PUSH as one word run equal the executor's register-by-register stores and writeback. |
| Handlers.LoadHandler | src/cpu/cortex_m4.cpp:1132-1184 | LDM and POP as one word run, a loaded PC validated before any commit, equal the executor's loads, commits, writeback and branch or pended return. |
| MathOps.SignedQuotientMeaning | src/cpu/execute.cpp:508-525 | SDIV by any non-zero divisor is the truncated quotient modulo 2^32, reads back as the true quotient unless that is 2^31, and that happens exactly for the most negative number over -1. |
| MathOps.LongProductMeaning | src/cpu/execute.cpp:484-500 | The two halves UMULL or SMULL writes read back, unsigned or in two's complement, as the exact product. |
| MathOps.LeadingExact | src/cpu/execute.cpp:554-559 | CLZ: the value lies below the power of two its leading zeros leave, and at or above the next lower one. |
| MathOps.ReverseTwice | src/cpu/execute.cpp:607-623 | REV and REV16 undo themselves. |
| MathOps.SelectsCarries | src/cpu/execute.cpp:526-553 | SEL after UADD8 takes a byte from the first operand exactly where the byte addition carried. |
| Handlers.MultiplyHandler | src/cpu/cortex_m4.cpp:937-989 | MUL, MLA and MLS handlers end in the executor's state, N and Z of MULS included. |
| Handlers.LongMultiplyHandler | src/cpu/cortex_m4.cpp:990-1005 | UMULL and SMULL handlers write both product halves as the executor does. |
| Handlers.DivideHandler | src/cpu/cortex_m4.cpp:945-968 | UDIV and SDIV handlers end in the executor's state, zero divisors and the overflowing quotient included. |
| Handlers.SingleHandler | src/cpu/cortex_m4.cpp:1031-1055 | CLZ, REV, REV16 and REVSH handlers end in the executor's state. |
| Handlers.AddLanes | src/cpu/cortex_m4.cpp:1090-1105 | The UADD8 lane loop gives the four byte sums and the GE bits of their carries. |
| Handlers.SelectLanes | src/cpu/cortex_m4.cpp:1106-1117 | The SEL lane loop selects each byte by its GE bit. |
| Handlers.DspHandler | src/cpu/cortex_m4.cpp:1056-1119 | BFC, UADD8 and SEL handlers end in the executor's state. |
| Handlers.TwoWords | src/cpu/cortex_m4.cpp:1287-1289 | One probe over two words loads or stores what two consecutive word accesses do, faults included. |
| Handlers.DoubleHandler | src/cpu/cortex_m4.cpp:1268-1297 | LDRD and STRD as one two-word run are declined exactly when the run is, else end in the executor's state, writeback included. |
| FastBlocks.PrepareBlock | src/cpu/cortex_m4.cpp:1402-1454 | The longest contiguous run from the entry, at most 16 ops, cut only at system, floating-point and IT boundaries and ended by the first terminator, each entry classified and costed. |
| FastBlocks.HandledKeeps | src/cpu/cortex_m4.cpp:842-1345 | Whatever a handler completes keeps Thumb state outside IT, and only control flow moves the PC, so the prepared refill is the true one. |
| FastBlocks.CompactHandler | src/cpu/cortex_m4.cpp:2545-2568 | The six inlined forms equal the executor although the instruction address is installed only after they run. |
| FastBlocks.FastCore.ExecuteJitFast | src/cpu/cortex_m4.cpp:842-1345 | Declines and changes nothing, or leaves exactly the executor's core and memory; accepts exactly when its accesses are backed and its target is a Thumb address or token. |
| FastBlocks.FastCore.StepCached | src/cpu/cortex_m4.cpp:2490-2621 | One turn of the loop is one checked step with its exact charge, a division charged by its live divisor, or changes nothing and names the first failed test. |
| FastBlocks.FastCore.RunBlock | src/cpu/cortex_m4.cpp:2490-2622 | Retiring k ops is k checked steps in core, memory and pipeline cycles; the credit falls by exactly their charge; the loop stops only at the limit, after leaving the block, or before an op it may not admit. |
| Native.BuildStackPlan | include/fil/cpu/native_stack_plan.hpp:13-21 | Taking the lowest set bit repeatedly yields the registers in ascending order, and nothing for lists outside the ABI. |
| Native.BuildNativeTrace | src/cpu/native_trace.cpp:8-149 | Accepts a source list exactly when a valid trace of it exists, and returns that trace; a rejection commits nothing. |
| Stack.CommitFrame | src/cpu/native_stack.cpp:92-99 | The in-place register walk commits the frame: registers, both stack pointer copies and PC. |
| Stack.PushIsExecute | src/cpu/native_stack.cpp:13-31 | A native PUSH that goes through is the checked PUSH. |
| Stack.PopIsExecute | src/cpu/native_stack.cpp:33-101 | A native POP that goes through is the checked POP if and only if the word loaded into the PC is not an extended-frame token. |
| Stack.TokensSplit | src/cpu/native_stack.cpp:82 | The tokens the native guard misses are exactly 0xffffffe1, 0xffffffe9 and 0xffffffed. |
| PopWindow.AdmitsExactly | src/cpu/native_stack.cpp:68-74 | The wrapping 64-bit test admits frames inside the window, and frames that begin at most their own length below it and end inside. |
| PopWindow.WindowReadExact | src/cpu/native_stack.cpp:68-79 | An admitted window read is the guest frame whatever host memory surrounds the window, if and only if the frame does not begin below it. |
| PopWindow.WindowPopIsPop | src/cpu/native_stack.cpp:33-101 | A POP not below the window is the windowless POP over a helper that also accepts the window, so the results about native POP cover it. |
| PopWindow.WindowMiss | src/cpu/native_stack.cpp:68-74 | The failing input: two words popped from four bytes below a window pass the test. |
| Trace.Context.Execute | src/cpu/micro_jit.cpp:908-1021 | The in-place trace loop computes the run function of the trace results, for every exit. |
| Refinement.MemoryExecutes | src/cpu/micro_jit.cpp:970-999 | A native load or store that goes through is the checked one. |
| Refinement.BxExecutes | src/cpu/micro_jit.cpp:937-944 | A guarded BX LR is the checked BX unless LR is an extended-frame token, in which case the checked core pends a return. |
| Refinement.TokenBranches | src/cpu/micro_jit.cpp:937-944 | The BX guard has the same gap: with successor 0xffffffe8 and LR 0xffffffe9 it holds and the op branches, while the checked core pends a return. |
| Refinement.OpRetires | src/cpu/micro_jit.cpp:917-1019 | Any op of a valid trace, its guard holding, is the checked step on registers, flags, bytes and cycles, unless it returns through such a token. |
| Refinement.TraceRefines | src/cpu/micro_jit.cpp:908-1021 | From every admitted core, under every limit, table and helper pattern, and for every exit, the trace leaves what as many checked steps leave if and only if no retired op returned through such a token. |
| Returns.TokenReturn | src/cpu/native_stack.cpp:80-100 | The failing input: POP {pc} of 0xffffffe9 under dynamic returns exits the trace at 0xffffffe8 with nothing pending, while the checked POP stays in sequence and pends the token. |
| Returns.LoopLast | src/cpu/micro_jit.cpp:917-1019 | The last retired op goes where the checked state before it says: to the word a POP loads, else to the recorded successor. |
| Returns.ChargeExact | src/cpu/cortex_m4.cpp:1706-1714 | From the start state: the recorded charge of a token-free run is the true one if and only if the word its last op will pop, or the recorded successor, agrees with the recorded successor on the refill. |
| Returns.Undercharged | src/cpu/cortex_m4.cpp:1941-1966 | A concrete run: a POP recorded in sequence that returns to 0x200 is charged two cycles too few. |
| Returns.Overcharged | src/cpu/cortex_m4.cpp:1941-1966 | A concrete run: a POP recorded to return to 0x200 that lands in sequence is charged two cycles too many. |
| Refinement.AdmittedIsChecked | src/cpu/native_execution.cpp:62-70 | With running sums and an accepted table, skipping every cycle probe changes neither state, counts, cycles nor exit, nor what any helper observes; helpers are arbitrary. |
| Admission.FillTables | src/cpu/cortex_m4.cpp:1841-1865 | The single pass fills the charges, their running sums and the length of the 16-bit prefix. |
| Admission.TableIsExact | src/cpu/cortex_m4.cpp:1842-1866 | Cached sum plus first_fetch_extra is the exact charge of every prefix, for either entry fetch phase. |
| Admission.TableFits | src/cpu/cortex_m4.cpp:1851-1862 | The 32-bit sums of at most 64 ops never wrap. |
| Admission.UpperBound | src/cpu/cortex_m4.cpp:1884-1885 | The binary search splits a sorted table exactly at the value. |
| Admission.Admit | src/cpu/cortex_m4.cpp:1866-1888 | The planned prefix is admissible and no longer one is; none is when it declines. |
| Admission.ContextValid | src/cpu/cortex_m4.cpp:1889-1901 | The context handed to the kernel passes its admission check and holds running sums. |
| Admission.Settles | src/cpu/cortex_m4.cpp:1941-1966 | After any helper behaviour the retired charge is covered by the credit and the retirement metadata is consistent. |
| Admission.Dispatcher.ExecuteNativeTrace | src/cpu/cortex_m4.cpp:1808-1966 | The kernel runs the longest admissible prefix; the credit pays exactly the recorded charge; core, memory and fetch state are those of as many checked steps; declining changes nothing. |
| Region.WindowExact | src/cpu/micro_jit.cpp:2229-2241 | The two wrapping subtractions and compares admit exactly the accesses inside the window. |
| DeadFlags.MarkDead | src/cpu/micro_jit.cpp:2573-2591 | The backward pass marks exactly the flag writes no later op, access or span end can observe under its liveness rule. |
| DeadFlags.EffectIgnoresFlags | src/cpu/micro_jit_ir.cpp:387-538 | Results depend on flags only through RRX, full arithmetic producers fix NZCV, other ops keep it. |
| DeadFlags.EffectWithoutFlags | src/cpu/micro_jit.cpp:2600-2607 | Clearing the flag-setting bit changes only the flags. |
| DeadFlags.OpKeepsAgreement | src/cpu/micro_jit.cpp:2570-2609 | One emitted op, deleted or with its flag write dropped where dead, keeps registers equal and flags equal where live. |
| Fusion.SpanIsPlain | src/cpu/micro_jit.cpp:2557-2630 | From any op of an admitted span the emitted body, deferred counters and miss stubs end where one-op execution ends, a miss at any interior op included. |
| Fusion.LoopIsPlain | src/cpu/micro_jit.cpp:2473-2515 | One admitted loop iteration equals its ops one at a time, with the conservative charge refunded on fallthrough. |
| Fusion.FusedIsPlain | src/cpu/micro_jit.cpp:2663-2710 | Entering any node through its pair, loop, span or single form leads where single ops lead. |
| Fusion.RegionFusion | src/cpu/micro_jit.cpp:2420-2630 | For every plan, both limits and every miss pattern, fused execution ends with the registers, flags, memory, count, cycles, fetch state, exit and PC of one-op execution. |
| Fusion.FindLoop | src/cpu/micro_jit.cpp:2452-2471 | Finds the integer loop starting at a node exactly when there is one. |
| Fusion.FindSpan | src/cpu/micro_jit.cpp:2525-2545 | A run of uncovered distinct fallthrough ops, maximal up to 16. |
| Fusion.Detect | src/cpu/micro_jit.cpp:2451-2546 | Every loop head is found, spans are disjoint, and no loop head starts a span. |
| ItPairs.PairFacts | src/cpu/native_region.cpp:98-110 | Recognition guarantees a two-slot IT block with opposite conditions and the registers and values of both moves. |
| ItPairs.PairIsThreeSteps | src/cpu/micro_jit.cpp:2631-2662 | For every recognised pair and every NZCV the fused step is three checked steps: registers, flags, cleared IT state, PC, count, fetch state and cycles. |
| RegionGraph.Builder.Link | src/cpu/native_region.cpp:67-82 | An edge names the node whose PC is the target; a missing edge is outside the image or window, or sets the capacity flag. |
| RegionGraph.Builder.Expand | src/cpu/native_region.cpp:87-153 | Decoding one node gives it exact edges and leaves the decoded part of the others alone. |
| RegionGraph.Builder.Build | src/cpu/native_region.cpp:37-157 | Accepts exactly the valid image, entry and window; the worklist ends with distinct even in-image PCs within capacity, every node decoded and every edge exact; the flag is set only in discovery mode and only if a target was dropped. |
| RegionGraph.GraphClosed | src/cpu/native_region.cpp:87-153 | Without the capacity flag every successor of every node, pair interiors included, has a node or is external. |
| RegionGraph.WindowNeverLimited | src/cpu/native_region.cpp:62-72 | Window mode never drops a target. |
| RegionSteps.MemoryNodeExecutes | src/cpu/micro_jit.cpp:2290-2309 | A guarded region access is the checked load or store, register offsets and writeback included. |
| RegionSteps.PopNodeExecutes | src/cpu/micro_jit.cpp:2310-2325 | A guarded region POP is the checked POP; its wider return guard leaves no token to pend. |
| RegionSteps.PushNodeExecutes | src/cpu/micro_jit.cpp:2310-2317 | A guarded region PUSH is the checked PUSH. |
| RegionSteps.NodeRefines | src/cpu/micro_jit.cpp:2663-2710 | Every native node is the checked step of its instruction, with its PC, taken or not. |
| RegionSteps.RegionRefines | src/cpu/micro_jit.cpp:2420-2446 | Whatever a region built from the image retires, checked execution retires with equal core, memory, count, cycles, fetch state and exit PC. |
| RegionSteps.CompiledRegionRefines | src/cpu/micro_jit.cpp:2420-2710 | The same for the compiled region with spans, dead flags, loops and pairs fused. |
| RegionSteps.GuardSuffices | src/cpu/micro_jit.cpp:2229-2288 | Over bound memory a guarded access never faults. |
| Effects.Contains | src/cpu/effect_summary.cpp:9-22 | True exactly when the whole range, not wrapping, lies in one private region. |
| Effects.SummarizeOp | src/cpu/effect_summary.cpp:59-98 | Locality of one op and the stack pointer after it. |
| Effects.Summarize | src/cpu/effect_summary.cpp:51-119 | The longest provable prefix, its minimum cycles, and both escape flags with their exact meaning. |
| CycleBounds.MinimumCycles | include/fil/cpu/effect_summary.hpp:50-60 | The summarised cycles of the retired ops are at most what checked execution charges if and only if fetch stalls cover a recorded refill the last op did not take; only a final POP can fall short. |
| CycleBounds.MinimumMissed | include/fil/cpu/effect_summary.hpp:50-60 | A concrete shortfall: a POP summarised at four cycles and charged two. |
| Effects.SummarySound | src/cpu/effect_summary.cpp:51-119 | In every execution from the given stack pointer, under any limits and helpers, each summarised op that runs touches only private bytes and the abstract stack pointer is the real one. |
| Effects.WritesFootprint | src/cpu/effect_summary.cpp:66-95 | Over RAM an op changes no byte outside its footprint. |
| Effects.ReadsFootprint | src/cpu/effect_summary.cpp:66-95 | Over RAM the core an op leaves depends on memory only through its footprint. |
| Nvic.ReachableKeepsInterrupts | src/cortexm/system_control.cpp:94-162 | In every state reachable from reset each asserted line is pending or active, and the summary says exactly whether an enabled bit is pending. |
| Nvic.ApplyKeeps | src/cortexm/system_control.cpp:317-389 | Every NVIC and SCB write, line change, pend and clear keeps that invariant. |
| Nvic.UnitKeeps | src/cortexm/system_control.cpp:131-151 | Enter, leave and resume keep it. |
| Nvic.NextPending | src/cortexm/system_control.cpp:189-236 | Returns the least (priority, number) pair among all eligible exceptions, none exactly when there is none; the early return hides none. |
| Nvic.Consider | src/cortexm/system_control.cpp:204-220 | One candidate keeps the selection best among those seen. |
| Nvic.SystemControl.RefreshPendingSummary | src/cortexm/system_control.cpp:153-162 | Word by word: asserted inactive lines re-pend and the summary is recomputed. |
| Nvic.SystemControl.SetInterruptLine | src/cortexm/system_control.cpp:106-117 | A rising edge pends, out-of-range lines are ignored, the summary follows. |
| Nvic.SystemControl.PendException | src/cortexm/system_control.cpp:94-104 | Pends PendSV, SysTick or an interrupt, and nothing else. |
| Nvic.SystemControl.ClearPendingException | src/cortexm/system_control.cpp:119-129 | Clears one pending bit; an asserted inactive line pends again. |
| Nvic.SystemControl.EnterException | src/cortexm/system_control.cpp:131-138 | Sets the active exception and bit and clears its pending bit. |
| Nvic.SystemControl.LeaveException | src/cortexm/system_control.cpp:144-151 | Clears the active bit, forgets it as active, samples lines again. |
| Nvic.SystemControl.WriteBits | src/cortexm/system_control.cpp:346-349 | The four set and clear registers change exactly the masked bits of one word. |
| Preemption.EnterKeeps | src/cortexm/exceptions.cpp:135-136 | Entering an exception, by whatever caller, keeps the discipline if and only if it preempts the top of the stack. |
| Preemption.WriteKeeps | src/cortexm/system_control.cpp:350-379 | A priority write keeps the discipline if and only if every active exception it changes stays strictly between its neighbours. |
| Preemption.StepKeeps | src/cortexm/exceptions.cpp:135-146 | Every possible event (device event, register write, selected entry, supervisor call, return) keeps the discipline if and only if it is in order. |
| Preemption.PreemptionDiscipline | src/cortexm/system_control.cpp:189-236 | Over every run from reset whose priority writes and supervisor calls are in order the active stack has strictly falling priority values, no duplicates, depth at most 16; its interrupts are exactly the active bits and the active exception is its top or zero. |
| Preemption.Reentry | src/cortexm/system_control.cpp:204-220 | The failing input: raising a preempted active interrupt makes it eligible, it is entered again while active, and the inner return clears the active bit of an exception still on the stack. |
| Preemption.NestedReachable | src/cortexm/exceptions.cpp:140-146 | The state that failure starts from is reached from reset by events that are all possible and in order. |
| Preemption.CallOutOfOrder | src/sim/board.cpp:1849-1852 | A supervisor call under an interrupt of its own level is entered on top of it and breaks the discipline. |
| SysTick.SysTickUnit.AdvanceCycles | src/cortexm/system_control.cpp:54-84 | The batched update, with its invariant on the wrap distance. |
| SysTick.ReachableValid | src/cortexm/system_control.cpp:54-84 | In every state reachable from reset by cycles, register writes and reads the wrap distance is at most the period, which every batching result assumes. |
| SysTick.SysTickUnit.ReadControl | src/cortexm/system_control.cpp:267-270 | A control read reports and clears the count flag and keeps the invariant. |
| SysTick.AdvanceCompose | src/cortexm/system_control.cpp:54-84 | Advancing a + b cycles is advancing a and then b, in counter, flag, pending bit and cycle counter. |
| SysTick.AdvanceIsTicks | src/cortexm/system_control.cpp:54-84 | A batch of n is n single ticks of an independent one-cycle counter. |
| SysTick.PendsExactly | src/cortexm/system_control.cpp:86-92 | When not pending, the interrupt is pending after n cycles exactly when one is predicted and n reaches the prediction. |
| SysTick.SysTickUnit.WriteControl | src/cortexm/system_control.cpp:332-336 | Disabling or enabling restarts the period; the invariant holds. |
| SysTick.SysTickUnit.WriteLoad | src/cortexm/system_control.cpp:337-340 | The reload value is 24 bits and restarts the period. |
| SysTick.SysTickUnit.WriteCurrent | src/cortexm/system_control.cpp:341-345 | Clears the value and the count flag and restarts the period. |
| Frames.PsrRoundTrip | src/cortexm/exceptions.cpp:223-235 | Packing xPSR with its split IT bits and unpacking it loses nothing. |
| Frames.StackedFrames | src/cortexm/exceptions.cpp:68-123 | Entry leaves both frames in memory and changes nothing outside the new stack area. |
| Frames.RoundTrip | src/cortexm/exceptions.cpp:36-138 | A handler that kept its frame and stack pointer returns to exactly the interrupted registers, PC, xPSR with IT state, stack pointer and CONTROL bits, padded or not, MSP or PSP, basic, eager or lazy FP. |
| Frames.AbandonedReservation | src/cortexm/exceptions.cpp:68-100 | After a nested entry abandoned a lazy reservation, S0-S15 and FPSCR come back right if and only if the frame memory already held them. |
| LazyFp.NestedEntry | src/cortexm/exceptions.cpp:91-123 | A nested entry drops a pending reservation and writes no byte of the outer frame. |
| LazyFp.LazyNesting | src/cortexm/exceptions.cpp:36-138 | A lazy entry, a nested exception in its handler and both returns: the reservation is gone, the 72 reserved bytes are untouched, and the outer return restores S0-S15 and FPSCR if and only if those bytes held them. |
| LazyFp.LostRegister | src/cortexm/exceptions.cpp:152-187 | A concrete run over zeroed stack memory: a thread with 1 in S0 resumes with 0. |
| Exceptions.NestedRoundTrip | src/cortexm/exceptions.cpp:152-237 | In every well-nested run whose handlers keep frames and stack pointers no return faults, and each resumes what its entry interrupted, relative to the core its handler ended in: the integer core, and S0-S15 and FPSCR of an extended frame; every outer frame is kept. |
| Exceptions.ExecKeeps | src/cortexm/exceptions.cpp:36-138 | Handler code with any nesting keeps outer frames, mode and process stack pointer, and none of its returns faults. |
| Exceptions.EntryKeeps | src/cortexm/exceptions.cpp:102-123 | An entry writes only its own frame, which then joins the kept ones. |
| Exceptions.ExceptionController.Enter | src/cortexm/exceptions.cpp:36-138 | The in-place entry: core, memory, active stack and controller after success, nothing after a fault. |
| Exceptions.ExceptionController.EnterPending | src/cortexm/exceptions.cpp:140-146 | Enters the least eligible exception if there is one, and changes nothing otherwise. |
| Exceptions.ExceptionController.ExceptionReturn | src/cortexm/exceptions.cpp:152-237 | The in-place return, with the error paths that have already cleared the reservation or unstacked FP state. |
| Exceptions.ExceptionController.PopActive | src/cortexm/exceptions.cpp:212-236 | Leaves the top exception and resumes the one below. |
| Codec.WriteU32 | src/cli/network_protocol.cpp:34-38 | Four little-endian bytes at an offset, the rest unchanged. |
| Codec.FillHeader | src/cli/network_protocol.cpp:112-118 | The header buffer is the 16-byte header of the frame. |
| Codec.WriteFrame | src/cli/network_protocol.cpp:106-131 | Appends the encoding, or refuses an oversized payload and writes nothing. |
| Codec.FrameDecoder.Append | src/cli/network_protocol.cpp:46-52 | Appends a chunk that fits, else changes nothing. |
| Codec.FrameDecoder.Next | src/cli/network_protocol.cpp:54-93 | One frame, a wait, or a parse error, with the phase kept across calls. |
| Codec.FrameDecoder.Finish | src/cli/network_protocol.cpp:95-104 | True exactly at a frame boundary. |
| Codec.DrainDecodes | src/cli/network_protocol.cpp:54-93 | Whole frames followed by a part of one drain to exactly those frames and keep the part. |
| Codec.ReceiveDecodes | src/cli/network_protocol.cpp:46-93 | From the middle of a stream the rest decodes exactly when every chunk fits. |
| Codec.CodecRoundTrip | src/cli/network_protocol.cpp:46-131 | Encoded frames cut into any chunks are received exactly when every chunk fits, and then come out in order with a clean finish. |
| Codec.FinishExact | src/cli/network_protocol.cpp:95-104 | Of frames and a proper part of another, the frames come out, and finish succeeds exactly when the part is empty. |
| Codec.ReceiveBack | src/cli/network_protocol.cpp:46-93 | Whatever bytes a decoder accepts, in whatever chunks, are the encodings of the frames it produced followed by the bytes it holds. |
| Codec.DecodesApart | src/cli/network_protocol.cpp:46-93 | Two streams with the same frames and remainder are the same bytes. |
| Codec.SmallChunksDecode | src/cli/network_protocol.cpp:46-93 | Chunks of at most 4096 bytes always fit and decode whole. |

## Left out

- Host machine-code encodings, register allocation, label patching and the code arena: the emitted operations are modelled, not their bytes.
- Table branches, system and floating-point instructions: one instruction kind stands for them; the executor does not model it, lowering declines it, and a prepared block ends before it, as in the source.
- The decoder's bit tables: only the stated facts about its results are used.
- Device MMIO bridges and direct MMIO words of regions: a trace helper is abstract, and region guards cover backed memory only.
- The program-wide linking of regions across windows, and the checked-step service between region exits (`nativeRegionContinue`).
- Read-footprint journaling of the native POP.
- The native-kernel prefix of a cached block (src/cpu/cortex_m4.cpp:2241-2309): the same kernel as a trace, with other bookkeeping.
- `peekPredictableCycles` and the all-fast block loop of src/cpu/cortex_m4.cpp:2757-2767, which does not set the instruction address per op.
- Hotness, profitability, decline streaks, branch profiles, statistics and diagnostic messages: no effect on what retires.
- Recording of traces (which edges to follow) and trace invalidation by execution generation: code is immutable here.
- Store journaling, footprints and rollback of reversible blocks in the memory bus.
- Writes to SysTick and NVIC registers other than those named by methods enter as events of the controller, without the byte-lane merge of `writeWord`; the reset request, fault status and vector table registers are left out.
- Partial writes of an exception entry whose stacking faults halfway: the stack range is validated writable before the first store, so the model has none.
- Callers of the frame decoder, the command line, configuration loading, boards, buses and the Python tools.
- Exceptions.NestedRoundTrip: assumes lazy FP stacking off, because a nested entry abandons an outer reservation; the lazy case is Frames.RoundTrip for one level and LazyFp.LazyNesting for the exact condition beyond it.
- RegionSteps.MemoryNodeExecutes: direct MMIO words of regions are not modelled, so an access outside the bound windows is a miss.
- Admission.Dispatcher.ExecuteNativeTrace: equality with checked steps is stated for runs without an extended-frame token, the exact condition of Refinement.TraceRefines.
- Preemption.PreemptionDiscipline: covers runs whose events are in order, the exact condition of Preemption.StepKeeps; fault entries other than the supervisor call do not occur in the source.
