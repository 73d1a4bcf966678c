/** Dead-flag elimination in straight-line spans, after the backward pass of linear_span in
    src/cpu/micro_jit.cpp. */
module DeadFlags {
  import opened Words
  import opened Cpu
  import opened Micro
  import opened Lowering
  import opened Native
  import opened Region

  predicate WritesFlags(inst: MicroInst) {
    inst.setFlags || IsCompare(inst.op) || inst.op == TstReg
  }

  /** A register result that depends on the carry flag. */
  predicate ConsumesCarry(inst: MicroInst) {
    inst.op == OpRrx || inst.shift == ShiftType.Rrx
  }

  /** Liveness of NZCV before an op, from liveness after it. */
  predicate LiveAcross(op: RegionOp, after: bool) {
    if IsMemory(op.inst.kind) then true
    else
      var inst := op.inst.integer;
      ConsumesCarry(inst) || (after && !(WritesFlags(inst) && IsArithmetic(inst.op)))
  }

  /** Liveness of NZCV before op `n`: flags are observable at the end and at every access. */
  predicate LiveBefore(span: seq<RegionOp>, n: nat)
    requires n <= |span|
    decreases |span| - n
  {
    if n == |span| then true else LiveAcross(span[n], LiveBefore(span, n + 1))
  }

  /** Whether the flag write of op `n` is dropped. */
  predicate Dead(span: seq<RegionOp>, n: nat)
    requires n < |span|
  {
    !IsMemory(span[n].inst.kind) && WritesFlags(span[n].inst.integer) && !LiveBefore(span, n + 1)
  }

  /** The backward pass. */
  method MarkDead(span: seq<RegionOp>) returns (dead: seq<bool>)
    ensures |dead| == |span|
    ensures forall n | 0 <= n < |span| :: dead[n] == Dead(span, n)
  {
    hide IsMemory, WritesFlags, IsArithmetic, ConsumesCarry;
    dead := seq(|span|, i => false);
    var flagsLive := true;
    var n := |span|;
    while n != 0
      invariant 0 <= n <= |span| == |dead|
      invariant flagsLive == LiveBefore(span, n)
      invariant forall k | n <= k < |span| :: dead[k] == Dead(span, k)
      invariant forall k | 0 <= k < n :: !dead[k]
    {
      n := n - 1;
      if IsMemory(span[n].inst.kind) {
        flagsLive := true;
      } else {
        var inst := span[n].inst.integer;
        var writes := WritesFlags(inst);
        if writes && !flagsLive { dead := dead[n := true]; }
        if writes && IsArithmetic(inst.op) { flagsLive := false; }
        if ConsumesCarry(inst) { flagsLive := true; }
      }
    }
  }

  /** What is emitted for an op: nothing for a dead comparison, no flag write for any other dead op. */
  function Emitted(inst: MicroInst, dead: bool, c: CpuState): CpuState {
    if !dead then IntegerEffect(inst, c)
    else if IsCompare(inst.op) || inst.op == TstReg then c
    else IntegerEffect(inst.(setFlags := false), c)
  }

  /** Two cores that differ at most in NZCV. */
  predicate SameButFlags(c: CpuState, d: CpuState) {
    c == d.(psr := c.psr) && SameRest(c.psr, d.psr)
  }

  predicate Agree(live: bool, c: CpuState, d: CpuState) {
    if live then c == d else SameButFlags(c, d)
  }

  // Register results and flags of one op, from cores that differ in NZCV.

  lemma ShiftIgnoresCarry(value: Word, kind: ShiftType, amount: nat, a: bool, b: bool)
    requires kind != ShiftType.Rrx
    ensures ShiftC(value, kind, amount, a).value == ShiftC(value, kind, amount, b).value
  {
    hide ShiftLeft, ShiftRight, RotateRight, Words.Or, Negative;
  }

  lemma OperandIgnoresCarry(inst: MicroInst, g: MicroCpu, h: MicroCpu)
    requires g.r == h.r && g.lr == h.lr && !ConsumesCarry(inst)
    ensures ArithOperand(inst, g) == ArithOperand(inst, h)
  {
    hide ShiftC;
    ShiftIgnoresCarry(ReadOp(g, inst.rm), inst.shift, inst.shiftAmount, g.psr.c, h.psr.c);
  }

  lemma NzcvForgets(p: Psr, q: Psr, r: AddResult)
    requires SameRest(p, q)
    ensures SetNzcv(p, r) == SetNzcv(q, r)
  {
  }

  lemma ArithIgnoresFlags(inst: MicroInst, g: MicroCpu, h: MicroCpu)
    requires g.r == h.r && g.lr == h.lr && SameRest(g.psr, h.psr) && !ConsumesCarry(inst) && IsArithmetic(inst.op)
    ensures
      var e, f := ArithEffect(inst, g), ArithEffect(inst, h);
      && e.dest == f.dest && e.value == f.value
      && (WritesFlags(inst) ==> e.psr == f.psr) && (!WritesFlags(inst) ==> e.psr == g.psr && f.psr == h.psr)
  {
    hide ArithOperand, AddWithCarry, SetNzcv, SameRest, Words.Not;
    OperandIgnoresCarry(inst, g, h);
    var rhs := ArithOperand(inst, g);
    var subtract := Subtracts(inst.op);
    NzcvForgets(g.psr, h.psr,
      AddWithCarry(ReadOp(g, inst.rn), if subtract then Words.Not(rhs) else rhs, subtract));
  }

  lemma ShiftEffectIgnoresFlags(inst: MicroInst, g: MicroCpu, h: MicroCpu)
    requires g.r == h.r && g.lr == h.lr && !ConsumesCarry(inst)
    requires inst.op == OpLsl || inst.op == OpLsr || inst.op == OpAsr || inst.op == OpRor
    ensures
      var e, f := ShiftEffect(inst, g), ShiftEffect(inst, h);
      && e.dest == f.dest && e.value == f.value && (!inst.setFlags ==> e.psr == g.psr && f.psr == h.psr)
  {
    hide ShiftC, SetNz;
    var value := if inst.shiftImmediate then ReadOp(g, inst.rm) else ReadOp(g, inst.rn);
    var amount := if inst.shiftImmediate then inst.shiftAmount else ReadOp(g, inst.rm) % 0x100;
    ShiftIgnoresCarry(value, ShiftTypeOf(inst.op), amount, g.psr.c, h.psr.c);
  }

  lemma OthersIgnoreFlags(inst: MicroInst, g: MicroCpu, h: MicroCpu)
    requires g.r == h.r && g.lr == h.lr
    ensures SameResult(MoveEffect(inst, g), MoveEffect(inst, h))
            && SameResult(MoveHalfEffect(inst, g), MoveHalfEffect(inst, h))
    ensures SameResult(LogicEffect(inst, g), LogicEffect(inst, h))
            && SameResult(FieldEffect(inst, g), FieldEffect(inst, h))
    ensures SameResult(TstEffect(inst, g), TstEffect(inst, h))
    ensures !inst.setFlags ==> MoveEffect(inst, g).psr == g.psr && LogicEffect(inst, g).psr == g.psr
    ensures !inst.setFlags ==> MoveEffect(inst, h).psr == h.psr && LogicEffect(inst, h).psr == h.psr
    ensures MoveHalfEffect(inst, g).psr == g.psr && FieldEffect(inst, g).psr == g.psr
    ensures MoveHalfEffect(inst, h).psr == h.psr && FieldEffect(inst, h).psr == h.psr
  {
    hide SetNz, LogicOpValue, ExtractField, RotateRight, ExtendStepValue, Words.And;
  }

  predicate SameResult(e: Alu, f: Alu) {
    e.dest == f.dest && e.value == f.value
  }

  lemma Quiet(inst: MicroInst)
    ensures !WritesFlags(inst) ==> !inst.setFlags && inst.op != TstReg && !IsCompare(inst.op)
    ensures !ConsumesCarry(inst) ==> inst.op != OpRrx
  {
  }

  predicate IsShift(op: MicroOp) {
    op == OpLsl || op == OpLsr || op == OpAsr || op == OpRor || op == OpRrx
  }

  /** Which arm of the interpreter an op takes. */
  function Arm(inst: MicroInst, g: MicroCpu): Alu {
    match inst.op
    case MovImm | MovReg => MoveEffect(inst, g)
    case OpMovw | OpMovt => MoveHalfEffect(inst, g)
    case TstReg => TstEffect(inst, g)
    case AndReg | OrrReg | EorReg | BicReg => LogicEffect(inst, g)
    case Extend | OpUbfx => FieldEffect(inst, g)
    case _ => Alu(None, 0, g.psr)
  }

  lemma ArithArm(inst: MicroInst, g: MicroCpu)
    requires IsArithmetic(inst.op)
    ensures Effect(inst, g) == ArithEffect(inst, g)
  {
    hide ArithEffect, ShiftEffect, MoveEffect, MoveHalfEffect, LogicEffect, FieldEffect, TstEffect;
  }

  lemma ShiftArm(inst: MicroInst, g: MicroCpu)
    requires IsShift(inst.op)
    ensures Effect(inst, g) == ShiftEffect(inst, g)
  {
    hide ArithEffect, ShiftEffect, MoveEffect, MoveHalfEffect, LogicEffect, FieldEffect, TstEffect;
  }

  lemma OtherArm(inst: MicroInst, g: MicroCpu)
    requires !IsArithmetic(inst.op) && !IsShift(inst.op)
    ensures Effect(inst, g) == Arm(inst, g)
  {
    hide ArithEffect, ShiftEffect, MoveEffect, MoveHalfEffect, LogicEffect, FieldEffect, TstEffect;
  }

  lemma ArmIgnoresFlags(inst: MicroInst, g: MicroCpu, h: MicroCpu)
    requires g.r == h.r && g.lr == h.lr
    ensures SameResult(Arm(inst, g), Arm(inst, h))
    ensures !inst.setFlags && inst.op != TstReg ==> Arm(inst, g).psr == g.psr && Arm(inst, h).psr == h.psr
  {
    hide MoveEffect, MoveHalfEffect, LogicEffect, FieldEffect, TstEffect;
    OthersIgnoreFlags(inst, g, h);
  }

  /** Registers never depend on flags outside RRX, a full arithmetic producer fixes NZCV, and an op
      that writes no flags keeps them. */
  lemma EffectIgnoresFlags(inst: MicroInst, g: MicroCpu, h: MicroCpu)
    requires g.r == h.r && g.lr == h.lr && SameRest(g.psr, h.psr) && !ConsumesCarry(inst) && !IsBranchOp(inst.op)
    ensures
      var e, f := Effect(inst, g), Effect(inst, h);
      && e.dest == f.dest && e.value == f.value
      && (WritesFlags(inst) && IsArithmetic(inst.op) ==> e.psr == f.psr)
      && (!WritesFlags(inst) ==> e.psr == g.psr && f.psr == h.psr)
  {
    hide ArithEffect, ShiftEffect, Arm, SameRest, Effect, WritesFlags, ConsumesCarry;
    Quiet(inst);
    if IsArithmetic(inst.op) {
      ArithArm(inst, g);
      ArithArm(inst, h);
      ArithIgnoresFlags(inst, g, h);
    } else if IsShift(inst.op) {
      ShiftArm(inst, g);
      ShiftArm(inst, h);
      ShiftEffectIgnoresFlags(inst, g, h);
    } else {
      OtherArm(inst, g);
      OtherArm(inst, h);
      ArmIgnoresFlags(inst, g, h);
    }
  }

  lemma ArithWithoutFlags(inst: MicroInst, g: MicroCpu)
    requires IsArithmetic(inst.op) && !IsCompare(inst.op)
    ensures
      var e, f := ArithEffect(inst, g), ArithEffect(inst.(setFlags := false), g);
      SameResult(e, f) && f.psr == g.psr
  {
    hide SetNzcv, ShiftC, AddWithCarry, ReadOp, Words.Not;
    assert ArithOperand(inst, g) == ArithOperand(inst.(setFlags := false), g);
  }

  lemma ShiftWithoutFlags(inst: MicroInst, g: MicroCpu)
    ensures
      var e, f := ShiftEffect(inst, g), ShiftEffect(inst.(setFlags := false), g);
      SameResult(e, f) && f.psr == g.psr
  {
    hide SetNz, ShiftC, ReadOp, ShiftTypeOf;
  }

  lemma OthersWithoutFlags(inst: MicroInst, g: MicroCpu)
    requires inst.op != TstReg
    ensures
      var e, f := Arm(inst, g), Arm(inst.(setFlags := false), g);
      SameResult(e, f) && f.psr == g.psr
  {
    hide SetNz, LogicOpValue, ExtractField, RotateRight, ExtendStepValue, ReadOp;
  }

  /** Clearing the flag-setting bit changes nothing but the flags. */
  lemma EffectWithoutFlags(inst: MicroInst, g: MicroCpu)
    requires !IsBranchOp(inst.op) && !IsCompare(inst.op) && inst.op != TstReg
    ensures
      var e, f := Effect(inst, g), Effect(inst.(setFlags := false), g);
      e.dest == f.dest && e.value == f.value && f.psr == g.psr
  {
    hide Effect, ArithEffect, ShiftEffect, Arm;
    var quiet := inst.(setFlags := false);
    if IsArithmetic(inst.op) {
      ArithArm(inst, g);
      ArithArm(quiet, g);
      ArithWithoutFlags(inst, g);
    } else if IsShift(inst.op) {
      ShiftArm(inst, g);
      ShiftArm(quiet, g);
      ShiftWithoutFlags(inst, g);
    } else {
      OtherArm(inst, g);
      OtherArm(quiet, g);
      OthersWithoutFlags(inst, g);
    }
  }

  // ---------------------------------------------------------------- the invariant of the pass

  lemma ViewsAgree(c: CpuState, d: CpuState)
    requires SameButFlags(c, d)
    ensures View(c).r == View(d).r && View(c).lr == View(d).lr && View(c).psr == c.psr && View(d).psr == d.psr
    ensures SameRest(View(c).psr, View(d).psr)
  {
  }

  lemma ApplySame(e: Alu, f: Alu, c: CpuState, d: CpuState)
    requires SameButFlags(c, d) && e.dest == f.dest && e.value == f.value && SameRest(e.psr, f.psr)
    ensures SameButFlags(ApplyAlu(e, c), ApplyAlu(f, d))
    ensures e.psr == f.psr ==> ApplyAlu(e, c) == ApplyAlu(f, d)
  {
  }

  lemma RestTrans(p: Psr, q: Psr, r: Psr)
    requires SameRest(p, q)
    ensures SameRest(q, p) && (SameRest(q, r) ==> SameRest(p, r))
  {
  }

  lemma AgreeWeakens(c: CpuState, live: bool)
    ensures Agree(live, c, c)
  {
  }

  /** One integer op keeps the simulation: equal registers always, equal flags where they are live. */
  lemma OpKeepsAgreement(op: RegionOp, after: bool, c: CpuState, d: CpuState)
    requires !IsMemory(op.inst.kind) && !IsBranchOp(op.inst.integer.op)
    requires Agree(LiveAcross(op, after), c, d)
    ensures
      var inst := op.inst.integer;
      Agree(after, Emitted(inst, WritesFlags(inst) && !after, c), IntegerEffect(inst, d))
  {
    hide Effect, ApplyAlu, View, SameRest, WritesFlags, IsArithmetic, ConsumesCarry;
    var inst := op.inst.integer;
    var g, h := View(c), View(d);
    if LiveAcross(op, after) {
      assert c == d;
      EmittedAgrees(inst, WritesFlags(inst) && !after, c);
      AgreeWeakens(IntegerEffect(inst, c), after);
    } else {
      ViewsAgree(c, d);
      EffectIgnoresFlags(inst, g, h);
      EffectKeepsRest(inst, g);
      EffectKeepsRest(inst, h);
      RestTrans(c.psr, d.psr, d.psr);
      RestTrans(Effect(inst, g).psr, g.psr, h.psr);
      RestTrans(Effect(inst, h).psr, h.psr, h.psr);
      RestTrans(Effect(inst, g).psr, h.psr, Effect(inst, h).psr);
      ApplySame(Effect(inst, g), Effect(inst, h), c, d);
      if WritesFlags(inst) && !after {
        EmittedAgrees(inst, true, c);
        SameTrans(Emitted(inst, true, c), IntegerEffect(inst, c), IntegerEffect(inst, d));
      }
    }
  }

  lemma SameTrans(a: CpuState, b: CpuState, c: CpuState)
    requires SameButFlags(a, b) && SameButFlags(b, c)
    ensures SameButFlags(a, c)
  {
  }

  /** Dropping a flag write changes nothing but NZCV. */
  lemma EmittedAgrees(inst: MicroInst, dead: bool, c: CpuState)
    requires !IsBranchOp(inst.op)
    ensures SameButFlags(Emitted(inst, dead, c), IntegerEffect(inst, c))
    ensures !dead ==> Emitted(inst, dead, c) == IntegerEffect(inst, c)
  {
    hide Effect, View, SameRest, ApplyAlu;
    var g := View(c);
    assert g.psr == c.psr by { ReadCore(c, 0, 0); }
    EffectKeepsRest(inst, g);
    RestTrans(Effect(inst, g).psr, g.psr, g.psr);
    var e := Effect(inst, g);
    if IsCompare(inst.op) || inst.op == TstReg {
      NoDest(inst, g);
      OnlyFlags(e, c);
    } else {
      EffectWithoutFlags(inst, g);
      var f := Effect(inst.(setFlags := false), g);
      assert SameButFlags(c, c) by { SameSelf(c); }
      ApplySame(f, e, c, c);
    }
    SameSelf(IntegerEffect(inst, c));
  }

  lemma SameSelf(c: CpuState)
    ensures SameButFlags(c, c)
  {
  }

  lemma NoDest(inst: MicroInst, g: MicroCpu)
    requires IsCompare(inst.op) || inst.op == TstReg
    ensures Effect(inst, g).dest == None
  {
    hide ArithOperand, AddWithCarry, SetNzcv, SetNz, Words.And, Words.Not, ReadOp;
  }

  lemma OnlyFlags(e: Alu, c: CpuState)
    requires e.dest == None && SameRest(c.psr, e.psr)
    ensures SameButFlags(c, ApplyAlu(e, c))
  {
  }
}
