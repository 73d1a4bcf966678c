/** Building the control-flow graph of a native region from an executable image, after
    buildRegion in src/cpu/native_region.cpp. */
module RegionGraph {
  import opened Words
  import opened Cpu
  import opened Micro
  import opened Native
  import opened Blocks
  import opened Region
  import opened ItPairs
  import opened Fusion

  // ---------------------------------------------------------------- nodes

  function BlankNode(pc: Word): RegionOp {
    RegionOp(BlankNative(), [], false, Addressing(0, 0, false, true, true, false), NoPair,
             pc, 0, 0, 0, 0, 0, CheckedFlow, None, None)
  }

  predicate RegionMemoryShape(d: Decoded) {
    && IsTransfer(d.kind) && (d.form == RegisterValue || d.form == Immediate) && d.condition == AL
    && d.rd < 15 && d.rd != 13 && d.rn < 15 && !d.setFlags && !d.fpDouble && (d.index || d.writeback)
    && (d.form == RegisterValue ==>
          d.rm < 15 && d.rm != 13 && d.shiftType == ShiftType.Lsl && d.shiftAmount <= 3)
  }

  /** lowerRegionMemory: register offsets, negative offsets, pre- and post-indexing. */
  function WithRegionMemory(op: RegionOp, d: Decoded): RegionOp {
    op.(inst := BlankNative().(kind := MemoryOp(d.kind), rd := d.rd, rn := d.rn, offset := d.imm),
        address := Addressing(d.rm, d.shiftAmount, d.form == RegisterValue, d.add, d.index, d.writeback))
  }

  /** The lowered body of a node, if the instruction has a native form. */
  function LoweredNode(op: RegionOp, d: Decoded, size: int, canonical: Option<Decoded>): Option<RegionOp> {
    if IsStack(d) then
      var regs := StackRegs(d.registerList, d.kind == Push);
      if regs == [] then None else Some(op.(regs := regs, push := d.kind == Push))
    else
      match LowerNative(MicroSource(d, op.pc, size), canonical)
      case Accepted(n) => Some(op.(inst := n))
      case Declined(_) => if RegionMemoryShape(d) then Some(WithRegionMemory(op, d)) else None
  }

  predicate IsCompareBranch(kind: InstrKind) {
    kind == Cbz || kind == Cbnz
  }

  function BranchNodeTarget(d: Decoded, pc: Word): Word {
    ClearBit0(Wrap(pc + 4 + (if IsCompareBranch(d.kind) then d.imm else d.branchOffset)))
  }

  /** Flow, target and cycles of a lowered node. */
  function FlowNode(op: RegionOp, d: Decoded): RegionOp {
    var fallthrough := Words.Add(op.pc, op.size);
    var base := BasePipelineCycles(d);
    var op1 := op.(fallthrough := fallthrough, fallthroughCycles := base, flow := FlowNext);
    if IsControlFlow(d.kind) then
      var target := BranchNodeTarget(d, op.pc);
      var taken := base + if target == fallthrough then 0 else TakenBranchPenalty(d.kind);
      var op2 := op1.(target := target, takenCycles := taken);
      if IsCompareBranch(d.kind) || (d.kind == B && d.condition != AL)
      then op2.(flow := Conditional, fallthroughCycles := 1)
      else op2.(flow := if d.kind == Bl then Call else Jump)
    else if (IsStackOp(op) && PopsPc(d)) || (!IsStackOp(op) && (op.inst.kind == BxLr || op.inst.kind == BlxReg))
    then op1.(flow := Indirect, takenCycles := base + TakenBranchPenalty(d.kind))
    else op1
  }

  /** The executable span with its decoder. */
  datatype Image = Image(bytes: seq<Byte>, base: Word, decode16: nat -> Option<Decoded>,
    decode32: (nat, nat) -> Option<Decoded>)

  predicate Contains(img: Image, pc: int, width: nat) {
    img.base <= pc && pc + width <= img.base + |img.bytes|
  }

  function Halfword(img: Image, pc: int): nat
    requires Contains(img, pc, 2)
  {
    img.bytes[pc - img.base] as int + 0x100 * img.bytes[pc + 1 - img.base] as int
  }

  predicate IsWide(halfword: nat) {
    halfword >= 0xe800
  }

  /** The fetched instruction at `pc`: its width and its decode. */
  function DecodeAt(img: Image, pc: Word): (int, Option<Decoded>)
    requires Contains(img, pc, 2)
  {
    var first := Halfword(img, pc);
    if !IsWide(first) then (2, img.decode16(first))
    else if !Contains(img, pc, 4) then (4, None)
    else (4, img.decode32(first, Halfword(img, pc + 2)))
  }

  /** The pair recognised at an IT instruction with room for both moves. */
  function PairAt(img: Image, pc: Word, d: Decoded): Pair {
    if d.kind == It && Contains(img, pc, 6)
    then RecognisePair(d.imm % 0x100, Halfword(img, pc + 2), Halfword(img, pc + 4)) else NoPair
  }

  /** The node at `pc`, edges apart. */
  function NodeAt(img: Image, pc: Word): RegionOp
    requires Contains(img, pc, 2)
  {
    var (size, decoded) := DecodeAt(img, pc);
    var blank := BlankNode(pc).(size := size);
    match decoded
    case None => blank
    case Some(d) =>
      var pair := PairAt(img, pc, d);
      if pair.Pair? then blank.(pair := pair)
      else
        var canonical := if size == 2 then img.decode16(Halfword(img, pc)) else None;
        match LoweredNode(blank, d, size, canonical)
        case None => blank
        case Some(op) => FlowNode(op, d)
  }

  /** The successor each edge of a node stands for. */
  function Wants0(op: RegionOp): Option<Word> {
    if op.pair.Pair? then Some(Words.Add(op.pc, 6))
    else
      match op.flow
      case FlowNext | Conditional => Some(op.fallthrough)
      case Jump | Call => Some(op.target)
      case Indirect | CheckedFlow => None
  }

  function Wants1(op: RegionOp): Option<Word> {
    if op.pair.Pair? then None
    else
      match op.flow
      case Conditional => Some(op.target)
      case Call => Some(op.fallthrough)
      case Indirect => if op.inst.kind == BlxReg then Some(op.fallthrough) else None
      case FlowNext | Jump | CheckedFlow => None
  }

  // ---------------------------------------------------------------- the worklist

  const CAPACITY: nat := 256

  /** What to build: an image, an entry, and a window size or zero for discovery. */
  datatype Config = Config(img: Image, entry: Word, window: nat)

  /** Addresses no node may have. */
  predicate External(cfg: Config, pc: Word) {
    || pc % 2 != 0 || !Contains(cfg.img, pc, 2)
    || (cfg.window != 0 && !(cfg.entry <= pc < cfg.entry + cfg.window))
  }

  predicate Absent(ops: seq<RegionOp>, pc: Word) {
    forall k | 0 <= k < |ops| :: ops[k].pc != pc
  }

  /** Addresses a node leads to, the inner moves of a fused pair included. */
  predicate Successor(op: RegionOp, pc: Word) {
    || Wants0(op) == Some(pc) || Wants1(op) == Some(pc)
    || (op.pair.Pair? && (pc == Words.Add(op.pc, 2) || pc == Words.Add(op.pc, 4)))
  }

  /** Node addresses: distinct, even, inside the image and, in window mode, every second byte of it. */
  predicate Placed(cfg: Config, ops: seq<RegionOp>) {
    && 0 < |ops| <= CAPACITY && ops[0].pc == cfg.entry
    && (forall k | 0 <= k < |ops| :: !External(cfg, ops[k].pc))
    && (forall j, k | 0 <= j < k < |ops| :: ops[j].pc != ops[k].pc)
    && (cfg.window != 0 ==> 2 * |ops| == cfg.window && forall k | 0 <= k < |ops| :: ops[k].pc == cfg.entry + 2 * k)
  }

  /** An edge is exact, or leaves the region for a reason. */
  predicate EdgeOk(cfg: Config, ops: seq<RegionOp>, limited: bool, edge: Option<nat>, want: Option<Word>) {
    match want
    case None => edge == None
    case Some(pc) =>
      && EdgeAt(ops, edge, pc)
      && (edge == None ==> External(cfg, pc) || (limited && cfg.window == 0))
  }

  predicate Finished(cfg: Config, ops: seq<RegionOp>, limited: bool, op: RegionOp) {
    && Contains(cfg.img, op.pc, 2) && op.(edge0 := None, edge1 := None) == NodeAt(cfg.img, op.pc)
    && EdgeOk(cfg, ops, limited, op.edge0, Wants0(op)) && EdgeOk(cfg, ops, limited, op.edge1, Wants1(op))
    && (op.pair.Pair? ==>
          Reached(cfg, ops, limited, Words.Add(op.pc, 2)) && Reached(cfg, ops, limited, Words.Add(op.pc, 4)))
  }

  /** `pc` has a node, cannot have one, or was dropped for space. */
  predicate Reached(cfg: Config, ops: seq<RegionOp>, limited: bool, pc: Word) {
    !Absent(ops, pc) || External(cfg, pc) || (limited && cfg.window == 0)
  }

  /** The capacity flag is raised only when some successor inside the image has no node. */
  ghost predicate Dropped(cfg: Config, ops: seq<RegionOp>) {
    exists k, pc: Word | 0 <= k < |ops| :: Successor(ops[k], pc) && !External(cfg, pc) && Absent(ops, pc)
  }

  /** `more` extends `ops` with further nodes. */
  predicate SamePcs(ops: seq<RegionOp>, more: seq<RegionOp>) {
    |ops| <= |more| && forall k | 0 <= k < |ops| :: ops[k].pc == more[k].pc
  }

  lemma EdgeStays(
    cfg: Config, ops: seq<RegionOp>, more: seq<RegionOp>, a: bool, b: bool, edge: Option<nat>, want: Option<Word>)
    requires SamePcs(ops, more) && (a ==> b) && EdgeOk(cfg, ops, a, edge, want)
    ensures EdgeOk(cfg, more, b, edge, want)
    ensures want.Some? ==> Reached(cfg, more, b, want.value)
  {
  }

  lemma ReachedStays(cfg: Config, ops: seq<RegionOp>, more: seq<RegionOp>, a: bool, b: bool, pc: Word)
    requires SamePcs(ops, more) && (a ==> b) && Reached(cfg, ops, a, pc)
    ensures Reached(cfg, more, b, pc)
  {
    hide External;
  }

  /** The graph under construction. */
  class Builder {
    var ops: seq<RegionOp>
    var limited: bool

    /** The node at `pc`, adding one in discovery mode while there is room. */
    method Link(cfg: Config, pc: Word) returns (edge: Option<nat>)
      requires Placed(cfg, ops)
      modifies this
      ensures Placed(cfg, ops) && old(ops) <= ops
      ensures forall k | |old(ops)| <= k < |ops| :: ops[k] == BlankNode(ops[k].pc)
      ensures EdgeAt(ops, edge, pc) && (old(limited) ==> limited)
      ensures edge == None ==> External(cfg, pc) || (limited && cfg.window == 0)
      ensures limited && !old(limited) ==> |ops| == CAPACITY && !External(cfg, pc) && Absent(ops, pc)
      ensures |ops| > |old(ops)| ==> |old(ops)| < CAPACITY
    {
      if pc % 2 != 0 || !Contains(cfg.img, pc, 2) { return None; }
      if cfg.window != 0 {
        if pc < cfg.entry || pc - cfg.entry >= cfg.window { return None; }
        EvenEntry(cfg, ops, pc);
        return Some((pc - cfg.entry) / 2);
      }
      var i := 0;
      while i < |ops|
        invariant 0 <= i <= |ops|
        invariant forall k | 0 <= k < i :: ops[k].pc != pc
      {
        if ops[i].pc == pc { return Some(i); }
        i := i + 1;
      }
      if |ops| == CAPACITY {
        limited := true;
        return None;
      }
      edge := Some(|ops|);
      ops := ops + [BlankNode(pc)];
    }

    /** Link one wanted successor of `node`. */
    method Follow(cfg: Config, node: RegionOp, want: Option<Word>, ghost before: bool) returns (edge: Option<nat>)
      requires Placed(cfg, ops) && Flagged(cfg, ops, node, before, limited)
      requires want.Some? ==> Successor(node, want.value)
      modifies this
      ensures Placed(cfg, ops) && Grown(old(ops), ops) && (old(limited) ==> limited)
      ensures EdgeOk(cfg, ops, limited, edge, want) && Flagged(cfg, ops, node, before, limited)
    {
      hide Placed, External, BlankNode;
      edge := None;
      if want.Some? {
        edge := Link(cfg, want.value);
        assert limited && !old(limited) ==> Successor(node, want.value);
      }
    }

    /** Link the two inner moves of a fused pair, so that checked cuts can resume at them. */
    method FollowInner(cfg: Config, node: RegionOp, ghost before: bool)
      requires Placed(cfg, ops) && Flagged(cfg, ops, node, before, limited)
      modifies this
      ensures Placed(cfg, ops) && Grown(old(ops), ops) && (old(limited) ==> limited)
              && Flagged(cfg, ops, node, before, limited)
      ensures node.pair.Pair? ==>
                Reached(cfg, ops, limited, Words.Add(node.pc, 2)) && Reached(cfg, ops, limited, Words.Add(node.pc, 4))
    {
      hide Placed, Flagged, Successor, EdgeOk, Reached, Words.Add, BlankNode;
      if node.pair.Pair? {
        WantsAreSuccessors(node);
        var inner := Follow(cfg, node, Some(Words.Add(node.pc, 2)), before);
        ghost var ops2, limited2 := ops, limited;
        var outer := Follow(cfg, node, Some(Words.Add(node.pc, 4)), before);
        EdgeStays(cfg, ops2, ops, limited2, limited, inner, Some(Words.Add(node.pc, 2)));
        EdgeStays(cfg, ops, ops, limited, limited, outer, Some(Words.Add(node.pc, 4)));
      }
    }

    /** Decode and link node `i`: exact edges for it, nothing lost for the others. */
    method Expand(cfg: Config, i: nat)
      requires Placed(cfg, ops) && i < |ops| && ops[i] == BlankNode(ops[i].pc)
      modifies this
      ensures Placed(cfg, ops) && SamePcs(old(ops), ops) && (old(limited) ==> limited)
      ensures forall k | 0 <= k < |old(ops)| && k != i :: ops[k] == old(ops)[k]
      ensures forall k | |old(ops)| <= k < |ops| :: ops[k] == BlankNode(ops[k].pc)
      ensures Finished(cfg, ops, limited, ops[i])
      ensures |old(ops)| == CAPACITY ==> |ops| == CAPACITY
      ensures Flagged(cfg, ops, ops[i], old(limited), limited)
    {
      hide External, NodeAt, Contains, Placed, BlankNode, EdgeOk, Flagged, Successor, Wants0, Wants1, Reached,
        Words.Add, Absent;
      assert Contains(cfg.img, ops[i].pc, 2) by { Inhabited(cfg, ops, i); }
      var node := NodeAt(cfg.img, ops[i].pc);
      NodeBasics(cfg.img, ops[i].pc);
      ghost var before := limited;
      PlacedUpdate(cfg, ops, i, node);
      ops := ops[i := node];
      WantsAreSuccessors(node);
      NotFlagged(cfg, ops, node, limited);
      var edge0 := Follow(cfg, node, Wants0(node), before);
      ghost var ops0, limited0 := ops, limited;
      var edge1 := Follow(cfg, node, Wants1(node), before);
      ghost var ops1, limited1 := ops, limited;
      FollowInner(cfg, node, before);
      var linked := node.(edge0 := edge0, edge1 := edge1);
      EdgeStays(cfg, ops0, ops, limited0, limited, edge0, Wants0(node));
      EdgeStays(cfg, ops1, ops, limited1, limited, edge1, Wants1(node));
      PlacedUpdate(cfg, ops, i, linked);
      LinkedNode(cfg, ops, i, node, edge0, edge1, before, limited);
      ops := ops[i := linked];
    }

    /** buildRegion: a rejection leaves the builder alone; otherwise every node is decoded from the
        image, every edge is exact or accounted for, and the capacity flag means what it says. */
    method Build(cfg: Config) returns (ok: bool)
      modifies this
      ensures ok <==> Buildable(cfg)
      ensures !ok ==> ops == old(ops) && limited == old(limited)
      ensures ok ==> Placed(cfg, ops) && (forall k | 0 <= k < |ops| :: Finished(cfg, ops, limited, ops[k]))
      ensures ok ==> Linked(ops)
      ensures ok && limited ==> cfg.window == 0 && Dropped(cfg, ops)
    {
      hide Placed, Finished, BlankNode, Contains, External, Flagged, Linked;
      ok := Buildable(cfg);
      if !ok { return; }
      ops, limited := FirstNodes(cfg), false;
      assert Placed(cfg, ops) && forall k | 0 <= k < |ops| :: ops[k] == BlankNode(ops[k].pc) by { FirstPlaced(cfg); }
      var i := 0;
      while i < |ops|
        invariant 0 <= i <= |ops| && Placed(cfg, ops)
        invariant forall k | 0 <= k < i :: Finished(cfg, ops, limited, ops[k])
        invariant forall k | i <= k < |ops| :: ops[k] == BlankNode(ops[k].pc)
        invariant limited ==> |ops| == CAPACITY && DroppedBelow(cfg, ops, i)
        decreases CAPACITY - i
      {
        ghost var before, limited0 := ops, limited;
        assert |ops| <= CAPACITY by { PlacedSize(cfg, ops); }
        Expand(cfg, i);
        forall k | 0 <= k < i
          ensures Finished(cfg, ops, limited, ops[k])
        {
          FinishedStays(cfg, before, ops, limited0, limited, before[k]);
        }
        DroppedStays(cfg, before, ops, i, limited0, limited);
        i := i + 1;
      }
      if limited { WindowNeverLimited(cfg, ops); }
      GraphLinked(cfg, ops, limited);
    }
  }

  predicate Grown(ops: seq<RegionOp>, more: seq<RegionOp>) {
    && ops <= more && (|ops| == CAPACITY ==> |more| == CAPACITY)
    && forall k | |ops| <= k < |more| :: more[k] == BlankNode(more[k].pc)
  }

  /** If the capacity flag was raised while linking `node`, one of its successors has no node. */
  ghost predicate Flagged(cfg: Config, ops: seq<RegionOp>, node: RegionOp, before: bool, limited: bool) {
    limited && !before ==>
      |ops| == CAPACITY && exists pc: Word :: Successor(node, pc) && !External(cfg, pc) && Absent(ops, pc)
  }

  lemma NotFlagged(cfg: Config, ops: seq<RegionOp>, node: RegionOp, limited: bool)
    ensures Flagged(cfg, ops, node, limited, limited)
  {
  }

  lemma PlacedUpdate(cfg: Config, ops: seq<RegionOp>, i: nat, op: RegionOp)
    requires Placed(cfg, ops) && i < |ops| && op.pc == ops[i].pc
    ensures Placed(cfg, ops[i := op])
  {
    hide External;
  }

  lemma WantsAreSuccessors(op: RegionOp)
    ensures Wants0(op).Some? ==> Successor(op, Wants0(op).value)
    ensures Wants1(op).Some? ==> Successor(op, Wants1(op).value)
    ensures op.pair.Pair? ==> Successor(op, Words.Add(op.pc, 2)) && Successor(op, Words.Add(op.pc, 4))
  {
  }

  /** Writing the edges into a node keeps what was established about it. */
  lemma LinkedNode(
    cfg: Config, ops: seq<RegionOp>, i: nat, node: RegionOp, edge0: Option<nat>, edge1: Option<nat>, before: bool,
    limited: bool)
    requires i < |ops| && ops[i] == node && Contains(cfg.img, node.pc, 2) && node == NodeAt(cfg.img, node.pc)
    requires node.edge0 == None && node.edge1 == None
    requires EdgeOk(cfg, ops, limited, edge0, Wants0(node)) && EdgeOk(cfg, ops, limited, edge1, Wants1(node))
    requires Flagged(cfg, ops, node, before, limited)
    requires node.pair.Pair? ==>
               Reached(cfg, ops, limited, Words.Add(node.pc, 2)) && Reached(cfg, ops, limited, Words.Add(node.pc, 4))
    ensures
      var op := node.(edge0 := edge0, edge1 := edge1);
      Finished(cfg, ops[i := op], limited, op) && Flagged(cfg, ops[i := op], op, before, limited)
  {
    hide NodeAt, Contains, External, EdgeOk;
    var op := node.(edge0 := edge0, edge1 := edge1);
    EdgeStays(cfg, ops, ops[i := op], limited, limited, edge0, Wants0(node));
    EdgeStays(cfg, ops, ops[i := op], limited, limited, edge1, Wants1(node));
    if node.pair.Pair? {
      ReachedStays(cfg, ops, ops[i := op], limited, limited, Words.Add(node.pc, 2));
      ReachedStays(cfg, ops, ops[i := op], limited, limited, Words.Add(node.pc, 4));
    }
    if limited && !before {
      var pc: Word :| Successor(node, pc) && !External(cfg, pc) && Absent(ops, pc);
      assert Successor(op, pc);
    }
  }

  lemma EvenEntry(cfg: Config, ops: seq<RegionOp>, pc: Word)
    requires Placed(cfg, ops) && cfg.window != 0 && pc % 2 == 0 && cfg.entry <= pc < cfg.entry + cfg.window
    ensures (pc - cfg.entry) / 2 < |ops| && ops[(pc - cfg.entry) / 2].pc == pc
  {
    assert !External(cfg, ops[0].pc);
  }

  lemma Inhabited(cfg: Config, ops: seq<RegionOp>, i: nat)
    requires Placed(cfg, ops) && i < |ops|
    ensures Contains(cfg.img, ops[i].pc, 2)
  {
    assert !External(cfg, ops[i].pc);
  }

  lemma NodeBasics(img: Image, pc: Word)
    requires Contains(img, pc, 2)
    ensures NodeAt(img, pc).pc == pc && NodeAt(img, pc).edge0 == None && NodeAt(img, pc).edge1 == None
  {
    hide LoweredNode, FlowNode, PairAt, DecodeAt;
    var (size, decoded) := DecodeAt(img, pc);
    if decoded.Some? {
      var blank := BlankNode(pc).(size := size);
      var canonical := if size == 2 then img.decode16(Halfword(img, pc)) else None;
      LoweredBasics(blank, decoded.value, size, canonical);
      var lowered := LoweredNode(blank, decoded.value, size, canonical);
      if lowered.Some? { FlowBasics(lowered.value, decoded.value); }
    }
  }

  lemma LoweredBasics(op: RegionOp, d: Decoded, size: int, canonical: Option<Decoded>)
    ensures
      var r := LoweredNode(op, d, size, canonical);
      r.Some? ==> r.value.pc == op.pc && r.value.edge0 == op.edge0 && r.value.edge1 == op.edge1
  {
    hide LowerNative, StackRegs, RegionMemoryShape, MemoryOp, BlankNative;
  }

  lemma FlowBasics(op: RegionOp, d: Decoded)
    ensures
      var r := FlowNode(op, d);
      r.pc == op.pc && r.edge0 == op.edge0 && r.edge1 == op.edge1
  {
    hide BranchNodeTarget, BasePipelineCycles, TakenBranchPenalty, Words.Add;
  }

  predicate Buildable(cfg: Config) {
    && cfg.img.base + |cfg.img.bytes| <= 0x1_0000_0000
    && cfg.entry % 2 == 0 && Contains(cfg.img, cfg.entry, 2)
    && (cfg.window != 0 ==>
          cfg.window % 2 == 0 && cfg.window <= 2 * CAPACITY && Contains(cfg.img, cfg.entry, cfg.window))
  }

  function FirstNodes(cfg: Config): seq<RegionOp>
    requires Buildable(cfg)
  {
    if cfg.window == 0 then [BlankNode(cfg.entry)]
    else seq(cfg.window / 2, k requires 0 <= k < cfg.window / 2 => BlankNode(cfg.entry + 2 * k))
  }

  lemma FirstPlaced(cfg: Config)
    requires Buildable(cfg)
    ensures Placed(cfg, FirstNodes(cfg))
            && forall k | 0 <= k < |FirstNodes(cfg)| :: FirstNodes(cfg)[k] == BlankNode(FirstNodes(cfg)[k].pc)
  {
  }

  lemma PlacedSize(cfg: Config, ops: seq<RegionOp>)
    requires Placed(cfg, ops)
    ensures 0 < |ops| <= CAPACITY
  {
  }

  lemma FinishedStays(cfg: Config, ops: seq<RegionOp>, more: seq<RegionOp>, a: bool, b: bool, op: RegionOp)
    requires SamePcs(ops, more) && (a ==> b) && Finished(cfg, ops, a, op)
    ensures Finished(cfg, more, b, op)
  {
    hide NodeAt, Contains, EdgeOk, Reached, External;
    EdgeStays(cfg, ops, more, a, b, op.edge0, Wants0(op));
    EdgeStays(cfg, ops, more, a, b, op.edge1, Wants1(op));
    if op.pair.Pair? {
      ReachedStays(cfg, ops, more, a, b, Words.Add(op.pc, 2));
      ReachedStays(cfg, ops, more, a, b, Words.Add(op.pc, 4));
    }
  }

  ghost predicate DroppedBelow(cfg: Config, ops: seq<RegionOp>, i: nat)
    requires i <= |ops|
  {
    exists k, pc: Word | 0 <= k < i :: Successor(ops[k], pc) && !External(cfg, pc) && Absent(ops, pc)
  }

  lemma DroppedStays(cfg: Config, before: seq<RegionOp>, ops: seq<RegionOp>, i: nat, limited0: bool, limited: bool)
    requires i < |before| && SamePcs(before, ops) && (|before| == CAPACITY ==> |ops| == CAPACITY)
    requires forall k | 0 <= k < i :: ops[k] == before[k]
    requires limited0 ==> |before| == CAPACITY && DroppedBelow(cfg, before, i)
    requires Flagged(cfg, ops, ops[i], limited0, limited)
    ensures limited ==> |ops| == CAPACITY && DroppedBelow(cfg, ops, i + 1)
  {
    hide External, Successor;
    if limited0 {
      var k, pc: Word :| 0 <= k < i && Successor(before[k], pc) && !External(cfg, pc) && Absent(before, pc);
      assert Successor(ops[k], pc) && Absent(ops, pc);
    } else if limited {
      var pc: Word :| Successor(ops[i], pc) && !External(cfg, pc) && Absent(ops, pc);
    }
  }

  lemma WindowNeverLimited(cfg: Config, ops: seq<RegionOp>)
    requires Placed(cfg, ops) && DroppedBelow(cfg, ops, |ops|)
    ensures cfg.window == 0
  {
    var k, pc: Word :| 0 <= k < |ops| && Successor(ops[k], pc) && !External(cfg, pc) && Absent(ops, pc);
    if cfg.window != 0 {
      EvenEntry(cfg, ops, pc);
      assert false;
    }
  }

  /** The graph is closed: without the capacity flag every successor of every node, the inner moves
      of pairs included, has a node or lies where none may be. */
  lemma GraphClosed(cfg: Config, ops: seq<RegionOp>, k: nat, pc: Word)
    requires k < |ops| && Finished(cfg, ops, false, ops[k]) && Successor(ops[k], pc)
    ensures External(cfg, pc) || exists j :: 0 <= j < |ops| && ops[j].pc == pc
  {
    hide NodeAt, Contains, External, Wants0, Wants1;
    var op := ops[k];
    if Wants0(op) == Some(pc) && op.edge0.Some? {
      assert ops[op.edge0.value].pc == pc;
    } else if Wants1(op) == Some(pc) && op.edge1.Some? {
      assert ops[op.edge1.value].pc == pc;
    }
  }

  // ---------------------------------------------------------------- the graph is linked

  lemma NoBranchData(s: MicroSource, inst: MicroInst)
    requires Lower(s) == Accepted(inst) && !IsControlFlow(s.decoded.kind)
    ensures !IsBranchOp(inst.op)
  {
    hide LowerNop, LowerBarrier, LowerMov, LowerMovHalf, LowerAddSub, LowerCompare, LowerTst, LowerLogic, LowerShift,
      LowerExtend, LowerUbfx, LowerBranch, LowerCompareBranch, BlankInst, IsBranchOp;
    var d, blank := s.decoded, BlankInst(s);
    assert !IsBranchOp(blank.op) by { BlankIsNop(s); }
    MovesAreData(d, blank);
    ArithIsData(d, blank);
    OthersAreData(d, blank);
  }

  lemma BlankIsNop(s: MicroSource)
    ensures !IsBranchOp(BlankInst(s).op)
  {
  }

  lemma MovesAreData(d: Decoded, inst: MicroInst)
    ensures LowerMov(d, inst).Accepted? ==> !IsBranchOp(LowerMov(d, inst).inst.op)
    ensures LowerMovHalf(d, inst).Accepted? ==> !IsBranchOp(LowerMovHalf(d, inst).inst.op)
    ensures LowerNop(d, inst).Accepted? ==> LowerNop(d, inst).inst == inst
    ensures LowerBarrier(d, inst).Accepted? ==> LowerBarrier(d, inst).inst == inst
  {
    hide NoList, ImmediateShape, RegisterShape, CoreReg, UnshiftedLsl;
  }

  lemma ArithIsData(d: Decoded, inst: MicroInst)
    ensures LowerAddSub(d, inst).Accepted? ==> !IsBranchOp(LowerAddSub(d, inst).inst.op)
    ensures LowerCompare(d, inst).Accepted? ==> !IsBranchOp(LowerCompare(d, inst).inst.op)
    ensures LowerTst(d, inst).Accepted? ==> !IsBranchOp(LowerTst(d, inst).inst.op)
  {
    hide NoList, ImmediateShape, RegisterShape, CoreReg, UnshiftedLsl;
  }

  lemma OthersAreData(d: Decoded, inst: MicroInst)
    ensures LowerLogic(d, inst).Accepted? ==> !IsBranchOp(LowerLogic(d, inst).inst.op)
    ensures LowerShift(d, inst).Accepted? ==> !IsBranchOp(LowerShift(d, inst).inst.op)
    ensures LowerExtend(d, inst).Accepted? ==> !IsBranchOp(LowerExtend(d, inst).inst.op)
    ensures LowerUbfx(d, inst).Accepted? ==> !IsBranchOp(LowerUbfx(d, inst).inst.op)
  {
    hide NoList, ImmediateShape, RegisterShape, CoreReg, UnshiftedLsl, ExtendOf;
  }

  /** Only branch instructions lower to branch ops. */
  lemma LoweredLinks(op: RegionOp, d: Decoded, size: int, canonical: Option<Decoded>)
    requires op.inst == BlankNative() && op.regs == []
    ensures
      var r := LoweredNode(op, d, size, canonical);
      r.Some? ==>
        && RegNumbers(r.value.regs) && r.value.pair == op.pair
        && (!IsControlFlow(d.kind) && !IsMemory(r.value.inst.kind) ==> !IsBranchOp(r.value.inst.integer.op))
  {
    hide StackRegs, LowerNative, IsBranchOp, RegionMemoryShape, MemoryOp, RegNumbers, BlankNative, IsControlFlow,
      IsMemory;
    BlankOps();
    NativeLinks(MicroSource(d, op.pc, size), canonical);
    EmptyRegs();
  }

  lemma NativeLinks(s: MicroSource, canonical: Option<Decoded>)
    ensures
      var r := LowerNative(s, canonical);
      r.Accepted? && !IsControlFlow(s.decoded.kind) ==> !IsBranchOp(r.inst.integer.op)
  {
    hide LowerBlx, LowerBx, LowerMemory, Lower, IsBranchOp, BlankNative, IsControlFlow;
    BlankOps();
    if Lower(s).Accepted? && !IsControlFlow(s.decoded.kind) { NoBranchData(s, Lower(s).inst); }
    MemoryInsts(s, canonical);
  }

  lemma EmptyRegs()
    ensures RegNumbers([])
  {
  }

  lemma FlowLinks(op: RegionOp, d: Decoded)
    ensures
      var r := FlowNode(op, d);
      && r.regs == op.regs && r.inst == op.inst && r.pair == op.pair
      && (r.flow == Conditional ==> r.takenCycles >= r.fallthroughCycles)
      && (r.flow == FlowNext ==> !IsControlFlow(d.kind))
  {
    hide BranchNodeTarget, BasePipelineCycles, TakenBranchPenalty, Words.Add;
    BaseIsPositive(d);
  }

  lemma NodeLinks(img: Image, pc: Word)
    requires Contains(img, pc, 2)
    ensures
      var op := NodeAt(img, pc);
      && RegNumbers(op.regs) && (op.pair.Pair? ==> op.flow == CheckedFlow)
      && (op.flow == Conditional ==> op.takenCycles >= op.fallthroughCycles)
      && (op.flow == FlowNext && !IsMemory(op.inst.kind) ==> !IsBranchOp(op.inst.integer.op))
  {
    hide PairAt, DecodeAt, IsBranchOp, RegNumbers, LoweredNode, FlowNode, BlankNative, IsMemory;
    EmptyRegs();
    var (size, decoded) := DecodeAt(img, pc);
    if decoded.Some? {
      var d := decoded.value;
      var blank := BlankNode(pc).(size := size);
      var canonical := if size == 2 then img.decode16(Halfword(img, pc)) else None;
      LoweredLinks(blank, d, size, canonical);
      var r := LoweredNode(blank, d, size, canonical);
      if r.Some? { FlowLinks(r.value, d); }
    }
  }

  lemma BlankOps()
    ensures BlankNative().integer.op == OpNop && !IsBranchOp(OpNop)
  {
  }

  lemma MemoryInsts(s: MicroSource, canonical: Option<Decoded>)
    ensures LowerMemory(s).Accepted? ==> LowerMemory(s).inst.integer.op == OpNop
    ensures LowerBx(s.decoded, canonical).Accepted? ==> LowerBx(s.decoded, canonical).inst.integer.op == OpNop
    ensures LowerBlx(s.decoded, canonical).Accepted? ==> LowerBlx(s.decoded, canonical).inst.integer.op == OpNop
  {
    hide NoList, PlainAddressing, Words.Add, Words.Sub, AlignWord;
  }

  /** Every graph the builder makes is one the region compiler may fuse. */
  lemma GraphLinked(cfg: Config, ops: seq<RegionOp>, limited: bool)
    requires forall k | 0 <= k < |ops| :: Finished(cfg, ops, limited, ops[k])
    ensures Linked(ops)
  {
    hide NodeAt, Contains, External, IsBranchOp, Words.Add, RegNumbers;
    forall k | 0 <= k < |ops|
      ensures OpLinked(ops, ops[k]) && RegNumbers(ops[k].regs)
      ensures ops[k].edge0.Some? ==> ops[k].edge0.value < |ops|
      ensures ops[k].edge1.Some? ==> ops[k].edge1.value < |ops|
    {
      assert Finished(cfg, ops, limited, ops[k]);
      NodeLinks(cfg.img, ops[k].pc);
    }
  }
}
