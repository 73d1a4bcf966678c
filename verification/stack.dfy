/** Bulk stack transfers of native traces, after src/cpu/native_stack.cpp, and their agreement
    with the register-by-register PUSH and POP of the checked executor. */
module Stack {
  import opened Words
  import opened Cpu
  import opened Micro
  import opened Native

  // ---------------------------------------------------------------- the memory helpers

  datatype ReadReply = ReadDeclined | ReadOk(value: Word, mem: Memory, stop: bool)

  datatype WriteReply = WriteDeclined | WriteOk(mem: Memory, stop: bool)

  /** The checked helpers native code calls. A scalar helper sees the cycles retired so far, the
      instruction address, the access and memory; it declines or answers, possibly asking the
      kernel to stop at this boundary. Bulk helpers only accept or decline. */
  datatype Bus = Bus(
    read: (nat, Word, Word, Width, Memory) -> ReadReply,
    write: (nat, Word, Word, Width, Word, Memory) -> WriteReply,
    push: (Word, Word, seq<Word>, Memory) -> bool,
    pop: (Word, Word, nat, Memory) -> bool)

  // ---------------------------------------------------------------- word runs

  function StoreWords(m: Memory, a: int, values: seq<Word>): Option<Memory>
    decreases |values|
  {
    if values == [] then Some(m)
    else
      match Store(m, a, Four, values[0])
      case None => None
      case Some(m1) => StoreWords(m1, a + 4, values[1..])
  }

  function LoadWords(m: Memory, a: int, n: nat): (r: Option<seq<Word>>)
    ensures r.Some? ==> |r.value| == n
    decreases n
  {
    if n == 0 then Some([])
    else
      match Load(m, a, Four)
      case None => None
      case Some(v) =>
        match LoadWords(m, a + 4, n - 1)
        case None => None
        case Some(rest) => Some([v] + rest)
  }

  function Values(c: CpuState, regs: seq<nat>): (r: seq<Word>)
    requires RegNumbers(regs)
    ensures |r| == |regs|
  {
    if regs == [] then [] else [c.r[regs[0]]] + Values(c, regs[1..])
  }

  function CommitWords(c: CpuState, regs: seq<nat>, words: seq<Word>): CpuState
    requires RegNumbers(regs) && |words| == |regs|
    decreases |regs|
  {
    if regs == [] then c else CommitWords(c.(r := c.r[regs[0] := words[0]]), regs[1..], words[1..])
  }

  // ---------------------------------------------------------------- transfers

  datatype Transfer =
    | Transferred(cpu: CpuState, mem: Memory)
    | Dynamic(cpu: CpuState, mem: Memory)
    | TransferDeclined
    | TransferMismatch

  /** nativePushTransferPrepared. */
  function PushTransfer(regs: seq<nat>, c: CpuState, m: Memory, bus: Bus, pc: Word): Transfer
    requires RegNumbers(regs)
  {
    var bytes := 4 * |regs|;
    var sp := ActiveSp(c);
    if regs == [] || sp < bytes || !bus.push(pc, sp - bytes, Values(c, regs), m) then TransferDeclined
    else
      match StoreWords(m, sp - bytes, Values(c, regs))
      case None => TransferDeclined
      case Some(m1) => Transferred(WriteRegister(c, 13, sp - bytes), m1)
  }

  predicate LoadsPc(regs: seq<nat>) {
    regs != [] && regs[|regs| - 1] == 15
  }

  /** Registers of a pop frame other than the PC. */
  function Ordinary(regs: seq<nat>): (r: seq<nat>)
    ensures |r| == |regs| - (if LoadsPc(regs) then 1 else 0) && r == regs[..|r|]
  {
    if LoadsPc(regs) then regs[..|regs| - 1] else regs
  }

  /** The core after the frame `words` is popped: registers, stack pointer and PC. */
  function PopCommit(regs: seq<nat>, c: CpuState, words: seq<Word>): CpuState
    requires RegNumbers(regs) && |words| == |regs|
  {
    var ordinary := Ordinary(regs);
    var c1 := WriteRegister(CommitWords(c, ordinary, words[..|ordinary|]), 13, Words.Add(ActiveSp(c), 4 * |regs|));
    if LoadsPc(regs) then WithPc(c1, ClearBit0(words[|words| - 1])) else c1
  }

  /** nativeStackTransferPrepared on a pop. */
  function PopTransfer(
    regs: seq<nat>, c: CpuState, m: Memory, bus: Bus, pc: Word, expected: Word, allowDynamic: bool): Transfer
    requires RegNumbers(regs)
  {
    var sp := ActiveSp(c);
    var n := |regs|;
    if regs == [] || sp + 4 * n > 0x1_0000_0000 || !bus.pop(pc, sp, n, m) then TransferDeclined
    else
      match LoadWords(m, sp, n)
      case None => TransferDeclined
      case Some(words) =>
        if !LoadsPc(regs) then Transferred(PopCommit(regs, c, words), m)
        else
          var target := words[n - 1];
          if InTokenBlock(target) || target % 2 == 0 then TransferDeclined
          else if ClearBit0(target) == expected then Transferred(PopCommit(regs, c, words), m)
          else if allowDynamic then Dynamic(PopCommit(regs, c, words), m)
          else TransferMismatch
  }

  /** The register walk of a pop, in place. */
  method CommitFrame(c: CpuState, regs: seq<nat>, words: seq<Word>) returns (cpu: CpuState)
    requires RegNumbers(regs) && |words| == |regs|
    ensures cpu == PopCommit(regs, c, words)
  {
    hide WriteRegister, ActiveSp, WithPc, ClearBit0;
    cpu := c;
    var ordinary := if LoadsPc(regs) then |regs| - 1 else |regs|;
    var n := 0;
    while n < ordinary
      invariant 0 <= n <= ordinary
      invariant CommitWords(c, regs[..ordinary], words[..ordinary])
                == CommitWords(cpu, regs[..ordinary][n..], words[..ordinary][n..])
    {
      assert regs[..ordinary][n..][1..] == regs[..ordinary][n + 1..];
      assert words[..ordinary][n..][1..] == words[..ordinary][n + 1..];
      cpu := cpu.(r := cpu.r[regs[n] := words[n]]);
      n := n + 1;
    }
    cpu := WriteRegister(cpu, 13, Words.Add(ActiveSp(c), 4 * |regs|));
    if LoadsPc(regs) { cpu := WithPc(cpu, ClearBit0(words[|words| - 1])); }
  }

  // ---------------------------------------------------------------- PUSH agrees

  /** Shape the decoder gives the 16-bit PUSH and POP encodings. */
  predicate StackDecoded(d: Decoded) {
    && d.condition == AL && d.rn == 13 && d.writeback
    && (d.kind == Push ==> !d.add && d.index)
    && (d.kind == Pop ==> d.add && !d.index)
  }

  // One register or one word at a time.

  lemma StepRegs(list: RegList, i: nat)
    requires i < 16
    ensures CountFrom(list, i) == (if list[i] then 1 else 0) + CountFrom(list, i + 1)
    ensures RegsFrom(list, i) == if list[i] then [i] + RegsFrom(list, i + 1) else RegsFrom(list, i + 1)
  {
  }

  lemma LastRegs(list: RegList)
    ensures CountFrom(list, 16) == 0 && RegsFrom(list, 16) == []
  {
  }

  lemma ConsValues(c: CpuState, i: nat, rest: seq<nat>)
    requires i < 16 && RegNumbers(rest)
    ensures RegNumbers([i] + rest) && Values(c, [i] + rest) == [c.r[i]] + Values(c, rest)
  {
    assert ([i] + rest)[1..] == rest;
  }

  lemma ConsStore(m: Memory, a: int, v: Word, rest: seq<Word>)
    ensures StoreWords(m, a, [v] + rest) ==
            match Store(m, a, Four, v)
            case None => None
            case Some(m1) => StoreWords(m1, a + 4, rest)
  {
    hide Store;
    assert ([v] + rest)[1..] == rest;
  }

  lemma {:induction false} StoreLoopIsBulk(c: CpuState, m: Memory, list: RegList, i: nat, a: int)
    requires i <= 16 && !list[13] && !list[15]
    requires 0 <= a && a + 4 * CountFrom(list, i) <= 0x1_0000_0000 && a < 0x1_0000_0000
    requires StoreWords(m, a, Values(c, RegsFrom(list, i))).Some?
    ensures StoreMultiple(c, m, list, i, a) == (StoreWords(m, a, Values(c, RegsFrom(list, i))).value, true)
    decreases 16 - i
  {
    hide Store, RegsFrom, CountFrom, Values, StoreWords;
    if i == 16 {
      LastRegs(list);
      assert Values(c, []) == [] && StoreWords(m, a, []) == Some(m) by { StoresNone(c, m, a); }
    } else {
      StepRegs(list, i);
      if list[i] {
        ConsValues(c, i, RegsFrom(list, i + 1));
        ConsStore(m, a, c.r[i], Values(c, RegsFrom(list, i + 1)));
        var m1 := Store(m, a, Four, c.r[i]).value;
        if CountFrom(list, i + 1) == 0 {
          StoreNothing(c, m1, list, i + 1, Words.Add(a, 4));
          assert RegsFrom(list, i + 1) == [];
          StoresNone(c, m1, a + 4);
        } else {
          assert Words.Add(a, 4) == a + 4;
          StoreLoopIsBulk(c, m1, list, i + 1, a + 4);
        }
      } else {
        StoreLoopIsBulk(c, m, list, i + 1, a);
      }
    }
  }

  lemma StoresNone(c: CpuState, m: Memory, a: int)
    ensures Values(c, []) == [] && StoreWords(m, a, []) == Some(m)
  {
  }

  lemma {:induction false} StoreNothing(c: CpuState, m: Memory, list: RegList, i: nat, a: Word)
    requires i <= 16 && CountFrom(list, i) == 0
    ensures StoreMultiple(c, m, list, i, a) == (m, true)
    decreases 16 - i
  {
    if i < 16 { StoreNothing(c, m, list, i + 1, a); }
  }

  lemma {:induction false} ValuesIgnorePc(c: CpuState, size: int, regs: seq<nat>)
    requires RegNumbers(regs) && forall k | 0 <= k < |regs| :: regs[k] != 15
    ensures Values(Entered(c, size), regs) == Values(c, regs)
    decreases |regs|
  {
    if regs != [] { ValuesIgnorePc(c, size, regs[1..]); }
  }

  lemma EnteredKeepsSp(c: CpuState, size: int, v: Word)
    ensures ActiveSp(Entered(c, size)) == ActiveSp(c)
    ensures ReadRegister(Entered(c, size), 13) == ActiveSp(c)
    ensures WriteRegister(Entered(c, size), 13, v)
            == WithPc(WriteRegister(c, 13, v), Words.Add(c.r[15], size)).(instructionAddress := c.r[15])
  {
  }

  lemma PushExec(d: Decoded, c: CpuState, m: Memory)
    requires d.kind == Push && StackDecoded(d)
    ensures
      var start := Words.Sub(ReadRegister(c, 13), Count(d.registerList) * 4);
      var stored := StoreMultiple(c, m, d.registerList, 0, start);
      ExecMultiple(d, c, m) == if stored.1 then Done(WriteRegister(c, 13, start), stored.0)
        else Exec(c, stored.0, BusFault)
  {
    hide StoreMultiple, WriteRegister, ReadRegister, Words.Sub, Words.Add, LoadMultiple, CommitLoaded, Count;
  }

  lemma PopExec(d: Decoded, c: CpuState, m: Memory)
    requires d.kind == Pop && StackDecoded(d)
    ensures
      var base := ReadRegister(c, 13);
      ExecMultiple(d, c, m) ==
        match LoadMultiple(m, d.registerList, 0, base, NoWords())
        case None => Exec(c, m, BusFault)
        case Some(loaded) =>
          var c1 := WriteRegister(CommitLoaded(c, d.registerList, 0, loaded), 13,
            Words.Add(base, Count(d.registerList) * 4));
          if !d.registerList[15] then Done(c1, m)
          else if IsExceptionReturn(loaded[15]) then Done(c1.(pendingExcReturn := Some(loaded[15])), m)
          else if loaded[15] % 2 == 0 then FailInvalid(c1, m)
          else Done(BranchWritePc(c1, loaded[15]), m)
  {
    hide StoreMultiple, WriteRegister, ReadRegister, Words.Sub, Words.Add, LoadMultiple, CommitLoaded, Count,
      IsExceptionReturn, BranchWritePc, NoWords;
  }

  /** A native PUSH that goes through is the checked PUSH. */
  lemma PushIsExecute(d: Decoded, size: int, c: CpuState, m: Memory, bus: Bus, pc: Word)
    requires d.kind == Push && StackDecoded(d) && StackListValid(d.registerList, true)
    requires PushTransfer(StackRegs(d.registerList, true), c, m, bus, pc).Transferred?
    ensures
      var t := PushTransfer(StackRegs(d.registerList, true), c, m, bus, pc);
      ExecMultiple(d, Entered(c, size), m)
      == Done(WithPc(t.cpu, Words.Add(c.r[15], size)).(instructionAddress := c.r[15]), t.mem)
  {
    hide Entered, WriteRegister, StoreMultiple, StoreWords, ActiveSp, ReadRegister, ExecMultiple, StackDecoded,
      RegsFrom, CountFrom, Values, Words.Sub, Words.Add;
    var list := d.registerList;
    var regs := RegsFrom(list, 0);
    var sp := ActiveSp(c);
    var start := sp - 4 * |regs|;
    EnteredKeepsSp(c, size, start);
    ValuesIgnorePc(c, size, regs);
    StoreLoopIsBulk(Entered(c, size), m, list, 0, start);
    SubNear(sp, Count(list) * 4);
    PushExec(d, Entered(c, size), m);
  }

  // ---------------------------------------------------------------- POP agrees

  lemma {:induction false} LoadLoopIsBulk(m: Memory, list: RegList, i: nat, a: int, loaded: Regs)
    requires i <= 16
    requires 0 <= a < 0x1_0000_0000 && a + 4 * CountFrom(list, i) <= 0x1_0000_0000
    requires LoadWords(m, a, CountFrom(list, i)).Some?
    ensures
      var words := LoadWords(m, a, CountFrom(list, i)).value;
      var all := LoadMultiple(m, list, i, a, loaded);
      && all.Some?
      && (forall k | 0 <= k < |words| :: all.value[RegsFrom(list, i)[k]] == words[k])
      && (forall j | 0 <= j < i :: all.value[j] == loaded[j])
    decreases 16 - i
  {
    hide Load, RegsFrom, CountFrom, LoadWords;
    if i == 16 {
      LastRegs(list);
      LoadsNone(m, a);
    } else {
      StepRegs(list, i);
      var n := CountFrom(list, i);
      if !list[i] {
        LoadLoopIsBulk(m, list, i + 1, a, loaded);
      } else {
        ConsLoad(m, a, n - 1);
        var words := LoadWords(m, a, n).value;
        var loaded1: Regs := loaded[i := words[0]];
        if n == 1 {
          LoadNothing(m, list, i + 1, Words.Add(a, 4), loaded1);
          assert RegsFrom(list, i + 1) == [];
        } else {
          assert Words.Add(a, 4) == a + 4;
          LoadLoopIsBulk(m, list, i + 1, a + 4, loaded1);
        }
      }
    }
  }

  lemma LoadsNone(m: Memory, a: int)
    ensures LoadWords(m, a, 0) == Some([])
  {
  }

  lemma ConsLoad(m: Memory, a: int, n: nat)
    ensures LoadWords(m, a, n + 1) ==
            match Load(m, a, Four)
            case None => None
            case Some(v) =>
              match LoadWords(m, a + 4, n)
              case None => None
              case Some(rest) => Some([v] + rest)
  {
    hide Load;
  }

  lemma {:induction false} LoadNothing(m: Memory, list: RegList, i: nat, a: Word, loaded: Regs)
    requires i <= 16 && CountFrom(list, i) == 0
    ensures LoadMultiple(m, list, i, a, loaded) == Some(loaded)
    decreases 16 - i
  {
    if i < 16 { LoadNothing(m, list, i + 1, a, loaded); }
  }

  /** Set bits below 15, from `i` on. */
  function OrdinaryFrom(list: RegList, i: nat): (r: seq<nat>)
    requires i <= 15
    ensures forall k | 0 <= k < |r| :: i <= r[k] < 15 && list[r[k]]
    ensures RegsFrom(list, i) == r + (if list[15] then [15] else [])
    decreases 15 - i
  {
    if i == 15 then assert RegsFrom(list, 16) == []; []
    else if list[i] then [i] + OrdinaryFrom(list, i + 1) else OrdinaryFrom(list, i + 1)
  }

  lemma OrdinaryIs(list: RegList)
    ensures Ordinary(RegsFrom(list, 0)) == OrdinaryFrom(list, 0)
    ensures LoadsPc(RegsFrom(list, 0)) <==> list[15]
  {
    var regs, o := RegsFrom(list, 0), OrdinaryFrom(list, 0);
    if list[15] {
      assert regs[|regs| - 1] == 15;
      assert regs[..|regs| - 1] == o;
    } else {
      assert regs == o;
    }
  }

  /** The loaded words of `regs`, in order. */
  predicate Holds(loaded: Regs, regs: seq<nat>, words: seq<Word>) {
    RegNumbers(regs) && |words| == |regs| && forall k | 0 <= k < |words| :: loaded[regs[k]] == words[k]
  }

  lemma HoldsTail(loaded: Regs, i: nat, rest: seq<nat>, words: seq<Word>)
    requires Holds(loaded, [i] + rest, words)
    ensures i < 16 && words != [] && loaded[i] == words[0] && Holds(loaded, rest, words[1..])
  {
    var regs := [i] + rest;
    assert regs[0] == i && loaded[regs[0]] == words[0];
    forall k | 0 <= k < |rest|
      ensures rest[k] < 16 && loaded[rest[k]] == words[1..][k]
    {
      assert regs[k + 1] == rest[k] && loaded[regs[k + 1]] == words[k + 1];
    }
  }

  lemma CommitStep(c: CpuState, list: RegList, reg: nat, loaded: Regs)
    requires reg <= 15
    ensures CommitLoaded(c, list, reg, loaded) ==
            if reg == 15 then c
            else CommitLoaded(if list[reg] then WriteRegister(c, reg, loaded[reg]) else c, list, reg + 1, loaded)
  {
    hide WriteRegister;
  }

  lemma {:induction false} CommitLoopIsWalk(c: CpuState, list: RegList, i: nat, loaded: Regs, words: seq<Word>)
    requires i <= 15 && !list[13] && Holds(loaded, OrdinaryFrom(list, i), words)
    ensures CommitLoaded(c, list, i, loaded) == CommitWords(c, OrdinaryFrom(list, i), words)
    decreases 15 - i
  {
    hide OrdinaryFrom, CommitWords, WriteRegister, Holds, CommitLoaded, RegNumbers;
    StepOrdinary(list, i);
    CommitStep(c, list, i, loaded);
    HoldsSize(loaded, OrdinaryFrom(list, i), words);
    if i == 15 {
      CommitsNone(c);
    } else if list[i] {
      WalkTaken(c, list, i, loaded, words);
      CommitLoopIsWalk(c.(r := c.r[i := words[0]]), list, i + 1, loaded, words[1..]);
    } else {
      CommitLoopIsWalk(c, list, i + 1, loaded, words);
    }
  }

  /** The register walk over a set bit. */
  lemma WalkTaken(c: CpuState, list: RegList, i: nat, loaded: Regs, words: seq<Word>)
    requires i < 15 && i != 13 && list[i] && Holds(loaded, OrdinaryFrom(list, i), words)
    ensures words != [] && loaded[i] == words[0] && Holds(loaded, OrdinaryFrom(list, i + 1), words[1..])
    ensures RegNumbers(OrdinaryFrom(list, i)) && |words| == |OrdinaryFrom(list, i)|
    ensures RegNumbers(OrdinaryFrom(list, i + 1)) && |words[1..]| == |OrdinaryFrom(list, i + 1)|
    ensures WriteRegister(c, i, loaded[i]) == c.(r := c.r[i := words[0]])
    ensures CommitWords(c, OrdinaryFrom(list, i), words)
            == CommitWords(c.(r := c.r[i := words[0]]), OrdinaryFrom(list, i + 1), words[1..])
  {
    hide OrdinaryFrom, CommitWords, WriteRegister, Holds, RegNumbers;
    StepOrdinary(list, i);
    var tail := OrdinaryFrom(list, i + 1);
    HoldsSize(loaded, OrdinaryFrom(list, i), words);
    HoldsTail(loaded, i, tail, words);
    HoldsSize(loaded, tail, words[1..]);
    ConsCommit(c, i, tail, words);
    OrdinaryWrite(c, i, words[0]);
  }

  lemma HoldsSize(loaded: Regs, regs: seq<nat>, words: seq<Word>)
    requires Holds(loaded, regs, words)
    ensures |words| == |regs| && RegNumbers(regs)
  {
  }

  lemma OrdinaryWrite(c: CpuState, i: nat, v: Word)
    requires i < 15 && i != 13
    ensures WriteRegister(c, i, v) == c.(r := c.r[i := v])
  {
  }

  lemma StepOrdinary(list: RegList, i: nat)
    requires i <= 15
    ensures OrdinaryFrom(list, i) ==
            if i == 15 then [] else if list[i] then [i] + OrdinaryFrom(list, i + 1) else OrdinaryFrom(list, i + 1)
  {
    hide RegsFrom;
  }

  lemma CommitsNone(c: CpuState)
    ensures CommitWords(c, [], []) == c
  {
  }

  lemma ConsCommit(c: CpuState, i: nat, rest: seq<nat>, words: seq<Word>)
    requires i < 16 && RegNumbers(rest) && |words| == |rest| + 1
    ensures RegNumbers([i] + rest) && CommitWords(c, [i] + rest, words)
            == CommitWords(c.(r := c.r[i := words[0]]), rest, words[1..])
  {
    assert ([i] + rest)[1..] == rest;
  }

  lemma {:induction false} CommitIgnoresPc(c: CpuState, size: int, regs: seq<nat>, words: seq<Word>)
    requires RegNumbers(regs) && |words| == |regs| && forall k | 0 <= k < |regs| :: regs[k] < 15
    ensures
      var c1 := CommitWords(c, regs, words);
      && c1.r[15] == c.r[15] && c1.psr == c.psr && c1.control == c.control
      && c1 == c.(r := c1.r)
      && CommitWords(Entered(c, size), regs, words) == Entered(c1, size)
    decreases |regs|
  {
    if regs != [] {
      var c0 := c.(r := c.r[regs[0] := words[0]]);
      assert Entered(c0, size) == Entered(c, size).(r := Entered(c, size).r[regs[0] := words[0]]);
      CommitIgnoresPc(c0, size, regs[1..], words[1..]);
    }
  }

  /** EXC_RETURN values of extended frames, which lie outside the block the native guard rejects. */
  predicate ExtendedToken(value: Word) {
    value == 0xffff_ffe1 || value == 0xffff_ffe9 || value == 0xffff_ffed
  }

  lemma TokensSplit(value: Word)
    ensures IsExceptionReturn(value) && !InTokenBlock(value) <==> ExtendedToken(value)
  {
  }

  /** The word a POP would load into the PC. */
  function PopWord(list: RegList, c: CpuState, m: Memory): Option<Word> {
    if !list[15] then None
    else
      match LoadWords(m, ActiveSp(c), Count(list))
      case None => None
      case Some(words) => if words == [] then None else Some(words[|words| - 1])
  }

  predicate PopsToken(d: Decoded, c: CpuState, m: Memory) {
    d.kind == Pop && PopWord(d.registerList, c, m).Some? && ExtendedToken(PopWord(d.registerList, c, m).value)
  }

  /** The register file after the executor's load and commit loops. */
  lemma PopLoops(list: RegList, size: int, c: CpuState, m: Memory, words: seq<Word>)
    requires StackListValid(list, false) && ActiveSp(c) + 4 * Count(list) <= 0x1_0000_0000
    requires LoadWords(m, ActiveSp(c), Count(list)) == Some(words)
    ensures
      var all := LoadMultiple(m, list, 0, ActiveSp(c), NoWords());
      var o := OrdinaryFrom(list, 0);
      && all.Some? && |o| <= |words| && RegNumbers(o)
      && (list[15] ==> all.value[15] == words[|words| - 1])
      && CommitLoaded(Entered(c, size), list, 0, all.value) == Entered(CommitWords(c, o, words[..|o|]), size)
  {
    hide LoadWords, Load, LoadMultiple, CommitLoaded, CommitWords, Entered, NoWords, ActiveSp, OrdinaryFrom, RegsFrom,
      CountFrom;
    var a := ActiveSp(c);
    var o := OrdinaryFrom(list, 0);
    var regs := RegsFrom(list, 0);
    LoadLoopIsBulk(m, list, 0, a, NoWords());
    var all := LoadMultiple(m, list, 0, a, NoWords()).value;
    if list[15] { assert regs[|regs| - 1] == 15; }
    assert forall k | 0 <= k < |o| :: o[k] == regs[k];
    assert Holds(all, o, words[..|o|]);
    CommitLoopIsWalk(Entered(c, size), list, 0, all, words[..|o|]);
    CommitIgnoresPc(c, size, o, words[..|o|]);
  }

  /** What the checked POP does with the frame `words`. */
  lemma PopExecutes(d: Decoded, size: int, c: CpuState, m: Memory, words: seq<Word>)
    requires d.kind == Pop && StackDecoded(d) && StackListValid(d.registerList, false) && c.thumb && c.psr.t
    requires ActiveSp(c) + 4 * Count(d.registerList) <= 0x1_0000_0000
    requires LoadWords(m, ActiveSp(c), Count(d.registerList)) == Some(words)
    ensures
      var list := d.registerList;
      var after := PopCommit(RegsFrom(list, 0), c, words).(instructionAddress := c.r[15]);
      var fallen := WithPc(after, Words.Add(c.r[15], size));
      ExecMultiple(d, Entered(c, size), m) ==
        if !list[15] then Done(fallen, m)
        else
          var target := words[|words| - 1];
          if IsExceptionReturn(target) then Done(fallen.(pendingExcReturn := Some(target)), m)
          else if target % 2 == 0 then FailInvalid(fallen, m)
          else Done(after, m)
  {
    hide LoadWords, LoadMultiple, CommitLoaded, CommitWords, Entered, NoWords, ActiveSp, WriteRegister, ReadRegister,
      Words.Add, ClearBit0, IsExceptionReturn, StackListValid, Ordinary, LoadsPc, OrdinaryFrom, ExecMultiple, RegsFrom,
      StackDecoded;
    var list := d.registerList;
    PopExec(d, Entered(c, size), m);
    SameCount(list);
    var o := OrdinaryFrom(list, 0);
    PopLoops(list, size, c, m, words);
    OrdinaryIs(list);
    EnteredKeepsSp(c, size, 0);
    var c1 := CommitWords(c, o, words[..|o|]);
    assert c1.r[15] == c.r[15] && c1.thumb && c1.psr.t by { CommitIgnoresPc(c, size, o, words[..|o|]); }
    EnteredKeepsSp(c1, size, Words.Add(ActiveSp(c), 4 * Count(list)));
    SpWriteKeeps(c1, Words.Add(ActiveSp(c), 4 * Count(list)));
  }

  lemma SpWriteKeeps(c: CpuState, v: Word)
    ensures var c1 := WriteRegister(c, 13, v); c1.thumb == c.thumb && c1.psr == c.psr && c1.r[15] == c.r[15]
  {
  }

  /** The core a retired stack op leaves, with PC and instruction address as the kernel sets them. */
  function StackRetired(d: Decoded, size: int, c: CpuState, after: CpuState): CpuState {
    (if PopsPc(d) then after else WithPc(after, Words.Add(c.r[15], size))).(instructionAddress := c.r[15])
  }

  predicate Committed(t: Transfer) {
    t.Transferred? || t.Dynamic?
  }

  /** A committed native POP popped a frame the loads accept, and its target is a Thumb address
      outside the basic token block. */
  lemma PopCommits(
    list: RegList, c: CpuState, m: Memory, bus: Bus, pc: Word, expected: Word, allowDynamic: bool)
    requires StackListValid(list, false)
    requires Committed(PopTransfer(StackRegs(list, false), c, m, bus, pc, expected, allowDynamic))
    ensures
      var t := PopTransfer(StackRegs(list, false), c, m, bus, pc, expected, allowDynamic);
      var words := LoadWords(m, ActiveSp(c), Count(list));
      && words.Some? && words.value != [] && ActiveSp(c) + 4 * Count(list) <= 0x1_0000_0000
      && t.mem == m && t.cpu == PopCommit(RegsFrom(list, 0), c, words.value)
      && (list[15] ==>
            && words.value[|words.value| - 1] % 2 == 1 && !InTokenBlock(words.value[|words.value| - 1])
            && PopWord(list, c, m) == Some(words.value[|words.value| - 1])
            && (t.Transferred? <==> ClearBit0(words.value[|words.value| - 1]) == expected))
      && (!list[15] ==> t.Transferred?)
  {
    hide LoadWords, PopCommit, ActiveSp, ClearBit0, RegsFrom, Count;
    assert |RegsFrom(list, 0)| == Count(list) by { SameCount(list); }
    assert LoadsPc(RegsFrom(list, 0)) <==> list[15] by { OrdinaryIs(list); }
  }

  lemma SameCount(list: RegList)
    ensures |RegsFrom(list, 0)| == Count(list)
  {
  }

  /** A native POP that goes through is the checked POP exactly when the word it loads into the PC
      is not the EXC_RETURN token of an extended frame. */
  lemma PopIsExecute(
    d: Decoded, size: int, c: CpuState, m: Memory, bus: Bus, pc: Word, expected: Word, allowDynamic: bool)
    requires d.kind == Pop && StackDecoded(d) && StackListValid(d.registerList, false)
    requires c.thumb && c.psr.t && c.pendingExcReturn == None
    requires Committed(PopTransfer(StackRegs(d.registerList, false), c, m, bus, pc, expected, allowDynamic))
    ensures
      var t := PopTransfer(StackRegs(d.registerList, false), c, m, bus, pc, expected, allowDynamic);
      t.mem == m
      && (ExecMultiple(d, Entered(c, size), m) == Done(StackRetired(d, size, c, t.cpu), m) <==> !PopsToken(d, c, m))
  {
    hide PopTransfer, LoadWords, ActiveSp, PopCommit, Entered, ExecMultiple, Words.Add, StackListValid, PopWord,
      IsExceptionReturn, InTokenBlock, ExtendedToken, StackDecoded, StackRegs, RegsFrom, Count;
    var list := d.registerList;
    PopCommits(list, c, m, bus, pc, expected, allowDynamic);
    var words := LoadWords(m, ActiveSp(c), Count(list)).value;
    PopExecutes(d, size, c, m, words);
    if list[15] {
      TokensSplit(words[|words| - 1]);
      assert PopCommit(RegsFrom(list, 0), c, words).pendingExcReturn == None by {
        SameCount(list);
        PopKeepsPending(RegsFrom(list, 0), c, words);
      }
    } else {
      assert PopWord(list, c, m) == None by { NoPopWord(list, c, m); }
    }
  }

  lemma NoPopWord(list: RegList, c: CpuState, m: Memory)
    requires !list[15]
    ensures PopWord(list, c, m) == None
  {
  }

  lemma PopKeepsPending(regs: seq<nat>, c: CpuState, words: seq<Word>)
    requires RegNumbers(regs) && |words| == |regs|
    ensures PopCommit(regs, c, words).pendingExcReturn == c.pendingExcReturn
  {
    hide Words.Add, ClearBit0, ActiveSp;
    CommitKeepsPending(c, Ordinary(regs), words[..|Ordinary(regs)|]);
  }

  lemma {:induction false} CommitKeepsPending(c: CpuState, regs: seq<nat>, words: seq<Word>)
    requires RegNumbers(regs) && |words| == |regs|
    ensures CommitWords(c, regs, words).pendingExcReturn == c.pendingExcReturn
    decreases |regs|
  {
    if regs != [] { CommitKeepsPending(c.(r := c.r[regs[0] := words[0]]), regs[1..], words[1..]); }
  }
}
