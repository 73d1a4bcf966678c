/** Cycle accounting of checked execution: pipeline cycles plus fetch stalls, step by step.
    This is the reference every fast form's charges are compared with. */
module Timing {
  import opened Words
  import opened Cpu

  /** Extra fetch cycles for an address, by whether the fetch continues the previous one. */
  type StallFn = (Word, bool) -> nat

  /** Where the previous fetch ended, if there was one. */
  datatype Fetch = Fetch(have: bool, end: Word)

  predicate Sequential(f: Fetch, pc: Word) {
    f.have && pc == f.end
  }

  datatype Charged = Charged(cpu: CpuState, mem: Memory, fetch: Fetch, total: nat)

  function FetchedSize(code: Code, pc: Word): int {
    if pc in code then code[pc].size else 0
  }

  /** `n` checked steps with their exact charge, when each of them completes. */
  function ChargedSteps(code: Code, stall: StallFn, c: CpuState, m: Memory, f: Fetch, n: nat): Option<Charged>
    decreases n
  {
    if n == 0 then Some(Charged(c, m, f, 0))
    else
      var pc := c.r[15];
      var s := Step(code, c, m);
      if s.stop != StepComplete then None
      else
        match ChargedSteps(code, stall, s.cpu, s.mem, Fetch(true, Words.Add(pc, FetchedSize(code, pc))), n - 1)
        case None => None
        case Some(rest) => Some(rest.(total := s.cycles + stall(pc, Sequential(f, pc)) + rest.total))
  }

  /** One step and the rest of a run. */
  lemma ChargedCons(code: Code, stall: StallFn, c: CpuState, m: Memory, f: Fetch, n: nat)
    requires Step(code, c, m).stop == StepComplete
    ensures
      var pc, s := c.r[15], Step(code, c, m);
      ChargedSteps(code, stall, c, m, f, n + 1) ==
        match ChargedSteps(code, stall, s.cpu, s.mem, Fetch(true, Words.Add(pc, FetchedSize(code, pc))), n)
        case None => None
        case Some(rest) => Some(rest.(total := s.cycles + stall(pc, Sequential(f, pc)) + rest.total))
  {
    hide Step, FetchedSize, Words.Add;
  }

  lemma ChargedNone(code: Code, stall: StallFn, c: CpuState, m: Memory, f: Fetch)
    ensures ChargedSteps(code, stall, c, m, f, 0) == Some(Charged(c, m, f, 0))
  {
  }

  /** Charged steps retire exactly what plain steps retire. */
  lemma {:induction false} ChargedIsSteps(code: Code, stall: StallFn, c: CpuState, m: Memory, f: Fetch, n: nat)
    ensures
      match ChargedSteps(code, stall, c, m, f, n)
      case None => Steps(code, c, m, n) == None
      case Some(ch) =>
        && Steps(code, c, m, n).Some?
        && Steps(code, c, m, n).value.cpu == ch.cpu && Steps(code, c, m, n).value.mem == ch.mem
        && Steps(code, c, m, n).value.cycles <= ch.total
    decreases n
  {
    hide Step;
    if n > 0 {
      var pc := c.r[15];
      var s := Step(code, c, m);
      if s.stop == StepComplete {
        ChargedIsSteps(code, stall, s.cpu, s.mem, Fetch(true, Words.Add(pc, FetchedSize(code, pc))), n - 1);
      }
    }
  }

  /** Charges add up over consecutive runs. */
  lemma {:induction false} ChargedCompose(
    code: Code, stall: StallFn, c: CpuState, m: Memory, f: Fetch, a: nat, b: nat)
    ensures
      ChargedSteps(code, stall, c, m, f, a + b) ==
      match ChargedSteps(code, stall, c, m, f, a)
      case None => None
      case Some(mid) =>
        match ChargedSteps(code, stall, mid.cpu, mid.mem, mid.fetch, b)
        case None => None
        case Some(last) => Some(last.(total := mid.total + last.total))
    decreases a
  {
    hide Step;
    if a > 0 {
      var pc := c.r[15];
      var s := Step(code, c, m);
      if s.stop == StepComplete {
        ChargedCompose(code, stall, s.cpu, s.mem, Fetch(true, Words.Add(pc, FetchedSize(code, pc))), a - 1, b);
      }
    }
  }
}
