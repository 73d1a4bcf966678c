/** The direct-read window of the native POP, after src/cpu/native_stack.cpp: a frame inside the
    published window is read from host memory instead of through the bulk helper. */
module PopWindow {
  import opened Words
  import opened Cpu
  import opened Native
  import opened Stack

  const TWO64: int := 0x1_0000_0000_0000_0000

  /** A published window: `host` is the host memory around its first byte, by signed offset. */
  datatype ReadWindow = ReadWindow(begin: Word, size: Word, host: int -> Byte)

  /** The window shows guest memory, inside its own span. */
  ghost predicate Shows(w: ReadWindow, m: Memory) {
    && w.begin + w.size <= 0x1_0000_0000
    && forall off: int | 0 <= off < w.size :: ShowsAt(w, m, off)
  }

  predicate ShowsAt(w: ReadWindow, m: Memory, off: int) {
    w.begin + off in m.bytes && w.host(off) == m.bytes[w.begin + off]
  }

  /** The test of the original: a 64-bit difference and a 64-bit sum, both wrapping. */
  predicate Admits(w: ReadWindow, start: Word, bytes: nat) {
    ((start - w.begin) % TWO64 + bytes) % TWO64 <= w.size
  }

  /** What the test admits: a frame inside the window, or one that begins at most its own length
      below it and ends inside. */
  lemma AdmitsExactly(w: ReadWindow, start: Word, bytes: nat)
    requires 0 < bytes <= 64
    ensures Admits(w, start, bytes) <==>
            || (w.begin <= start && start + bytes <= w.begin + w.size)
            || (start < w.begin <= start + bytes && start + bytes <= w.begin + w.size)
  {
    if start < w.begin {
      assert (start - w.begin) % TWO64 == start - w.begin + TWO64;
    }
  }

  /** Consecutive words of host memory. */
  function HostWords(host: int -> Byte, off: int, n: nat): (r: seq<Word>)
    ensures |r| == n
    decreases n
  {
    if n == 0 then []
    else [Join(host(off), host(off + 1), host(off + 2), host(off + 3))] + HostWords(host, off + 4, n - 1)
  }

  /** The frame the POP reads: through an admitting window, else through the bulk helper. */
  function FrameWords(w: Option<ReadWindow>, bus: Bus, pc: Word, start: Word, n: nat, m: Memory): Option<seq<Word>> {
    if w.Some? && Admits(w.value, start, 4 * n) then Some(HostWords(w.value.host, start - w.value.begin, n))
    else if start + 4 * n > 0x1_0000_0000 || !bus.pop(pc, start, n, m) then None
    else LoadWords(m, start, n)
  }

  /** Inside the window the host bytes are the guest words. */
  lemma {:induction false} InsideReads(w: ReadWindow, m: Memory, start: int, n: nat)
    requires Shows(w, m) && w.begin <= start && start + 4 * n <= w.begin + w.size
    ensures LoadWords(m, start, n) == Some(HostWords(w.host, start - w.begin, n))
    decreases n
  {
    hide LoadWords;
    if n == 0 {
      LoadsNone(m, start);
    } else {
      WordShown(w, m, start);
      InsideReads(w, m, start + 4, n - 1);
      ConsLoad(m, start, n - 1);
    }
  }

  lemma WordShown(w: ReadWindow, m: Memory, start: int)
    requires Shows(w, m) && w.begin <= start && start + 4 <= w.begin + w.size
    ensures
      var off := start - w.begin;
      Load(m, start, Four) == Some(Join(w.host(off), w.host(off + 1), w.host(off + 2), w.host(off + 3)))
  {
    hide Join;
    var off := start - w.begin;
    assert ShowsAt(w, m, off) && ShowsAt(w, m, off + 1) && ShowsAt(w, m, off + 2) && ShowsAt(w, m, off + 3);
    assert w.begin + off == start && w.begin + (off + 1) == start + 1;
    assert w.begin + (off + 2) == start + 2 && w.begin + (off + 3) == start + 3;
    assert Readable(m, start, 4);
  }

  /** Host memory that shows `m` in the window and holds the complement of guest byte `start` below it. */
  function Adverse(w: ReadWindow, m: Memory, start: Word): int -> Byte {
    (off: int) =>
      if 0 <= off < w.size && w.begin + off in m.bytes then m.bytes[w.begin + off]
      else if w.begin + off == start && start in m.bytes then 255 - m.bytes[start]
      else 0
  }

  lemma AdverseDiffers(w: ReadWindow, m: Memory, start: Word, n: nat)
    requires Shows(w, m) && start < w.begin && n > 0
    ensures Shows(w.(host := Adverse(w, m, start)), m)
    ensures LoadWords(m, start, n) != Some(HostWords(Adverse(w, m, start), start - w.begin, n))
  {
    hide LoadWords, Join, Load;
    AdverseShows(w, m, start);
    var host := Adverse(w, m, start);
    var off := start - w.begin;
    if LoadWords(m, start, n).Some? {
      ConsLoad(m, start, n - 1);
      FirstByte(m, start);
      JoinsFirst(host(off), host(off + 1), host(off + 2), host(off + 3));
      assert LoadWords(m, start, n).value[0] % 0x100 == m.bytes[start];
      assert HostWords(host, off, n)[0] % 0x100 == 255 - m.bytes[start];
    }
  }

  lemma AdverseShows(w: ReadWindow, m: Memory, start: Word)
    requires Shows(w, m)
    ensures Shows(w.(host := Adverse(w, m, start)), m)
  {
    var w1 := w.(host := Adverse(w, m, start));
    forall off: int | 0 <= off < w1.size
      ensures ShowsAt(w1, m, off)
    {
      assert ShowsAt(w, m, off);
    }
  }

  lemma JoinsFirst(b0: Byte, b1: Byte, b2: Byte, b3: Byte)
    ensures Join(b0, b1, b2, b3) % 0x100 == b0
  {
  }

  lemma FirstByte(m: Memory, start: int)
    ensures Load(m, start, Four).Some? ==> start in m.bytes && Load(m, start, Four).value % 0x100 == m.bytes[start]
  {
    hide Join;
    if Load(m, start, Four).Some? {
      JoinsFirst(m.bytes[start], m.bytes[start + 1], m.bytes[start + 2], m.bytes[start + 3]);
    }
  }

  /** An admitted window read is the guest frame, for whatever host memory surrounds the window, if
      and only if the frame does not begin below the window. */
  lemma WindowReadExact(w: ReadWindow, m: Memory, start: Word, n: nat)
    requires Shows(w, m) && 0 < n <= 16 && Admits(w, start, 4 * n)
    ensures
      (forall host: int -> Byte | Shows(w.(host := host), m) ::
         LoadWords(m, start, n) == Some(HostWords(host, start - w.begin, n)))
      <==> w.begin <= start
  {
    hide LoadWords, HostWords, Adverse;
    AdmitsExactly(w, start, 4 * n);
    if w.begin <= start {
      forall host: int -> Byte | Shows(w.(host := host), m)
        ensures LoadWords(m, start, n) == Some(HostWords(host, start - w.begin, n))
      {
        InsideReads(w.(host := host), m, start, n);
      }
    } else {
      AdverseDiffers(w, m, start, n);
    }
  }

  /** The bulk helper widened by the window: what a POP not below the window behaves like. */
  function Widened(w: ReadWindow, bus: Bus): Bus {
    bus.(pop := (pc: Word, start: Word, n: nat, m: Memory) => bus.pop(pc, start, n, m) || Admits(w, start, 4 * n))
  }

  /** nativeStackTransferPrepared on a pop, with its window. */
  function WindowPop(
    w: Option<ReadWindow>, regs: seq<nat>, c: CpuState, m: Memory, bus: Bus, pc: Word, expected: Word,
    allowDynamic: bool): Transfer
    requires RegNumbers(regs)
  {
    if regs == [] then TransferDeclined
    else
      match FrameWords(w, bus, pc, ActiveSp(c), |regs|, m)
      case None => TransferDeclined
      case Some(words) =>
        if |words| != |regs| then TransferDeclined
        else if !LoadsPc(regs) then Transferred(PopCommit(regs, c, words), m)
        else
          var target := words[|words| - 1];
          if InTokenBlock(target) || target % 2 == 0 then TransferDeclined
          else if ClearBit0(target) == expected then Transferred(PopCommit(regs, c, words), m)
          else if allowDynamic then Dynamic(PopCommit(regs, c, words), m)
          else TransferMismatch
  }

  /** A POP whose frame does not begin below the window is the windowless POP over a helper that also
      accepts the window, so every result about native POP holds of it. */
  lemma WindowPopIsPop(
    w: ReadWindow, regs: seq<nat>, c: CpuState, m: Memory, bus: Bus, pc: Word, expected: Word, allowDynamic: bool)
    requires RegNumbers(regs) && |regs| <= 16 && Shows(w, m) && w.begin <= ActiveSp(c)
    ensures WindowPop(Some(w), regs, c, m, bus, pc, expected, allowDynamic)
            == PopTransfer(regs, c, m, Widened(w, bus), pc, expected, allowDynamic)
  {
    hide LoadWords, HostWords, PopCommit, ClearBit0, ActiveSp, Admits, LoadsPc;
    var start, n := ActiveSp(c), |regs|;
    if regs != [] && Admits(w, start, 4 * n) {
      AdmitsExactly(w, start, 4 * n);
      InsideReads(w, m, start, n);
    }
  }

  /** A concrete miss: two words popped from four bytes below a window at 0x20000000 pass the test, and
      the first of them is not guest memory. */
  lemma WindowMiss(host: int -> Byte)
    ensures
      var w := ReadWindow(0x2000_0000, 0x1000, host);
      Admits(w, 0x1fff_fffc, 8) && HostWords(host, 0x1fff_fffc - w.begin, 2)[0]
        == Join(host(-4), host(-3), host(-2), host(-1))
  {
    AdmitsExactly(ReadWindow(0x2000_0000, 0x1000, host), 0x1fff_fffc, 8);
  }
}
