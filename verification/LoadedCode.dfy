// A program image in memory, and the instruction the machine fetches from it.

module LoadedCode {
  import opened Bytes
  import opened Mik64Mmu
  import opened Mik64Cpu

  /** The word at pc, where the fetch finds it, is the image's for that address; base is the image's
      address as the program sees it. */
  ghost predicate InPlace(m: Machine, image: seq<u8>, base: nat, cached: bool) {
    var t := Fetched(m, cached);
    && t.reply.Pa? && t.reply.pa + 8 <= RAM_SIZE && base <= m.pc && m.pc - base + 8 <= |image|
    && t.m.mem[t.reply.pa..t.reply.pa + 8] == image[m.pc - base..m.pc - base + 8]
  }

  /** With paging off an image in memory at its own address is in place. */
  lemma FlatInPlace(m: Machine, image: seq<u8>, base: nat, cached: bool)
    requires m.csrs[CSR_PMODE] == 0 && base + |image| <= RAM_SIZE && m.mem[base..base + |image|] == image
    requires base <= m.pc && m.pc + 8 <= base + |image|
    ensures InPlace(m, image, base, cached)
  {
    var at := m.pc - base;
    assert m.mem[m.pc..m.pc + 8] == m.mem[base..base + |image|][at..at + 8];
  }

  /** The machine about to execute what it has fetched. */
  function Advanced(m: Machine, cached: bool): Machine { Fetched(m, cached).m.(pc := Wrap(m.pc + 8)) }

  /** A step executes the word the image has at pc; a fetch that is not word-aligned is an error. */
  lemma StepsWord(m: Machine, image: seq<u8>, base: nat, w: Word, cached: bool)
    requires InPlace(m, image, base, cached) && !Interrupted(m)
    requires image[m.pc - base..m.pc - base + 8] == LeBytes(w, 8)
    ensures Fetched(m, cached).reply.Pa? && Advanced(m, cached).regs == m.regs
    ensures Step(m, cached)
         == if m.pc % 8 != 0 then Err else Finish(Exec(Advanced(m, cached), m.pc, w, cached))
  {
    hide Exec, Finish;
    Pow256Eight();
    LeRoundTrip(w, 8);
    FetchKeepsRegs(m, cached);
    FetchAligned(m, cached);
  }

  lemma FetchKeepsRegs(m: Machine, cached: bool)
    ensures Fetched(m, cached).m.regs == m.regs
  {
    hide Walk, Marked, Denial, TlbIx;
  }

  /** Translation keeps the place in the page. */
  lemma FetchAligned(m: Machine, cached: bool)
    ensures var r := Fetched(m, cached).reply; r.Pa? ==> r.pa % 8 == m.pc % 8
  {
    hide Walk, Marked, Denial, TlbIx, Ppn;
    var r := Fetched(m, cached).reply;
    if r.Pa? && m.csrs[CSR_PMODE] != 0 {
      var q: nat :| r.pa == q * 4096 + m.pc % 4096;
      InPage(q, m.pc);
    }
  }

  lemma InPage(q: nat, va: nat)
    ensures (q * 4096 + va % 4096) % 8 == va % 8
  {
    var d, r := va / 4096, va % 4096;
    Mod8(512 * d, r);
    Mod8(512 * q, r);
  }

  lemma Mod8(k: nat, r: nat)
    ensures (8 * k + r) % 8 == r % 8
  {
    assert 8 * k + r == 8 * (k + r / 8) + r % 8;
  }

  /** Ending an instruction moves no pc and no register but x0. */
  lemma RetireKeeps(m: Machine)
    ensures Retire(m).pc == m.pc && forall r | 0 < r < 16 :: Retire(m).regs[r] == m.regs[r]
  {}
}
