// The builder emitting the kernel's subroutines through its assembler, and the
// loaded binary holding them as their execution needs them.

module KernelBuilder {
  import opened Bytes
  import opened Mik64Mmu
  import opened Mik64Cpu
  import opened Mik64Asm
  import opened FlatCode
  import opened KernelCode
  import IdentityMap
  import Boot = BootTables
  import Fill = FillPt
  import Build = BuildTables
  import Pool = PagePool
  import Index = PteIndex
  import Fault = PageFault

  /** The words of a program lie in memory from loadAddr on. */
  ghost predicate InMemory(mem: Ram8, code: seq<Word>, loadAddr: nat) {
    loadAddr + 8 * |code| <= RAM_SIZE && mem[loadAddr..loadAddr + 8 * |code|] == WordBytes(code)
  }

  lemma SliceOfSlice(s: seq<u8>, lo: nat, hi: nat, a: nat, b: nat)
    requires lo <= hi <= |s| && a <= b <= hi - lo
    ensures s[lo..hi][a..b] == s[lo + a..lo + b]
  {
    var x, y := s[lo..hi][a..b], s[lo + a..lo + b];
    assert |x| == |y| && forall k | 0 <= k < |x| :: x[k] == y[k];
  }

  /** A loaded program is fetched word by word. */
  lemma FetchedWord(mem: Ram8, code: seq<Word>, loadAddr: nat, i: nat)
    requires InMemory(mem, code, loadAddr) && i < |code|
    ensures Read64(mem, loadAddr + 8 * i) == code[i]
  {
    hide WordBytes, LeBytes, LeWord, Pow256;
    BytesOfWord(code, i);
    var a := loadAddr + 8 * i;
    SliceOfSlice(mem, loadAddr, loadAddr + 8 * |code|, 8 * i, 8 * i + 8);
    assert mem[a..a + 8] == LeBytes(code[i], 8);
    Pow256Eight();
    LeRoundTrip(code[i], 8);
  }

  function W(opcode: nat, rd: nat, rs1: nat, rs2: nat, imm: int): Word
    requires InsOk(Ins(opcode, rd, rs1, rs2, imm))
  {
    WordOf(Ins(opcode, rd, rs1, rs2, imm))
  }

  // ---- What is emitted -------------------------------------------------------------------------

  /** One call of the assembler: an instruction as it is, or one awaiting a label. */
  datatype Op = Plain(ins: Ins) | Needs(kind: Kind, r1: nat, r2: nat, target: string)

  predicate OpOk(op: Op) {
    match op
    case Plain(i) => InsOk(i)
    case Needs(_, r1, r2, _) => r1 < 16 && r2 < 16
  }

  predicate OpsOk(ops: seq<Op>) { forall k | 0 <= k < |ops| :: OpOk(ops[k]) }

  function OpWord(op: Op): Word
    requires OpOk(op)
  {
    match op
    case Plain(i) => WordOf(i)
    case Needs(kind, r1, r2, _) => PendingWord(kind, r1, r2)
  }

  function OpWords(ops: seq<Op>): (code: seq<Word>)
    requires OpsOk(ops)
    ensures |code| == |ops|
  {
    seq(|ops|, k requires 0 <= k < |ops| => OpWord(ops[k]))
  }

  function FixupOf(op: Op, i: nat): Fixup
    requires op.Needs?
  {
    Fixup(i, op.target, op.kind, op.r1, op.r2)
  }

  /** The code holds those words from word n on. */
  ghost predicate Holds(code: seq<Word>, n: nat, ops: seq<Op>) {
    OpsOk(ops) && n + |ops| <= |code| && code[n..n + |ops|] == OpWords(ops)
  }

  /** Of those words exactly the ones that need a label await one. */
  ghost predicate Awaits(fs: seq<Fixup>, n: nat, ops: seq<Op>) {
    forall k: nat | k < |ops| :: if ops[k].Needs? then FixupOf(ops[k], n + k) in fs else !IsPending(fs, n + k)
  }

  /** What has just been emitted is held, ... */
  lemma HoldsEnd(before: seq<Word>, ops: seq<Op>)
    requires OpsOk(ops)
    ensures Holds(before + OpWords(ops), |before|, ops)
  {}

  /** ... and stays so whatever is emitted next. */
  lemma HoldsStays(code: seq<Word>, more: seq<Word>, n: nat, ops: seq<Op>)
    requires Holds(code, n, ops)
    ensures Holds(code + more, n, ops)
  {
    hide OpWords;
    assert (code + more)[n..n + |ops|] == code[n..n + |ops|];
  }

  lemma NoneAt(fs: seq<Fixup>, i: nat)
    requires forall f | f in fs :: f.idx != i
    ensures !IsPending(fs, i)
  {
    forall k | 0 <= k < |fs| ensures fs[k].idx != i {
      assert fs[k] in fs;
    }
  }

  lemma PendingIn(fs: seq<Fixup>, f: Fixup)
    requires f in fs
    ensures IsPending(fs, f.idx)
  {}

  lemma AwaitsStays(fs: seq<Fixup>, more: seq<Fixup>, n: nat, ops: seq<Op>)
    requires Awaits(fs, n, ops) && forall f | f in more :: f.idx >= n + |ops|
    ensures Awaits(fs + more, n, ops)
  {
    forall k: nat | k < |ops| && ops[k].Plain? ensures !IsPending(fs + more, n + k) {
      forall f | f in fs + more ensures f.idx != n + k {
        if f in fs { PendingIn(fs, f); }
      }
      NoneAt(fs + more, n + k);
    }
  }

  /** Fix-ups of earlier words, then those of the words that need one. */
  lemma AwaitsEnd(before: seq<Fixup>, own: seq<Fixup>, n: nat, ops: seq<Op>)
    requires forall f | f in before :: f.idx < n
    requires forall k: nat | k < |ops| && ops[k].Needs? :: FixupOf(ops[k], n + k) in own
    requires forall f | f in own :: n <= f.idx < n + |ops| && ops[f.idx - n].Needs?
    ensures Awaits(before + own, n, ops)
  {
    hide IsPending;
    forall k: nat | k < |ops| && ops[k].Plain? ensures !IsPending(before + own, n + k) {
      NoneAt(before + own, n + k);
    }
  }

  lemma HoldsParts(code: seq<Word>, n: nat, a: seq<Op>, b: seq<Op>)
    requires Holds(code, n, a + b)
    ensures Holds(code, n, a) && Holds(code, n + |a|, b)
  {
    hide OpWord;
    var all := OpWords(a + b);
    forall k | 0 <= k < |a| ensures OpOk(a[k]) && code[n + k] == OpWord(a[k]) {
      assert (a + b)[k] == a[k] && code[n..n + |a + b|][k] == all[k];
    }
    forall k | 0 <= k < |b| ensures OpOk(b[k]) && code[n + |a| + k] == OpWord(b[k]) {
      assert (a + b)[|a| + k] == b[k] && code[n..n + |a + b|][|a| + k] == all[|a| + k];
    }
  }

  lemma AwaitsParts(fs: seq<Fixup>, n: nat, a: seq<Op>, b: seq<Op>)
    requires Awaits(fs, n, a + b)
    ensures Awaits(fs, n, a) && Awaits(fs, n + |a|, b)
  {
    hide IsPending;
    forall k: nat | k < |a| ensures if a[k].Needs? then FixupOf(a[k], n + k) in fs else !IsPending(fs, n + k) {
      assert (a + b)[k] == a[k];
    }
    forall k: nat | k < |b| ensures if b[k].Needs? then FixupOf(b[k], n + |a| + k) in fs else !IsPending(fs, n + |a| + k) {
      assert (a + b)[|a| + k] == b[k];
    }
  }

  /** Held, and awaiting its labels as emitted. */
  ghost predicate Stands(code: seq<Word>, fs: seq<Fixup>, n: nat, ops: seq<Op>) { Holds(code, n, ops) && Awaits(fs, n, ops) }

  lemma StandsFits(code: seq<Word>, fs: seq<Fixup>, n: nat, ops: seq<Op>)
    requires Stands(code, fs, n, ops)
    ensures n + |ops| <= |code|
  {}

  lemma Split(code: seq<Word>, fs: seq<Fixup>, n: nat, a: seq<Op>, b: seq<Op>)
    requires Stands(code, fs, n, a + b)
    ensures Stands(code, fs, n, a) && Stands(code, fs, n + |a|, b)
  {
    hide Holds, Awaits;
    HoldsParts(code, n, a, b);
    AwaitsParts(fs, n, a, b);
  }

  // ---- What is loaded --------------------------------------------------------------------------

  /** A call emitted as word i stands for that instruction once its label is known. */
  ghost predicate Means(op: Op, labels: map<string, nat>, loadAddr: nat, i: nat, ins: Ins) {
    && InsOk(ins)
    && match op
       case Plain(x) => ins == x
       case Needs(kind, r1, r2, target) =>
         && target in labels
         && ins == (if kind == ToLi then Ins(LI, r1, 0, 0, loadAddr + labels[target] * 8)
                    else Ins(OpcodeOf(kind), 0, r1, r2, labels[target] - i))
  }

  /** The binary: the code emitted, resolved, in memory at its load address. */
  ghost predicate Loaded(code: seq<Word>, resolved: seq<Word>, labels: map<string, nat>, fs: seq<Fixup>, loadAddr: nat, mem: Ram8) {
    && |resolved| == |code| && Resolved(resolved, labels, fs, loadAddr)
    && (forall i | 0 <= i < |code| && !IsPending(fs, i) :: resolved[i] == code[i])
    && InMemory(mem, resolved, loadAddr) && loadAddr % 8 == 0
  }

  /** Emitted, resolved and loaded: the instructions lie in memory at the addresses of their words. */
  lemma Listed(code: seq<Word>, resolved: seq<Word>, labels: map<string, nat>, fs: seq<Fixup>, loadAddr: nat, mem: Ram8,
               n: nat, ops: seq<Op>, ins: seq<Ins>)
    requires Loaded(code, resolved, labels, fs, loadAddr, mem) && Stands(code, fs, n, ops)
    requires |ins| == |ops| && forall k: nat | k < |ops| :: Means(ops[k], labels, loadAddr, n + k, ins[k])
    ensures Listing(mem, loadAddr + 8 * n, ins)
  {
    hide WordOf, Read64, OpWord, Means, Loaded, Awaits;
    assert loadAddr + 8 * |code| <= RAM_SIZE by { LoadedFits(code, resolved, labels, fs, loadAddr, mem); }
    forall k: nat | k < |ins| ensures At(mem, loadAddr + 8 * n + 8 * k, ins[k]) {
      assert code[n + k] == OpWord(ops[k]) by { assert code[n..n + |ops|][k] == OpWords(ops)[k]; }
      LoadedWord(code, resolved, labels, fs, loadAddr, mem, n, k, ops, ins[k]);
    }
  }

  lemma LoadedFits(code: seq<Word>, resolved: seq<Word>, labels: map<string, nat>, fs: seq<Fixup>, loadAddr: nat, mem: Ram8)
    requires Loaded(code, resolved, labels, fs, loadAddr, mem)
    ensures loadAddr + 8 * |code| <= RAM_SIZE
  {}

  lemma LoadedWord(code: seq<Word>, resolved: seq<Word>, labels: map<string, nat>, fs: seq<Fixup>, loadAddr: nat, mem: Ram8,
                   n: nat, k: nat, ops: seq<Op>, ins: Ins)
    requires Loaded(code, resolved, labels, fs, loadAddr, mem) && Awaits(fs, n, ops) && OpsOk(ops)
    requires k < |ops| && n + k < |code| && code[n + k] == OpWord(ops[k]) && Means(ops[k], labels, loadAddr, n + k, ins)
    ensures At(mem, loadAddr + 8 * n + 8 * k, ins)
  {
    hide WordOf, Read64, PendingWord, FixupWord, IsPending;
    FetchedWord(mem, resolved, loadAddr, n + k);
    var op := ops[k];
    if op.Needs? {
      var f := FixupOf(op, n + k);
      var j :| 0 <= j < |fs| && fs[j] == f;
      assert Fixed(resolved, labels, fs[j], loadAddr);
      PatchedWord(f, labels[f.target], loadAddr, ins);
    }
  }

  lemma PatchedWord(f: Fixup, t: nat, loadAddr: nat, ins: Ins)
    requires InsOk(ins) && f.r1 < 16 && f.r2 < 16
    requires ins == if f.kind == ToLi then Ins(LI, f.r1, 0, 0, loadAddr + t * 8) else Ins(OpcodeOf(f.kind), 0, f.r1, f.r2, t - f.idx)
    ensures FixupWord(f, FixupImm(f, t, loadAddr)) == WordOf(ins)
  {
    hide Encode;
  }

  function PlainOps(ins: seq<Ins>): (ops: seq<Op>)
    ensures |ops| == |ins|
  {
    seq(|ins|, k requires 0 <= k < |ins| => Plain(ins[k]))
  }

  lemma WordsThen(a: seq<Op>, b: seq<Op>)
    requires OpsOk(a) && OpsOk(b)
    ensures OpsOk(a + b) && OpWords(a + b) == OpWords(a) + OpWords(b)
  {
    hide OpWord;
    assert OpsOk(a + b) by {
      forall k | 0 <= k < |a + b| ensures OpOk((a + b)[k]) {
        assert (a + b)[k] in a || (a + b)[k] in b;
      }
    }
    forall k | 0 <= k < |a + b| ensures OpWords(a + b)[k] == (OpWords(a) + OpWords(b))[k] {}
  }

  /** One part emitted, then another. */
  lemma EmittedThen(before: seq<Word>, a: seq<Op>, b: seq<Op>, mid: seq<Word>, after: seq<Word>)
    requires OpsOk(a) && OpsOk(b) && mid == before + OpWords(a) && after == mid + OpWords(b)
    ensures OpsOk(a + b) && after == before + OpWords(a + b)
  {
    WordsThen(a, b);
    hide OpWords;
    assert before + OpWords(a) + OpWords(b) == before + (OpWords(a) + OpWords(b));
  }

  // ---- fill_pt --------------------------------------------------------------------------------------

  function ConstsOps(): (ops: seq<Op>)
    ensures |ops| == 2 && OpsOk(ops)
  {
    [Plain(Ins(LI, 3, 0, 0, 512)), Plain(Ins(LI, 13, 0, 0, 3))]
  }

  /** The count and the flags. */
  method EmitConsts(a: Asm)
    requires a.Valid()
    modifies a
    ensures a.Valid() && a.code == old(a.code) + OpWords(ConstsOps()) && a.labels == old(a.labels)["fill_pt" := |old(a.code)|]
    ensures a.unresolved == old(a.unresolved)
  {
    hide WordOf, PendingWord, Asm.Valid;
    a.Label("fill_pt");
    a.Emit(W(LI, 3, 0, 0, 512));
    a.Emit(W(LI, 13, 0, 0, 3));
    assert a.code == old(a.code) + OpWords(ConstsOps());
  }

  function RoundsOps(): (ops: seq<Op>)
    ensures |ops| == 7 && OpsOk(ops)
  {
    [Plain(Ins(OR, 1, 11, 13, 0)), Plain(Ins(STORE64, 0, 12, 1, 0)),
     Plain(Ins(ADDI, 11, 11, 0, 0x1000)), Plain(Ins(ADDI, 12, 12, 0, 8)), Plain(Ins(ADDI, 3, 3, 0, -1)),
     Needs(ToBne, 3, 0, "fill_loop"), Plain(Ins(JMPR, 0, 15, 0, 0))]
  }

  /** The loop over the entries, and back. */
  method EmitRounds(a: Asm)
    requires a.Valid()
    modifies a
    ensures a.Valid() && a.code == old(a.code) + OpWords(RoundsOps()) && a.labels == old(a.labels)["fill_loop" := |old(a.code)|]
    ensures a.unresolved == old(a.unresolved) + [Fixup(|old(a.code)| + 5, "fill_loop", ToBne, 3, 0)]
  {
    hide WordOf, PendingWord, Asm.Valid;
    a.Label("fill_loop");
    a.Emit(W(OR, 1, 11, 13, 0));
    a.Emit(W(STORE64, 0, 12, 1, 0));
    a.Emit(W(ADDI, 11, 11, 0, 0x1000));
    a.Emit(W(ADDI, 12, 12, 0, 8));
    a.Emit(W(ADDI, 3, 3, 0, -1));
    a.Bne(3, 0, "fill_loop");
    a.Emit(W(JMPR, 0, 15, 0, 0));
    assert a.code == old(a.code) + OpWords(RoundsOps());
  }

  function FillOps(): (ops: seq<Op>)
    ensures |ops| == 9 && OpsOk(ops)
  {
    ConstsOps() + RoundsOps()
  }

  /** The part of build_common that emits fill_pt. */
  method EmitFillPt(a: Asm)
    requires a.Valid()
    modifies a
    ensures a.Valid() && a.code == old(a.code) + OpWords(FillOps())
    ensures a.labels == old(a.labels)["fill_pt" := |old(a.code)|]["fill_loop" := |old(a.code)| + 2]
    ensures a.unresolved == old(a.unresolved) + [Fixup(|old(a.code)| + 7, "fill_loop", ToBne, 3, 0)]
  {
    hide OpWords, ConstsOps, RoundsOps, OpsOk, Asm.Valid;
    EmitConsts(a);
    ghost var code1 := a.code;
    EmitRounds(a);
    EmittedThen(old(a.code), ConstsOps(), RoundsOps(), code1, a.code);
  }

  function FillCode(): (code: seq<Ins>)
    ensures |code| == 9
  {
    [Ins(LI, 3, 0, 0, 512), Ins(LI, 13, 0, 0, 3), Ins(OR, 1, 11, 13, 0), Ins(STORE64, 0, 12, 1, 0),
     Ins(ADDI, 11, 11, 0, 0x1000), Ins(ADDI, 12, 12, 0, 8), Ins(ADDI, 3, 3, 0, -1), Ins(BNE, 0, 3, 0, -5), Ins(JMPR, 0, 15, 0, 0)]
  }

  lemma FillListed(mem: Ram8, f: nat)
    requires Listing(mem, f, FillCode())
    ensures Fill.CodeAt(mem, f)
  {
    hide At;
    var c := FillCode();
    assert At(mem, f + 8 * 0, c[0]) && At(mem, f + 8 * 1, c[1]) && At(mem, f + 8 * 2, c[2]);
    assert At(mem, f + 8 * 3, c[3]) && At(mem, f + 8 * 4, c[4]) && At(mem, f + 8 * 5, c[5]);
    assert At(mem, f + 8 * 6, c[6]) && At(mem, f + 8 * 7, c[7]) && At(mem, f + 8 * 8, c[8]);
  }

  /** Emit, resolve, load: fill_pt is in memory as its execution needs it, for any load address
      that is a multiple of 8 and whatever else the program contains. */
  lemma FillPtLoaded(code: seq<Word>, resolved: seq<Word>, labels: map<string, nat>, fs: seq<Fixup>, loadAddr: nat, mem: Ram8, n: nat)
    requires Loaded(code, resolved, labels, fs, loadAddr, mem) && Stands(code, fs, n, FillOps())
    requires "fill_loop" in labels && labels["fill_loop"] == n + 2
    ensures Fill.CodeAt(mem, loadAddr + 8 * n)
  {
    hide WordOf, Loaded, Stands;
    Listed(code, resolved, labels, fs, loadAddr, mem, n, FillOps(), FillCode());
    FillListed(mem, loadAddr + 8 * n);
  }

  // ---- The boot code ----------------------------------------------------------------------------------

  function MoveOps(): (ops: seq<Op>)
    ensures |ops| == 7 && OpsOk(ops)
  {
    [Plain(Ins(ADD, 4, 2, 0, 0)), Plain(Ins(ADDI, 5, 4, 0, 0x1000)), Plain(Ins(ADDI, 6, 4, 0, 0x2000)),
     Plain(Ins(ADDI, 7, 4, 0, 0x3000)), Plain(Ins(ADDI, 8, 4, 0, 0x4000)), Plain(Ins(ADDI, 9, 4, 0, 0x5000)),
     Plain(Ins(ADDI, 10, 4, 0, 0x6000))]
  }

  method EmitMoves(a: Asm)
    requires a.Valid()
    modifies a
    ensures a.Valid() && a.code == old(a.code) + OpWords(MoveOps()) && a.labels == old(a.labels) && a.unresolved == old(a.unresolved)
  {
    hide WordOf;
    a.Emit(W(ADD, 4, 2, 0, 0));
    a.Emit(W(ADDI, 5, 4, 0, 0x1000));
    a.Emit(W(ADDI, 6, 4, 0, 0x2000));
    a.Emit(W(ADDI, 7, 4, 0, 0x3000));
    a.Emit(W(ADDI, 8, 4, 0, 0x4000));
    a.Emit(W(ADDI, 9, 4, 0, 0x5000));
    a.Emit(W(ADDI, 10, 4, 0, 0x6000));
    assert a.code == old(a.code) + OpWords(MoveOps());
  }

  /** A call of fill_pt that comes back at the label `back`. */
  function CallOps(start: nat, r: nat, back: string): (ops: seq<Op>)
    requires start < 0x80_0000 && r < 16
    ensures |ops| == 4 && OpsOk(ops)
  {
    [Plain(Ins(LI, 11, 0, 0, start)), Plain(Ins(ADD, 12, r, 0, 0)), Needs(ToLi, 15, 0, back), Needs(ToJmp, 0, 0, "fill_pt")]
  }

  function CallFixups(i: nat, back: string): (fs: seq<Fixup>)
  {
    [Fixup(i + 2, back, ToLi, 15, 0), Fixup(i + 3, "fill_pt", ToJmp, 0, 0)]
  }

  method EmitFillCall(a: Asm, start: nat, r: nat, back: string)
    requires a.Valid() && start < 0x80_0000 && r < 16
    modifies a
    ensures a.Valid() && a.code == old(a.code) + OpWords(CallOps(start, r, back))
    ensures a.labels == old(a.labels)[back := |old(a.code)| + 4] && a.unresolved == old(a.unresolved) + CallFixups(|old(a.code)|, back)
  {
    hide WordOf, PendingWord;
    a.Emit(W(LI, 11, 0, 0, start));
    a.Emit(W(ADD, 12, r, 0, 0));
    a.Li(15, back);
    a.Jmp("fill_pt");
    a.Label(back);
    assert a.code == old(a.code) + OpWords(CallOps(start, r, back));
  }

  /** Two such calls, for neighbouring tables. */
  function PairOps(start: nat, r: nat, back: string, back': string): (ops: seq<Op>)
    requires start + 0x20_0000 < 0x80_0000 && r + 1 < 16
    ensures |ops| == 8 && OpsOk(ops)
  {
    CallOps(start, r, back) + CallOps(start + 0x20_0000, r + 1, back')
  }

  method EmitPair(a: Asm, start: nat, r: nat, back: string, back': string)
    requires a.Valid() && start + 0x20_0000 < 0x80_0000 && r + 1 < 16
    modifies a
    ensures a.Valid() && a.code == old(a.code) + OpWords(PairOps(start, r, back, back'))
    ensures a.labels == old(a.labels)[back := |old(a.code)| + 4][back' := |old(a.code)| + 8]
    ensures a.unresolved == old(a.unresolved) + (CallFixups(|old(a.code)|, back) + CallFixups(|old(a.code)| + 4, back'))
  {
    hide OpWords, CallFixups, CallOps, OpsOk, Asm.Valid;
    EmitFillCall(a, start, r, back);
    ghost var code1 := a.code;
    EmitFillCall(a, start + 0x20_0000, r + 1, back');
    EmittedThen(old(a.code), CallOps(start, r, back), CallOps(start + 0x20_0000, r + 1, back'), code1, a.code);
  }

  function CallsOps(): (ops: seq<Op>)
    ensures |ops| == 16 && OpsOk(ops)
  {
    PairOps(0, 7, "after_fill0", "after_fill1") + PairOps(0x40_0000, 9, "after_fill2", "after_fill3")
  }

  function CallsFixups(i: nat): seq<Fixup> {
    CallFixups(i, "after_fill0") + CallFixups(i + 4, "after_fill1") + (CallFixups(i + 8, "after_fill2") + CallFixups(i + 12, "after_fill3"))
  }

  /** The four leaf tables. */
  method EmitCalls(a: Asm)
    requires a.Valid()
    modifies a
    ensures a.Valid() && a.code == old(a.code) + OpWords(CallsOps()) && a.unresolved == old(a.unresolved) + CallsFixups(|old(a.code)|)
    ensures var n := |old(a.code)|;
      a.labels == old(a.labels)["after_fill0" := n + 4]["after_fill1" := n + 8]["after_fill2" := n + 12]["after_fill3" := n + 16]
  {
    hide OpWords, CallFixups, PairOps, OpsOk, Asm.Valid;
    EmitPair(a, 0, 7, "after_fill0", "after_fill1");
    ghost var code1 := a.code;
    EmitPair(a, 0x40_0000, 9, "after_fill2", "after_fill3");
    EmittedThen(old(a.code), PairOps(0, 7, "after_fill0", "after_fill1"), PairOps(0x40_0000, 9, "after_fill2", "after_fill3"), code1, a.code);
  }

  /** An upper entry: src | P | W at offset off of the table in register dst. */
  function LinkOps(src: nat, dst: nat, off: nat): (ops: seq<Op>)
    requires src < 16 && dst < 16 && off < 4096
    ensures |ops| == 3 && OpsOk(ops)
  {
    [Plain(Ins(ADD, 1, src, 0, 0)), Plain(Ins(ADDI, 1, 1, 0, 3)), Plain(Ins(STORE64, 0, dst, 1, off))]
  }

  method EmitLink(a: Asm, src: nat, dst: nat, off: nat)
    requires a.Valid() && src < 16 && dst < 16 && off < 4096
    modifies a
    ensures a.Valid() && a.code == old(a.code) + OpWords(LinkOps(src, dst, off))
    ensures a.labels == old(a.labels) && a.unresolved == old(a.unresolved)
  {
    hide WordOf;
    a.Emit(W(ADD, 1, src, 0, 0));
    a.Emit(W(ADDI, 1, 1, 0, 3));
    a.Emit(W(STORE64, 0, dst, 1, off));
    assert a.code == old(a.code) + OpWords(LinkOps(src, dst, off));
  }

  function LinksOps(): (ops: seq<Op>)
    ensures |ops| == 18 && OpsOk(ops)
  {
    LinkOps(5, 4, 0) + LinkOps(6, 5, 0) + LinkOps(7, 6, 0) + LinkOps(8, 6, 8) + LinkOps(9, 6, 16) + LinkOps(10, 6, 24)
  }

  /** The six entries above the leaf tables. */
  method EmitLinks(a: Asm)
    requires a.Valid()
    modifies a
    ensures a.Valid() && a.code == old(a.code) + OpWords(LinksOps()) && a.labels == old(a.labels) && a.unresolved == old(a.unresolved)
  {
    hide WordOf, OpWords, LinkOps, OpsOk;
    var l0, l1, l2, l3, l4, l5 := LinkOps(5, 4, 0), LinkOps(6, 5, 0), LinkOps(7, 6, 0), LinkOps(8, 6, 8), LinkOps(9, 6, 16), LinkOps(10, 6, 24);
    EmitLink(a, 5, 4, 0);
    ghost var code1 := a.code;
    EmitLink(a, 6, 5, 0);
    ghost var code2 := a.code;
    EmittedThen(old(a.code), l0, l1, code1, code2);
    EmitLink(a, 7, 6, 0);
    ghost var code3 := a.code;
    EmittedThen(old(a.code), l0 + l1, l2, code2, code3);
    EmitLink(a, 8, 6, 8);
    ghost var code4 := a.code;
    EmittedThen(old(a.code), l0 + l1 + l2, l3, code3, code4);
    EmitLink(a, 9, 6, 16);
    ghost var code5 := a.code;
    EmittedThen(old(a.code), l0 + l1 + l2 + l3, l4, code4, code5);
    EmitLink(a, 10, 6, 24);
    EmittedThen(old(a.code), l0 + l1 + l2 + l3 + l4, l5, code5, a.code);
  }

  function EnableOps(): (ops: seq<Op>)
    ensures |ops| == 4 && OpsOk(ops)
  {
    [Plain(Ins(ADD, 1, 4, 0, 0)), Plain(Ins(WRCSR, 0, 1, 0, CSR_PTBR)), Plain(Ins(LI, 1, 0, 0, 1)), Plain(Ins(WRCSR, 0, 1, 0, CSR_PMODE))]
  }

  method EmitEnable(a: Asm)
    requires a.Valid()
    modifies a
    ensures a.Valid() && a.code == old(a.code) + OpWords(EnableOps()) && a.labels == old(a.labels) && a.unresolved == old(a.unresolved)
  {
    hide WordOf;
    a.Emit(W(ADD, 1, 4, 0, 0));
    a.Emit(W(WRCSR, 0, 1, 0, CSR_PTBR));
    a.Emit(W(LI, 1, 0, 0, 1));
    a.Emit(W(WRCSR, 0, 1, 0, CSR_PMODE));
    assert a.code == old(a.code) + OpWords(EnableOps());
  }

  function BootOps(): (ops: seq<Op>)
    ensures |ops| == 45 && OpsOk(ops)
  {
    MoveOps() + CallsOps() + LinksOps() + EnableOps()
  }

  /** The part of build_common that builds the boot tables and turns paging on. */
  method EmitBoot(a: Asm)
    requires a.Valid()
    modifies a
    ensures a.Valid() && a.code == old(a.code) + OpWords(BootOps()) && a.unresolved == old(a.unresolved) + CallsFixups(|old(a.code)| + 7)
    ensures var n := |old(a.code)|;
      a.labels == old(a.labels)["after_fill0" := n + 11]["after_fill1" := n + 15]["after_fill2" := n + 19]["after_fill3" := n + 23]
  {
    hide OpWords, MoveOps, CallsOps, LinksOps, EnableOps, CallsFixups, OpsOk;
    EmitMoves(a);
    ghost var code1 := a.code;
    EmitCalls(a);
    ghost var code2 := a.code;
    EmittedThen(old(a.code), MoveOps(), CallsOps(), code1, code2);
    EmitLinks(a);
    ghost var code3 := a.code;
    EmittedThen(old(a.code), MoveOps() + CallsOps(), LinksOps(), code2, code3);
    EmitEnable(a);
    EmittedThen(old(a.code), MoveOps() + CallsOps() + LinksOps(), EnableOps(), code3, a.code);
  }

  lemma MovesListed(mem: Ram8, s: nat, c: seq<Ins>)
    requires Listing(mem, s, c) && |c| == 7 && forall k: nat | k < 7 :: MoveOps()[k] == Plain(c[k])
    ensures Boot.Moves(mem, s)
  {
    hide At;
    assert At(mem, s + 8 * 0, c[0]) && At(mem, s + 8 * 1, c[1]) && At(mem, s + 8 * 2, c[2]) && At(mem, s + 8 * 3, c[3]);
    assert At(mem, s + 8 * 4, c[4]) && At(mem, s + 8 * 5, c[5]) && At(mem, s + 8 * 6, c[6]);
  }
  function CallIns(start: nat, r: nat, back: nat, off: int): (ins: seq<Ins>)
    ensures |ins| == 4
  {
    [Ins(LI, 11, 0, 0, start), Ins(ADD, 12, r, 0, 0), Ins(LI, 15, 0, 0, back), Ins(JMP, 0, 0, 0, off)]
  }

  lemma CallMeans(labels: map<string, nat>, loadAddr: nat, n: nat, fi: nat, len: nat, start: nat, r: nat, back: string)
    requires start < 0x80_0000 && r < 16 && n + 4 <= len && fi <= len && loadAddr + 8 * len <= RAM_SIZE
    requires back in labels && labels[back] == n + 4 && "fill_pt" in labels && labels["fill_pt"] == fi
    ensures forall k: nat | k < 4 ::
      Means(CallOps(start, r, back)[k], labels, loadAddr, n + k, CallIns(start, r, loadAddr + 8 * n + 32, fi - (n + 3))[k])
  {
    var ops, ins := CallOps(start, r, back), CallIns(start, r, loadAddr + 8 * n + 32, fi - (n + 3));
    assert Means(ops[0], labels, loadAddr, n, ins[0]) && Means(ops[1], labels, loadAddr, n + 1, ins[1]);
    assert Means(ops[2], labels, loadAddr, n + 2, ins[2]);
    assert Means(ops[3], labels, loadAddr, n + 3, ins[3]);
  }

  lemma CallListed(mem: Ram8, c: nat, start: nat, r: nat, f: nat, ins: seq<Ins>)
    requires Listing(mem, c, ins) && |ins| == 4 && (f - (c + 24)) % 8 == 0
    requires ins == CallIns(start, r, c + 32, (f - (c + 24)) / 8)
    ensures Boot.FillCall(mem, c, start, r, f)
  {
    hide At;
    assert At(mem, c + 8 * 0, ins[0]) && At(mem, c + 8 * 1, ins[1]) && At(mem, c + 8 * 2, ins[2]) && At(mem, c + 8 * 3, ins[3]);
  }

  lemma LinkListed(mem: Ram8, c: nat, src: nat, dst: nat, off: nat)
    requires Listing(mem, c, [Ins(ADD, 1, src, 0, 0), Ins(ADDI, 1, 1, 0, 3), Ins(STORE64, 0, dst, 1, off)])
    ensures Boot.Link(mem, c, src, dst, off)
  {
    hide At;
    var ins := [Ins(ADD, 1, src, 0, 0), Ins(ADDI, 1, 1, 0, 3), Ins(STORE64, 0, dst, 1, off)];
    assert At(mem, c + 8 * 0, ins[0]) && At(mem, c + 8 * 1, ins[1]) && At(mem, c + 8 * 2, ins[2]);
  }

  lemma EnableListed(mem: Ram8, c: nat)
    requires Listing(mem, c, [Ins(ADD, 1, 4, 0, 0), Ins(WRCSR, 0, 1, 0, CSR_PTBR), Ins(LI, 1, 0, 0, 1), Ins(WRCSR, 0, 1, 0, CSR_PMODE)])
    ensures Boot.Enable(mem, c)
  {
    hide At;
    var ins := [Ins(ADD, 1, 4, 0, 0), Ins(WRCSR, 0, 1, 0, CSR_PTBR), Ins(LI, 1, 0, 0, 1), Ins(WRCSR, 0, 1, 0, CSR_PMODE)];
    assert At(mem, c + 8 * 0, ins[0]) && At(mem, c + 8 * 1, ins[1]) && At(mem, c + 8 * 2, ins[2]) && At(mem, c + 8 * 3, ins[3]);
  }

  /** A loaded call of fill_pt, fill_pt being word fi. */
  lemma CallLoaded(code: seq<Word>, resolved: seq<Word>, labels: map<string, nat>, fs: seq<Fixup>, loadAddr: nat, mem: Ram8,
                   n: nat, fi: nat, start: nat, r: nat, back: string)
    requires Loaded(code, resolved, labels, fs, loadAddr, mem) && start < 0x80_0000 && r < 16
    requires Stands(code, fs, n, CallOps(start, r, back))
    requires back in labels && labels[back] == n + 4 && "fill_pt" in labels && labels["fill_pt"] == fi <= |code|
    ensures Boot.FillCall(mem, loadAddr + 8 * n, start, r, loadAddr + 8 * fi)
  {
    hide WordOf, Loaded, Stands, CallOps, Listing, Boot.FillCall, Means, OpsOk, CallIns, Boot.FillCall;
    LoadedFits(code, resolved, labels, fs, loadAddr, mem);
    StandsFits(code, fs, n, CallOps(start, r, back));
    var c, f := loadAddr + 8 * n, loadAddr + 8 * fi;
    Apart8Words(loadAddr, fi, n);
    CallMeans(labels, loadAddr, n, fi, |code|, start, r, back);
    var ins := CallIns(start, r, c + 32, fi - (n + 3));
    Listed(code, resolved, labels, fs, loadAddr, mem, n, CallOps(start, r, back), ins);
    CallListed(mem, c, start, r, f, ins);
  }

  lemma Apart8Words(base: nat, i: nat, j: int)
    ensures var d := base + 8 * i - (base + 8 * j + 24); d % 8 == 0 && d / 8 == i - (j + 3)
  {
    assert base + 8 * i - (base + 8 * j + 24) == 8 * (i - (j + 3));
  }

  lemma LinkLoaded(code: seq<Word>, resolved: seq<Word>, labels: map<string, nat>, fs: seq<Fixup>, loadAddr: nat, mem: Ram8,
                   n: nat, src: nat, dst: nat, off: nat)
    requires Loaded(code, resolved, labels, fs, loadAddr, mem) && src < 16 && dst < 16 && off < 4096
    requires Stands(code, fs, n, LinkOps(src, dst, off))
    ensures Boot.Link(mem, loadAddr + 8 * n, src, dst, off)
  {
    hide WordOf, Loaded, Stands;
    var ins := [Ins(ADD, 1, src, 0, 0), Ins(ADDI, 1, 1, 0, 3), Ins(STORE64, 0, dst, 1, off)];
    Listed(code, resolved, labels, fs, loadAddr, mem, n, LinkOps(src, dst, off), ins);
    LinkListed(mem, loadAddr + 8 * n, src, dst, off);
  }

  lemma CallsStand(code: seq<Word>, fs: seq<Fixup>, n: nat)
    requires Stands(code, fs, n, CallsOps())
    ensures Stands(code, fs, n, CallOps(0, 7, "after_fill0")) && Stands(code, fs, n + 4, CallOps(0x20_0000, 8, "after_fill1"))
    ensures Stands(code, fs, n + 8, CallOps(0x40_0000, 9, "after_fill2")) && Stands(code, fs, n + 12, CallOps(0x60_0000, 10, "after_fill3"))
  {
    hide Stands, CallOps;
    Split(code, fs, n, PairOps(0, 7, "after_fill0", "after_fill1"), PairOps(0x40_0000, 9, "after_fill2", "after_fill3"));
    Split(code, fs, n, CallOps(0, 7, "after_fill0"), CallOps(0x20_0000, 8, "after_fill1"));
    Split(code, fs, n + 8, CallOps(0x40_0000, 9, "after_fill2"), CallOps(0x60_0000, 10, "after_fill3"));
  }

  lemma LinksStand(code: seq<Word>, fs: seq<Fixup>, n: nat)
    requires Stands(code, fs, n, LinksOps())
    ensures Stands(code, fs, n, LinkOps(5, 4, 0)) && Stands(code, fs, n + 3, LinkOps(6, 5, 0)) && Stands(code, fs, n + 6, LinkOps(7, 6, 0))
    ensures Stands(code, fs, n + 9, LinkOps(8, 6, 8)) && Stands(code, fs, n + 12, LinkOps(9, 6, 16)) && Stands(code, fs, n + 15, LinkOps(10, 6, 24))
  {
    hide Stands, LinkOps;
    var l0, l1, l2, l3, l4, l5 := LinkOps(5, 4, 0), LinkOps(6, 5, 0), LinkOps(7, 6, 0), LinkOps(8, 6, 8), LinkOps(9, 6, 16), LinkOps(10, 6, 24);
    Split(code, fs, n, l0 + l1 + l2 + l3 + l4, l5);
    Split(code, fs, n, l0 + l1 + l2 + l3, l4);
    Split(code, fs, n, l0 + l1 + l2, l3);
    Split(code, fs, n, l0 + l1, l2);
    Split(code, fs, n, l0, l1);
  }

  predicate BackLabels(labels: map<string, nat>, n: nat, fi: nat) {
    && "after_fill0" in labels && labels["after_fill0"] == n + 4 && "after_fill1" in labels && labels["after_fill1"] == n + 8
    && "after_fill2" in labels && labels["after_fill2"] == n + 12 && "after_fill3" in labels && labels["after_fill3"] == n + 16
    && "fill_pt" in labels && labels["fill_pt"] == fi
  }

  lemma CallsLoaded(code: seq<Word>, resolved: seq<Word>, labels: map<string, nat>, fs: seq<Fixup>, loadAddr: nat, mem: Ram8, n: nat, fi: nat)
    requires Loaded(code, resolved, labels, fs, loadAddr, mem) && Stands(code, fs, n, CallsOps()) && BackLabels(labels, n, fi) && fi <= |code|
    ensures var c, f := loadAddr + 8 * n, loadAddr + 8 * fi;
      && Boot.FillCall(mem, c, 0, 7, f) && Boot.FillCall(mem, c + 32, 0x20_0000, 8, f)
      && Boot.FillCall(mem, c + 64, 0x40_0000, 9, f) && Boot.FillCall(mem, c + 96, 0x60_0000, 10, f)
  {
    hide Loaded, Stands, CallOps, CallsOps, Boot.FillCall;
    CallsStand(code, fs, n);
    CallLoaded(code, resolved, labels, fs, loadAddr, mem, n, fi, 0, 7, "after_fill0");
    CallLoaded(code, resolved, labels, fs, loadAddr, mem, n + 4, fi, 0x20_0000, 8, "after_fill1");
    CallLoaded(code, resolved, labels, fs, loadAddr, mem, n + 8, fi, 0x40_0000, 9, "after_fill2");
    CallLoaded(code, resolved, labels, fs, loadAddr, mem, n + 12, fi, 0x60_0000, 10, "after_fill3");
  }

  lemma LinksLoaded(code: seq<Word>, resolved: seq<Word>, labels: map<string, nat>, fs: seq<Fixup>, loadAddr: nat, mem: Ram8, n: nat)
    requires Loaded(code, resolved, labels, fs, loadAddr, mem) && Stands(code, fs, n, LinksOps())
    ensures var c := loadAddr + 8 * n;
      && Boot.Link(mem, c, 5, 4, 0) && Boot.Link(mem, c + 24, 6, 5, 0) && Boot.Link(mem, c + 48, 7, 6, 0)
      && Boot.Link(mem, c + 72, 8, 6, 8) && Boot.Link(mem, c + 96, 9, 6, 16) && Boot.Link(mem, c + 120, 10, 6, 24)
  {
    hide *;
    LinksStand(code, fs, n);
    LinkLoaded(code, resolved, labels, fs, loadAddr, mem, n, 5, 4, 0);
    LinkLoaded(code, resolved, labels, fs, loadAddr, mem, n + 3, 6, 5, 0);
    LinkLoaded(code, resolved, labels, fs, loadAddr, mem, n + 6, 7, 6, 0);
    LinkLoaded(code, resolved, labels, fs, loadAddr, mem, n + 9, 8, 6, 8);
    LinkLoaded(code, resolved, labels, fs, loadAddr, mem, n + 12, 9, 6, 16);
    LinkLoaded(code, resolved, labels, fs, loadAddr, mem, n + 15, 10, 6, 24);
  }

  lemma EndsLoaded(code: seq<Word>, resolved: seq<Word>, labels: map<string, nat>, fs: seq<Fixup>, loadAddr: nat, mem: Ram8, n: nat, e: nat)
    requires Loaded(code, resolved, labels, fs, loadAddr, mem) && Stands(code, fs, n, MoveOps()) && Stands(code, fs, e, EnableOps())
    ensures Boot.Moves(mem, loadAddr + 8 * n) && Boot.Enable(mem, loadAddr + 8 * e)
  {
    hide WordOf, Loaded, Stands;
    var c := seq(7, k requires 0 <= k < 7 => MoveOps()[k].ins);
    Listed(code, resolved, labels, fs, loadAddr, mem, n, MoveOps(), c);
    MovesListed(mem, loadAddr + 8 * n, c);
    Listed(code, resolved, labels, fs, loadAddr, mem, e, EnableOps(),
           [Ins(ADD, 1, 4, 0, 0), Ins(WRCSR, 0, 1, 0, CSR_PTBR), Ins(LI, 1, 0, 0, 1), Ins(WRCSR, 0, 1, 0, CSR_PMODE)]);
    EnableListed(mem, loadAddr + 8 * e);
  }

  lemma BootStands(code: seq<Word>, fs: seq<Fixup>, n: nat)
    requires Stands(code, fs, n, BootOps())
    ensures Stands(code, fs, n, MoveOps()) && Stands(code, fs, n + 7, CallsOps())
    ensures Stands(code, fs, n + 23, LinksOps()) && Stands(code, fs, n + 41, EnableOps())
  {
    hide Stands, MoveOps, CallsOps, LinksOps, EnableOps, OpsOk;
    Split(code, fs, n, MoveOps() + CallsOps() + LinksOps(), EnableOps());
    Split(code, fs, n, MoveOps() + CallsOps(), LinksOps());
    Split(code, fs, n, MoveOps(), CallsOps());
  }

  /** Resolved and loaded, boot code and fill_pt are in memory as BootTables executes them. */
  lemma BootLoaded(code: seq<Word>, resolved: seq<Word>, labels: map<string, nat>, fs: seq<Fixup>, loadAddr: nat, mem: Ram8, n: nat, fi: nat)
    requires Loaded(code, resolved, labels, fs, loadAddr, mem) && Stands(code, fs, n, BootOps()) && BackLabels(labels, n + 7, fi)
    requires Stands(code, fs, fi, FillOps()) && "fill_loop" in labels && labels["fill_loop"] == fi + 2
    ensures Boot.BootCode(mem, loadAddr + 8 * n, loadAddr + 8 * fi)
  {
    hide *;
    StandsFits(code, fs, fi, FillOps());
    FillPtLoaded(code, resolved, labels, fs, loadAddr, mem, fi);
    BootStands(code, fs, n);
    CallsLoaded(code, resolved, labels, fs, loadAddr, mem, n + 7, fi);
    LinksLoaded(code, resolved, labels, fs, loadAddr, mem, n + 23);
    EndsLoaded(code, resolved, labels, fs, loadAddr, mem, n, n + 41);
    BootWhole(mem, loadAddr, n, loadAddr + 8 * fi);
  }

  /** Word addresses as offsets from the start. */
  lemma BootWhole(mem: Ram8, base: nat, n: nat, f: nat)
    requires Boot.Moves(mem, base + 8 * n) && Boot.Enable(mem, base + 8 * (n + 41)) && Fill.CodeAt(mem, f)
    requires var c := base + 8 * (n + 7);
      && Boot.FillCall(mem, c, 0, 7, f) && Boot.FillCall(mem, c + 32, 0x20_0000, 8, f)
      && Boot.FillCall(mem, c + 64, 0x40_0000, 9, f) && Boot.FillCall(mem, c + 96, 0x60_0000, 10, f)
    requires var c := base + 8 * (n + 23);
      && Boot.Link(mem, c, 5, 4, 0) && Boot.Link(mem, c + 24, 6, 5, 0) && Boot.Link(mem, c + 48, 7, 6, 0)
      && Boot.Link(mem, c + 72, 8, 6, 8) && Boot.Link(mem, c + 96, 9, 6, 16) && Boot.Link(mem, c + 120, 10, 6, 24)
    ensures Boot.BootCode(mem, base + 8 * n, f)
  {
    hide Boot.FillCall, Boot.Link, Boot.Moves, Boot.Enable, Fill.CodeAt, At;
    var s := base + 8 * n;
    assert base + 8 * (n + 7) == s + 56 && base + 8 * (n + 23) == s + 184 && base + 8 * (n + 41) == s + 328;
  }

  // ---- alloc_page and free_page -------------------------------------------------------------------

  function PopOps(): (ops: seq<Op>)
    ensures |ops| == 5 && OpsOk(ops)
  {
    [Plain(Ins(LOAD64, 2, 0, 0, Pool.FREE_HEAD)), Needs(ToBeq, 2, 0, "alloc_bump"),
     Plain(Ins(LOAD64, 3, 2, 0, 0)), Plain(Ins(STORE64, 0, 0, 3, Pool.FREE_HEAD)), Plain(Ins(JMPR, 0, 15, 0, 0))]
  }

  /** From the list ... */
  method EmitPop(a: Asm)
    requires a.Valid()
    modifies a
    ensures a.Valid() && a.code == old(a.code) + OpWords(PopOps()) && a.labels == old(a.labels)["alloc_page" := |old(a.code)|]
    ensures a.unresolved == old(a.unresolved) + [Fixup(|old(a.code)| + 1, "alloc_bump", ToBeq, 2, 0)]
  {
    hide WordOf, PendingWord, Asm.Valid;
    a.Label("alloc_page");
    a.Emit(W(LOAD64, 2, 0, 0, Pool.FREE_HEAD));
    a.Beq(2, 0, "alloc_bump");
    a.Emit(W(LOAD64, 3, 2, 0, 0));
    a.Emit(W(STORE64, 0, 0, 3, Pool.FREE_HEAD));
    a.Emit(W(JMPR, 0, 15, 0, 0));
    assert a.code == old(a.code) + OpWords(PopOps());
  }

  function BumpOps(): (ops: seq<Op>)
    ensures |ops| == 4 && OpsOk(ops)
  {
    [Plain(Ins(LOAD64, 2, 0, 0, Pool.NEXT_PAGE)), Plain(Ins(ADDI, 3, 2, 0, 0x1000)),
     Plain(Ins(STORE64, 0, 0, 3, Pool.NEXT_PAGE)), Plain(Ins(JMPR, 0, 15, 0, 0))]
  }

  /** ... or behind the last page. */
  method EmitBump(a: Asm)
    requires a.Valid()
    modifies a
    ensures a.Valid() && a.code == old(a.code) + OpWords(BumpOps()) && a.labels == old(a.labels)["alloc_bump" := |old(a.code)|]
    ensures a.unresolved == old(a.unresolved)
  {
    hide WordOf, PendingWord, Asm.Valid;
    a.Label("alloc_bump");
    a.Emit(W(LOAD64, 2, 0, 0, Pool.NEXT_PAGE));
    a.Emit(W(ADDI, 3, 2, 0, 0x1000));
    a.Emit(W(STORE64, 0, 0, 3, Pool.NEXT_PAGE));
    a.Emit(W(JMPR, 0, 15, 0, 0));
    assert a.code == old(a.code) + OpWords(BumpOps());
  }

  function AllocOps(): (ops: seq<Op>)
    ensures |ops| == 9 && OpsOk(ops)
  {
    PopOps() + BumpOps()
  }

  /** The part of build_common that emits alloc_page. */
  method EmitAlloc(a: Asm)
    requires a.Valid()
    modifies a
    ensures a.Valid() && a.code == old(a.code) + OpWords(AllocOps())
    ensures a.labels == old(a.labels)["alloc_page" := |old(a.code)|]["alloc_bump" := |old(a.code)| + 5]
    ensures a.unresolved == old(a.unresolved) + [Fixup(|old(a.code)| + 1, "alloc_bump", ToBeq, 2, 0)]
  {
    hide OpWords, PopOps, BumpOps, OpsOk, Asm.Valid;
    EmitPop(a);
    ghost var code1 := a.code;
    EmitBump(a);
    EmittedThen(old(a.code), PopOps(), BumpOps(), code1, a.code);
  }

  function FreeOps(): (ops: seq<Op>)
    ensures |ops| == 4 && OpsOk(ops)
  {
    [Plain(Ins(LOAD64, 3, 0, 0, Pool.FREE_HEAD)), Plain(Ins(STORE64, 0, 2, 3, 0)),
     Plain(Ins(STORE64, 0, 0, 2, Pool.FREE_HEAD)), Plain(Ins(JMPR, 0, 15, 0, 0))]
  }

  /** The part that emits free_page. */
  method EmitFree(a: Asm)
    requires a.Valid()
    modifies a
    ensures a.Valid() && a.code == old(a.code) + OpWords(FreeOps())
    ensures a.labels == old(a.labels)["free_page" := |old(a.code)|] && a.unresolved == old(a.unresolved)
  {
    hide WordOf, PendingWord, Asm.Valid;
    a.Label("free_page");
    a.Emit(W(LOAD64, 3, 0, 0, Pool.FREE_HEAD));
    a.Emit(W(STORE64, 0, 2, 3, 0));
    a.Emit(W(STORE64, 0, 0, 2, Pool.FREE_HEAD));
    a.Emit(W(JMPR, 0, 15, 0, 0));
    assert a.code == old(a.code) + OpWords(FreeOps());
  }

  /** Resolved and loaded, both are in memory as PagePool executes them. */
  lemma PoolLoaded(code: seq<Word>, resolved: seq<Word>, labels: map<string, nat>, fs: seq<Fixup>, loadAddr: nat, mem: Ram8, n: nat, m: nat)
    requires Loaded(code, resolved, labels, fs, loadAddr, mem) && Stands(code, fs, n, AllocOps()) && Stands(code, fs, m, FreeOps())
    requires "alloc_bump" in labels && labels["alloc_bump"] == n + 5
    ensures Listing(mem, loadAddr + 8 * n, Pool.AllocCode()) && Listing(mem, loadAddr + 8 * m, Pool.FreeCode())
  {
    hide WordOf, Loaded, Stands, Listing;
    Listed(code, resolved, labels, fs, loadAddr, mem, n, AllocOps(), Pool.AllocCode());
    Listed(code, resolved, labels, fs, loadAddr, mem, m, FreeOps(), Pool.FreeCode());
  }

  // ---- pf_handler -------------------------------------------------------------------------------------

  function CheckOps(): (ops: seq<Op>)
    ensures |ops| == 6 && OpsOk(ops)
  {
    [Plain(Ins(LI, 1, 0, 0, 1)), Needs(ToBne, 10, 1, "pf_print"),
     Plain(Ins(LI, 3, 0, 0, Fault.REGION_MASK)), Plain(Ins(AND, 1, 11, 3, 0)), Plain(Ins(LI, 3, 0, 0, IdentityMap.USER_VA)),
     Needs(ToBne, 1, 3, "pf_print")]
  }

  method EmitChecks(a: Asm)
    requires a.Valid()
    modifies a
    ensures a.Valid() && a.code == old(a.code) + OpWords(CheckOps()) && a.labels == old(a.labels)["pf_handler" := |old(a.code)|]
    ensures a.unresolved == old(a.unresolved) + CheckFixups(|old(a.code)|)
  {
    hide WordOf, PendingWord, Asm.Valid;
    a.Label("pf_handler");
    a.Emit(W(LI, 1, 0, 0, 1));
    a.Bne(10, 1, "pf_print");
    a.Emit(W(LI, 3, 0, 0, Fault.REGION_MASK));
    a.Emit(W(AND, 1, 11, 3, 0));
    a.Emit(W(LI, 3, 0, 0, IdentityMap.USER_VA));
    a.Bne(1, 3, "pf_print");
    assert a.code == old(a.code) + OpWords(CheckOps());
  }

  function CheckFixups(n: nat): seq<Fixup> { [Fixup(n + 1, "pf_print", ToBne, 10, 1), Fixup(n + 5, "pf_print", ToBne, 1, 3)] }
  function LoopFixups(n: nat): seq<Fixup> { [Fixup(n, "pf_gotidx", ToBeq, 1, 0), Fixup(n + 3, "pf_idxloop", ToJmp, 0, 0)] }
  function MapFixups(n: nat): seq<Fixup> { [Fixup(n + 1, "pf_alloc_ret", ToLi, 15, 0), Fixup(n + 2, "alloc_page", ToJmp, 0, 0)] }

  function SetUpOps(): (ops: seq<Op>)
    ensures |ops| == 5 && OpsOk(ops)
  {
    [Plain(Ins(LI, 3, 0, 0, 0x1F_F000)), Plain(Ins(AND, 1, 11, 3, 0)), Plain(Ins(LOAD64, 15, 0, 0, Index.CUR_SLOT)),
     Plain(Ins(LOAD64, 15, 15, 0, Index.SLOT_PT4)), Plain(Ins(ADD, 3, 15, 0, 0))]
  }

  /** Up to the loop over the page index. */
  method EmitSetUp(a: Asm)
    requires a.Valid()
    modifies a
    ensures a.Valid() && a.code == old(a.code) + OpWords(SetUpOps()) && a.labels == old(a.labels)
    ensures a.unresolved == old(a.unresolved)
  {
    hide WordOf, PendingWord, Asm.Valid;
    a.Emit(W(LI, 3, 0, 0, 0x1F_F000));
    a.Emit(W(AND, 1, 11, 3, 0));
    a.Emit(W(LOAD64, 15, 0, 0, Index.CUR_SLOT));
    a.Emit(W(LOAD64, 15, 15, 0, Index.SLOT_PT4));
    a.Emit(W(ADD, 3, 15, 0, 0));
    assert a.code == old(a.code) + OpWords(SetUpOps());
  }

  function LoopOps(): (ops: seq<Op>)
    ensures |ops| == 4 && OpsOk(ops)
  {
    [Needs(ToBeq, 1, 0, "pf_gotidx"), Plain(Ins(ADDI, 1, 1, 0, -0x1000)), Plain(Ins(ADDI, 3, 3, 0, 8)), Needs(ToJmp, 0, 0, "pf_idxloop")]
  }

  /** The loop. */
  method EmitLoop(a: Asm)
    requires a.Valid()
    modifies a
    ensures a.Valid() && a.code == old(a.code) + OpWords(LoopOps()) && a.labels == old(a.labels)["pf_idxloop" := |old(a.code)|]
    ensures a.unresolved == old(a.unresolved) + LoopFixups(|old(a.code)|)
  {
    hide WordOf, PendingWord, Asm.Valid;
    a.Label("pf_idxloop");
    a.Beq(1, 0, "pf_gotidx");
    a.Emit(W(ADDI, 1, 1, 0, -0x1000));
    a.Emit(W(ADDI, 3, 3, 0, 8));
    a.Jmp("pf_idxloop");
    assert a.code == old(a.code) + OpWords(LoopOps());
  }

  function IndexOps(): (ops: seq<Op>)
    ensures |ops| == 9 && OpsOk(ops)
  {
    SetUpOps() + LoopOps()
  }

  /** Both. */
  method EmitIndex(a: Asm)
    requires a.Valid()
    modifies a
    ensures a.Valid() && a.code == old(a.code) + OpWords(IndexOps())
    ensures a.labels == old(a.labels)["pf_idxloop" := |old(a.code)| + 5] && a.unresolved == old(a.unresolved) + LoopFixups(|old(a.code)| + 5)
  {
    hide OpWords, SetUpOps, LoopOps, OpsOk, Asm.Valid;
    EmitSetUp(a);
    ghost var code1 := a.code;
    EmitLoop(a);
    EmittedThen(old(a.code), SetUpOps(), LoopOps(), code1, a.code);
  }

  function TakeOps(): (ops: seq<Op>)
    ensures |ops| == 3 && OpsOk(ops)
  {
    [Plain(Ins(STORE64, 0, 0, 3, Fault.PTE_SCRATCH)), Needs(ToLi, 15, 0, "pf_alloc_ret"), Needs(ToJmp, 0, 0, "alloc_page")]
  }

  /** A page is taken ... */
  method EmitTake(a: Asm)
    requires a.Valid()
    modifies a
    ensures a.Valid() && a.code == old(a.code) + OpWords(TakeOps()) && a.labels == old(a.labels)["pf_gotidx" := |old(a.code)|]
    ensures a.unresolved == old(a.unresolved) + MapFixups(|old(a.code)|)
  {
    hide WordOf, PendingWord, Asm.Valid;
    a.Label("pf_gotidx");
    a.Emit(W(STORE64, 0, 0, 3, Fault.PTE_SCRATCH));
    a.Li(15, "pf_alloc_ret");
    a.Jmp("alloc_page");
    assert a.code == old(a.code) + OpWords(TakeOps());
  }

  function EnterOps(): (ops: seq<Op>)
    ensures |ops| == 6 && OpsOk(ops)
  {
    [Plain(Ins(LOAD64, 3, 0, 0, Fault.PTE_SCRATCH)), Plain(Ins(LI, 1, 0, 0, 7)), Plain(Ins(OR, 2, 2, 1, 0)),
     Plain(Ins(STORE64, 0, 3, 2, 0)), Plain(Ins(SFENCE, 0, 0, 0, 0)), Plain(Ins(ERET, 0, 0, 0, 0))]
  }

  /** ... and mapped. */
  method EmitEnter(a: Asm)
    requires a.Valid()
    modifies a
    ensures a.Valid() && a.code == old(a.code) + OpWords(EnterOps()) && a.labels == old(a.labels)["pf_alloc_ret" := |old(a.code)|]
    ensures a.unresolved == old(a.unresolved)
  {
    hide WordOf, PendingWord, Asm.Valid;
    a.Label("pf_alloc_ret");
    a.Emit(W(LOAD64, 3, 0, 0, Fault.PTE_SCRATCH));
    a.Emit(W(LI, 1, 0, 0, 7));
    a.Emit(W(OR, 2, 2, 1, 0));
    a.Emit(W(STORE64, 0, 3, 2, 0));
    a.Emit(W(SFENCE, 0, 0, 0, 0));
    a.Emit(W(ERET, 0, 0, 0, 0));
    assert a.code == old(a.code) + OpWords(EnterOps());
  }

  function MapOps(): (ops: seq<Op>)
    ensures |ops| == 9 && OpsOk(ops)
  {
    TakeOps() + EnterOps()
  }

  /** Both. */
  method EmitMap(a: Asm)
    requires a.Valid()
    modifies a
    ensures a.Valid() && a.code == old(a.code) + OpWords(MapOps())
    ensures a.labels == old(a.labels)["pf_gotidx" := |old(a.code)|]["pf_alloc_ret" := |old(a.code)| + 3]
    ensures a.unresolved == old(a.unresolved) + MapFixups(|old(a.code)|)
  {
    hide OpWords, TakeOps, EnterOps, OpsOk, Asm.Valid;
    EmitTake(a);
    ghost var code1 := a.code;
    EmitEnter(a);
    EmittedThen(old(a.code), TakeOps(), EnterOps(), code1, a.code);
  }

  function HandlerOps(): (ops: seq<Op>)
    ensures |ops| == 24 && OpsOk(ops)
  {
    CheckOps() + IndexOps() + MapOps()
  }

  /** The part of build_common that emits pf_handler. */
  method EmitPfHandler(a: Asm)
    requires a.Valid()
    modifies a
    ensures a.Valid() && a.code == old(a.code) + OpWords(HandlerOps())
    ensures var n := |old(a.code)|;
      && a.labels == old(a.labels)["pf_handler" := n]["pf_idxloop" := n + 11]["pf_gotidx" := n + 15]["pf_alloc_ret" := n + 18]
      && a.unresolved == old(a.unresolved) + CheckFixups(n) + LoopFixups(n + 11) + MapFixups(n + 15)
  {
    hide OpWords, CheckOps, IndexOps, MapOps, CheckFixups, LoopFixups, MapFixups, OpsOk, Asm.Valid;
    EmitChecks(a);
    ghost var code1 := a.code;
    EmitIndex(a);
    ghost var code2 := a.code;
    EmittedThen(old(a.code), CheckOps(), IndexOps(), code1, code2);
    EmitMap(a);
    EmittedThen(old(a.code), CheckOps() + IndexOps(), MapOps(), code2, a.code);
  }

  /** The handler's labels, with pf_print and alloc_page wherever they are. */
  ghost predicate HandlerLabels(labels: map<string, nat>, n: nat, qi: nat, ai: nat) {
    && "pf_print" in labels && labels["pf_print"] == qi && "alloc_page" in labels && labels["alloc_page"] == ai
    && "pf_idxloop" in labels && labels["pf_idxloop"] == n + 11 && "pf_gotidx" in labels && labels["pf_gotidx"] == n + 15
    && "pf_alloc_ret" in labels && labels["pf_alloc_ret"] == n + 18
  }

  /** Resolved and loaded, the handler is in memory as PageFault executes it. */
  lemma HandlerLoaded(code: seq<Word>, resolved: seq<Word>, labels: map<string, nat>, fs: seq<Fixup>, loadAddr: nat, mem: Ram8,
                      n: nat, qi: nat, ai: nat)
    requires Loaded(code, resolved, labels, fs, loadAddr, mem) && Stands(code, fs, n, HandlerOps())
    requires HandlerLabels(labels, n, qi, ai) && qi <= |code| && ai <= |code|
    ensures Listing(mem, loadAddr + 8 * n, Fault.HandlerCode(loadAddr + 8 * n, loadAddr + 8 * qi, loadAddr + 8 * ai))
  {
    hide WordOf, Loaded, Stands, HandlerLabels, Means, CheckOps, IndexOps, MapOps, Fault.CheckCode, Index.IndexCode, Fault.MapCode, At, OpsOk;
    var h, q, al := loadAddr + 8 * n, loadAddr + 8 * qi, loadAddr + 8 * ai;
    LoadedFits(code, resolved, labels, fs, loadAddr, mem);
    StandsFits(code, fs, n, HandlerOps());
    Split(code, fs, n, CheckOps() + IndexOps(), MapOps());
    Split(code, fs, n, CheckOps(), IndexOps());
    ChecksMean(labels, loadAddr, n, qi, ai, |code|);
    IndexMeans(labels, loadAddr, n, qi, ai);
    MapMeans(labels, loadAddr, n, qi, ai, |code|);
    var c, i, p := Fault.CheckCode(h, q), Index.IndexCode(), Fault.MapCode(h + 120, al);
    Listed(code, resolved, labels, fs, loadAddr, mem, n, CheckOps(), c);
    Listed(code, resolved, labels, fs, loadAddr, mem, n + 6, IndexOps(), i);
    Listed(code, resolved, labels, fs, loadAddr, mem, n + 15, MapOps(), p);
    Join(mem, h, c, i);
    Join(mem, h, c + i, p);
  }

  lemma Join(mem: Ram8, p: nat, a: seq<Ins>, b: seq<Ins>)
    requires Listing(mem, p, a) && Listing(mem, p + 8 * |a|, b)
    ensures Listing(mem, p, a + b)
  {
    hide At;
    forall k: nat | k < |a + b| ensures At(mem, p + 8 * k, (a + b)[k]) {
      if k >= |a| {
        assert At(mem, p + 8 * |a| + 8 * (k - |a|), b[k - |a|]);
      }
    }
  }

  lemma ChecksMean(labels: map<string, nat>, loadAddr: nat, n: nat, qi: nat, ai: nat, len: nat)
    requires HandlerLabels(labels, n, qi, ai) && n + 24 <= len && qi <= len && loadAddr + 8 * len <= RAM_SIZE
    ensures var c := Fault.CheckCode(loadAddr + 8 * n, loadAddr + 8 * qi);
      forall k: nat | k < 6 :: Means(CheckOps()[k], labels, loadAddr, n + k, c[k])
  {
    var c, ops := Fault.CheckCode(loadAddr + 8 * n, loadAddr + 8 * qi), CheckOps();
    Apart8Words(loadAddr, qi, n - 2);
    Apart8Words(loadAddr, qi, n + 2);
    assert Means(ops[1], labels, loadAddr, n + 1, c[1]) && Means(ops[5], labels, loadAddr, n + 5, c[5]);
  }

  lemma IndexMeans(labels: map<string, nat>, loadAddr: nat, n: nat, qi: nat, ai: nat)
    requires HandlerLabels(labels, n, qi, ai)
    ensures forall k: nat | k < 9 :: Means(IndexOps()[k], labels, loadAddr, n + 6 + k, Index.IndexCode()[k])
  {
    var c, ops := Index.IndexCode(), IndexOps();
    assert Means(ops[5], labels, loadAddr, n + 11, c[5]) && Means(ops[8], labels, loadAddr, n + 14, c[8]);
  }

  lemma MapMeans(labels: map<string, nat>, loadAddr: nat, n: nat, qi: nat, ai: nat, len: nat)
    requires HandlerLabels(labels, n, qi, ai) && n + 24 <= len && ai <= len && loadAddr + 8 * len <= RAM_SIZE
    ensures var c := Fault.MapCode(loadAddr + 8 * n + 120, loadAddr + 8 * ai);
      forall k: nat | k < 9 :: Means(MapOps()[k], labels, loadAddr, n + 15 + k, c[k])
  {
    var c, ops := Fault.MapCode(loadAddr + 8 * n + 120, loadAddr + 8 * ai), MapOps();
    Apart8Words(loadAddr, ai, n + 14);
    assert Means(ops[1], labels, loadAddr, n + 16, c[1]) && Means(ops[2], labels, loadAddr, n + 17, c[2]);
  }

  // ---- build_tables -----------------------------------------------------------------------------

  lemma BuildListingOk()
    ensures OpsOk(PlainOps(Build.UpperCode())) && OpsOk(PlainOps(Build.CopyCode())) && OpsOk(PlainOps(Build.LowerCode()))
    ensures OpsOk(PlainOps(Build.BuildCode()))
  {}

  method EmitUpper(a: Asm)
    requires a.Valid()
    modifies a
    ensures a.Valid() && a.labels == old(a.labels) && a.unresolved == old(a.unresolved)
    ensures OpsOk(PlainOps(Build.UpperCode())) && a.code == old(a.code) + OpWords(PlainOps(Build.UpperCode()))
  {
    hide WordOf, Asm.Valid;
    BuildListingOk();
    a.Emit(W(LOAD64, 1, 0, 0, Build.TBL_PML4));
    a.Emit(W(LOAD64, 2, 0, 0, Build.TBL_PDPT));
    a.Emit(W(LI, 3, 0, 0, 3));
    a.Emit(W(OR, 2, 2, 3, 0));
    a.Emit(W(STORE64, 0, 1, 2, 0));
    a.Emit(W(LOAD64, 1, 0, 0, Build.TBL_PDPT));
    a.Emit(W(LOAD64, 2, 0, 0, Build.TBL_PD));
    a.Emit(W(OR, 2, 2, 3, 0));
    a.Emit(W(STORE64, 0, 1, 2, 0));
    a.Emit(W(LOAD64, 1, 0, 0, Build.KERN_PD));
    a.Emit(W(LOAD64, 2, 0, 0, Build.TBL_PD));
    assert a.code == old(a.code) + OpWords(PlainOps(Build.UpperCode()));
  }

  /** The loop over the four shared entries. */
  method EmitCopies(a: Asm)
    requires a.Valid()
    modifies a
    ensures a.Valid() && a.labels == old(a.labels) && a.unresolved == old(a.unresolved)
    ensures OpsOk(PlainOps(Build.CopyCode())) && a.code == old(a.code) + OpWords(PlainOps(Build.CopyCode()))
  {
    hide WordOf, Asm.Valid;
    BuildListingOk();
    ghost var words := OpWords(PlainOps(Build.CopyCode()));
    var i := 0;
    while i < 4
      invariant 0 <= i <= 4 && a.Valid() && a.labels == old(a.labels) && a.unresolved == old(a.unresolved)
      invariant a.code == old(a.code) + words[..2 * i]
    {
      Build.CopyWords(i);
      a.Emit(W(LOAD64, 3, 1, 0, i * 8));
      a.Emit(W(STORE64, 0, 2, 3, i * 8));
      assert words[..2 * i + 2] == words[..2 * i] + [words[2 * i], words[2 * i + 1]];
      i := i + 1;
    }
    assert words[..8] == words;
  }

  method EmitLower(a: Asm)
    requires a.Valid()
    modifies a
    ensures a.Valid() && a.labels == old(a.labels) && a.unresolved == old(a.unresolved)
    ensures OpsOk(PlainOps(Build.LowerCode())) && a.code == old(a.code) + OpWords(PlainOps(Build.LowerCode()))
  {
    hide WordOf, Asm.Valid;
    BuildListingOk();
    a.Emit(W(LOAD64, 2, 0, 0, Build.TBL_PT4));
    a.Emit(W(LI, 3, 0, 0, 3));
    a.Emit(W(OR, 3, 2, 3, 0));
    a.Emit(W(LOAD64, 1, 0, 0, Build.TBL_PD));
    a.Emit(W(STORE64, 0, 1, 3, 4 * 8));
    a.Emit(W(LOAD64, 1, 0, 0, Build.TBL_UPAGE));
    a.Emit(W(LI, 3, 0, 0, 7));
    a.Emit(W(OR, 3, 1, 3, 0));
    a.Emit(W(LOAD64, 2, 0, 0, Build.TBL_PT4));
    a.Emit(W(STORE64, 0, 2, 3, 0));
    a.Emit(W(JMPR, 0, 15, 0, 0));
    assert a.code == old(a.code) + OpWords(PlainOps(Build.LowerCode()));
  }

  /** The part of build_common that emits build_tables. */
  method EmitBuildTables(a: Asm)
    requires a.Valid()
    modifies a
    ensures a.Valid() && a.unresolved == old(a.unresolved) && a.labels == old(a.labels)["build_tables" := |old(a.code)|]
    ensures OpsOk(PlainOps(Build.BuildCode())) && a.code == old(a.code) + OpWords(PlainOps(Build.BuildCode()))
  {
    hide WordOf, Build.UpperCode, Build.CopyCode, Build.LowerCode, OpWords, OpsOk, Asm.Valid;
    var u, c, l := Build.UpperCode(), Build.CopyCode(), Build.LowerCode();
    a.Label("build_tables");
    EmitUpper(a);
    ghost var code1 := a.code;
    EmitCopies(a);
    ghost var code2 := a.code;
    EmittedThen(old(a.code), PlainOps(u), PlainOps(c), code1, code2);
    EmitLower(a);
    EmittedThen(old(a.code), PlainOps(u) + PlainOps(c), PlainOps(l), code2, a.code);
    assert PlainOps(Build.BuildCode()) == PlainOps(u) + PlainOps(c) + PlainOps(l);
  }

  /** Resolved and loaded, it is in memory as BuildTables executes it. */
  lemma BuildTablesLoaded(code: seq<Word>, resolved: seq<Word>, labels: map<string, nat>, fs: seq<Fixup>, loadAddr: nat, mem: Ram8, n: nat)
    requires Loaded(code, resolved, labels, fs, loadAddr, mem) && Stands(code, fs, n, PlainOps(Build.BuildCode()))
    ensures Listing(mem, loadAddr + 8 * n, Build.BuildCode())
  {
    hide WordOf, Build.UpperCode, Build.CopyCode, Build.LowerCode, Loaded, Awaits;
    BuildListingOk();
    var c := Build.BuildCode();
    forall k: nat | k < 30 ensures Means(PlainOps(c)[k], labels, loadAddr, n + k, c[k]) {
      assert OpOk(PlainOps(c)[k]);
    }
    Listed(code, resolved, labels, fs, loadAddr, mem, n, PlainOps(c), c);
  }
}
