/** The saved machine context of a thread stopped by SIGTRAP on linux/ppc64le,
    its accessors, and the register marshaler of the debug-call protocol.

    The register file follows the kernel's sigcontext: `gp_regs` holds 48 words
    whose first 32 are r0..r31 and whose slots 32 and 36 are nip (the program
    counter) and link; `fp_regs` holds 33 words, f0..f31 and fpscr. `regs()`
    and `cregs()` name the same storage, so pc, sp (r1), link, the context
    register (r11) and the protocol status (r20) are all slots of `gp_regs`.
    Floating-point registers are held as their 64-bit patterns. */
module Sigctxt {
  import opened Words
  import opened Memory

  const NGREG := 48
  const NFPREG := 33
  const REG_SP := 1
  const REG_CONTEXT := 11
  const REG_STATUS := 20
  const REG_NIP := 32
  const REG_LINK := 36

  /** `tw 31,0,0`, the trap instruction of the debugCallV2 trampoline. */
  const TRAP_INSN: u32 := 0x7fe00008

  /** Integer arguments travel in r3..r10, floating-point ones in f1..f12. */
  const INT_REG_ARGS := 8
  const FIRST_INT_REG := 3
  const FLOAT_REG_ARGS := 12
  const FIRST_FLOAT_REG := 1

  /** A value copy of the register file: what `*ctxt.cregs()` reads and what
      the handler keeps as `savedRegs`. */
  datatype RegFile = RegFile(gp: seq<u64>, fp: seq<u64>)
  {
    predicate WellFormed()
    {
      |gp| == NGREG && |fp| == NFPREG
    }

    function Pc(): u64
      requires WellFormed()
    {
      gp[REG_NIP]
    }

    function Sp(): u64
      requires WellFormed()
    {
      gp[REG_SP]
    }

    function Link(): u64
      requires WellFormed()
    {
      gp[REG_LINK]
    }

    /** `r20()`, where the trampoline leaves its status word. */
    function Status(): u64
      requires WellFormed()
    {
      gp[REG_STATUS]
    }
  }

  /** The live signal context (`*sigctxt`), updated in place by the handlers. */
  class SigCtxt {
    var gpRegs: seq<u64>
    var fpRegs: seq<u64>

    predicate Valid()
      reads this
    {
      |gpRegs| == NGREG && |fpRegs| == NFPREG
    }

    function Snapshot(): (r: RegFile)
      reads this
      ensures Valid() <==> r.WellFormed()
    {
      RegFile(gpRegs, fpRegs)
    }

    constructor (r: RegFile)
      requires r.WellFormed()
      ensures Valid() && Snapshot() == r
    {
      gpRegs, fpRegs := r.gp, r.fp;
    }

    function Pc(): u64
      reads this
      requires Valid()
    {
      gpRegs[REG_NIP]
    }

    function Sp(): u64
      reads this
      requires Valid()
    {
      gpRegs[REG_SP]
    }

    function Link(): u64
      reads this
      requires Valid()
    {
      gpRegs[REG_LINK]
    }

    /** `set_pc`: only nip changes. */
    method SetPc(x: u64)
      requires Valid()
      modifies this
      ensures Valid() && gpRegs == old(gpRegs)[REG_NIP := x] && fpRegs == old(fpRegs)
    {
      gpRegs := gpRegs[REG_NIP := x];
    }

    /** `set_sp`: only r1 changes. */
    method SetSp(x: u64)
      requires Valid()
      modifies this
      ensures Valid() && gpRegs == old(gpRegs)[REG_SP := x] && fpRegs == old(fpRegs)
    {
      gpRegs := gpRegs[REG_SP := x];
    }

    /** `set_link`: only link changes. */
    method SetLink(x: u64)
      requires Valid()
      modifies this
      ensures Valid() && gpRegs == old(gpRegs)[REG_LINK := x] && fpRegs == old(fpRegs)
    {
      gpRegs := gpRegs[REG_LINK := x];
    }

    /** `*ctxt.cregs() = r`: the whole register file is replaced. */
    method SetRegs(r: RegFile)
      requires r.WellFormed()
      modifies this
      ensures Valid() && Snapshot() == r
    {
      gpRegs, fpRegs := r.gp, r.fp;
    }
  }

  /** `sigctxtStatus`: the status word is r20 of the saved context. */
  function Status(ctxt: SigCtxt): (s: u64)
    reads ctxt
    requires ctxt.Valid()
    ensures s == ctxt.Snapshot().Status()
  {
    ctxt.gpRegs[REG_STATUS]
  }

  /** `sigctxtAtTrapInstruction`: the four bytes at pc are the little-endian
      encoding of the trap instruction 0x7fe00008. */
  function AtTrapInstruction(ctxt: SigCtxt, mem: AddressSpace): (r: bool)
    reads ctxt, mem
    requires ctxt.Valid()
    ensures r <==>
      ByteAt(mem.bytes, ctxt.Pc()) == 0x08 &&
      ByteAt(mem.bytes, Add64(ctxt.Pc(), 1)) == 0x00 &&
      ByteAt(mem.bytes, Add64(ctxt.Pc(), 2)) == 0xe0 &&
      ByteAt(mem.bytes, Add64(ctxt.Pc(), 3)) == 0x7f
  {
    Load32Bytes(mem.bytes, ctxt.Pc(), TRAP_INSN);
    Load32(mem.bytes, ctxt.Pc()) == TRAP_INSN
  }

  /** `sigctxtSetContextRegister`: writes r11 and nothing else. */
  method SetContextRegister(ctxt: SigCtxt, x: u64)
    requires ctxt.Valid()
    modifies ctxt
    ensures ctxt.Valid()
    ensures ctxt.gpRegs == old(ctxt.gpRegs)[REG_CONTEXT := x] && ctxt.fpRegs == old(ctxt.fpRegs)
  {
    ctxt.gpRegs := ctxt.gpRegs[REG_CONTEXT := x];
  }

  /** `abi.RegArgs`: the register-passed arguments and results of a call, with
      at least the slots the ppc64le windows use. */
  class RegArgs {
    var ints: seq<u64>
    var floats: seq<u64>

    predicate Valid()
      reads this
    {
      |ints| >= INT_REG_ARGS && |floats| >= FLOAT_REG_ARGS
    }

    constructor (ints: seq<u64>, floats: seq<u64>)
      requires |ints| >= INT_REG_ARGS && |floats| >= FLOAT_REG_ARGS
      ensures Valid() && this.ints == ints && this.floats == floats
    {
      this.ints, this.floats := ints, floats;
    }
  }

  predicate IsIntArgReg(j: int)
  {
    FIRST_INT_REG <= j < FIRST_INT_REG + INT_REG_ARGS
  }

  predicate IsFloatArgReg(j: int)
  {
    FIRST_FLOAT_REG <= j < FIRST_FLOAT_REG + FLOAT_REG_ARGS
  }

  /** The register file once the argument values are placed: register r(3+i)
      holds ints[i] for i < 8, f(1+i) holds floats[i] for i < 12, and every
      other slot keeps its value. */
  function WithRegArgs(r: RegFile, ints: seq<u64>, floats: seq<u64>): (r': RegFile)
    requires r.WellFormed() && |ints| >= INT_REG_ARGS && |floats| >= FLOAT_REG_ARGS
    ensures r'.WellFormed()
  {
    RegFile(
      seq(NGREG, j requires 0 <= j < NGREG =>
        if IsIntArgReg(j) then ints[j - FIRST_INT_REG] else r.gp[j]),
      seq(NFPREG, j requires 0 <= j < NFPREG =>
        if IsFloatArgReg(j) then floats[j - FIRST_FLOAT_REG] else r.fp[j]))
  }

  /** `ints` with its first 8 slots read from r3..r10. */
  function IntsFrom(ints: seq<u64>, r: RegFile): (ints': seq<u64>)
    requires r.WellFormed() && |ints| >= INT_REG_ARGS
    ensures |ints'| == |ints|
  {
    seq(|ints|, i requires 0 <= i < |ints| =>
      if i < INT_REG_ARGS then r.gp[i + FIRST_INT_REG] else ints[i])
  }

  /** `floats` with its first 12 slots read from f1..f12. */
  function FloatsFrom(floats: seq<u64>, r: RegFile): (floats': seq<u64>)
    requires r.WellFormed() && |floats| >= FLOAT_REG_ARGS
    ensures |floats'| == |floats|
  {
    seq(|floats|, i requires 0 <= i < |floats| =>
      if i < FLOAT_REG_ARGS then r.fp[i + FIRST_FLOAT_REG] else floats[i])
  }

  /** `storeRegArgs`: copies Ints[0..8) into r3..r10 and the bit patterns of
      Floats[0..12) into f1..f12. */
  method StoreRegArgs(dst: SigCtxt, src: RegArgs)
    requires dst.Valid() && src.Valid()
    modifies dst
    ensures dst.Valid()
    ensures dst.Snapshot() == WithRegArgs(old(dst.Snapshot()), src.ints, src.floats)
  {
    ghost var r0 := dst.Snapshot();
    for i := 0 to INT_REG_ARGS
      invariant dst.Valid() && dst.fpRegs == r0.fp
      invariant forall j :: 0 <= j < NGREG ==>
        dst.gpRegs[j] == if FIRST_INT_REG <= j < FIRST_INT_REG + i then src.ints[j - FIRST_INT_REG] else r0.gp[j]
    {
      dst.gpRegs := dst.gpRegs[i + FIRST_INT_REG := src.ints[i]];
    }
    for i := 0 to FLOAT_REG_ARGS
      invariant dst.Valid() && dst.gpRegs == WithRegArgs(r0, src.ints, src.floats).gp
      invariant forall j :: 0 <= j < NFPREG ==>
        dst.fpRegs[j] == if FIRST_FLOAT_REG <= j < FIRST_FLOAT_REG + i then src.floats[j - FIRST_FLOAT_REG] else r0.fp[j]
    {
      dst.fpRegs := dst.fpRegs[i + FIRST_FLOAT_REG := src.floats[i]];
    }
  }

  /** `loadRegArgs`: the mirror of StoreRegArgs. */
  method LoadRegArgs(dst: RegArgs, src: SigCtxt)
    requires dst.Valid() && src.Valid()
    modifies dst
    ensures dst.Valid()
    ensures dst.ints == IntsFrom(old(dst.ints), src.Snapshot())
    ensures dst.floats == FloatsFrom(old(dst.floats), src.Snapshot())
  {
    ghost var ints0, floats0 := dst.ints, dst.floats;
    for i := 0 to INT_REG_ARGS
      invariant |dst.ints| == |ints0| && dst.floats == floats0
      invariant forall k :: 0 <= k < |ints0| ==>
        dst.ints[k] == if k < i then src.gpRegs[k + FIRST_INT_REG] else ints0[k]
    {
      dst.ints := dst.ints[i := src.gpRegs[i + FIRST_INT_REG]];
    }
    for i := 0 to FLOAT_REG_ARGS
      invariant dst.ints == IntsFrom(ints0, src.Snapshot()) && |dst.floats| == |floats0|
      invariant forall k :: 0 <= k < |floats0| ==>
        dst.floats[k] == if k < i then src.fpRegs[k + FIRST_FLOAT_REG] else floats0[k]
    {
      dst.floats := dst.floats[i := src.fpRegs[i + FIRST_FLOAT_REG]];
    }
  }

  /** What StoreRegArgs writes: the argument windows hold the arguments and no
      other register changes. */
  lemma StoreRegArgsEffect(r: RegFile, ints: seq<u64>, floats: seq<u64>)
    requires r.WellFormed() && |ints| >= INT_REG_ARGS && |floats| >= FLOAT_REG_ARGS
    ensures forall i :: 0 <= i < INT_REG_ARGS ==> WithRegArgs(r, ints, floats).gp[FIRST_INT_REG + i] == ints[i]
    ensures forall i :: 0 <= i < FLOAT_REG_ARGS ==> WithRegArgs(r, ints, floats).fp[FIRST_FLOAT_REG + i] == floats[i]
    ensures forall j :: 0 <= j < NGREG && !IsIntArgReg(j) ==> WithRegArgs(r, ints, floats).gp[j] == r.gp[j]
    ensures forall j :: 0 <= j < NFPREG && !IsFloatArgReg(j) ==> WithRegArgs(r, ints, floats).fp[j] == r.fp[j]
  {
  }

  /** Round trip: loading the argument windows right after storing them gives
      back exactly the stored Ints[0..8) and Floats[0..12); the slots beyond the
      windows are those of the RegArgs loaded into. */
  lemma LoadAfterStore(r: RegFile, ints: seq<u64>, floats: seq<u64>, into: seq<u64>, intoF: seq<u64>)
    requires r.WellFormed() && |ints| >= INT_REG_ARGS && |floats| >= FLOAT_REG_ARGS
    requires |into| >= INT_REG_ARGS && |intoF| >= FLOAT_REG_ARGS
    ensures IntsFrom(into, WithRegArgs(r, ints, floats))[..INT_REG_ARGS] == ints[..INT_REG_ARGS]
    ensures FloatsFrom(intoF, WithRegArgs(r, ints, floats))[..FLOAT_REG_ARGS] == floats[..FLOAT_REG_ARGS]
    ensures IntsFrom(into, WithRegArgs(r, ints, floats))[INT_REG_ARGS..] == into[INT_REG_ARGS..]
    ensures FloatsFrom(intoF, WithRegArgs(r, ints, floats))[FLOAT_REG_ARGS..] == intoF[FLOAT_REG_ARGS..]
    ensures IntsFrom(ints, WithRegArgs(r, ints, floats)) == ints
    ensures FloatsFrom(floats, WithRegArgs(r, ints, floats)) == floats
  {
  }
}
