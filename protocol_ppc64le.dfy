/** The effect of each step of the ppc64le debug-call protocol on the machine,
    stated on values: the register file and the memory before the step give
    the register file and the memory after it. The handler methods are
    proved to perform exactly these steps; the lemmas say what they mean. */
module Protocol {
  import opened Words
  import opened Memory
  import opened Sigctxt
  import opened Wrappers

  /** A stopped thread: its register file and the memory it sees. */
  datatype Machine = Machine(regs: RegFile, mem: Bytes)

  /** The values of an `abi.RegArgs`. */
  datatype ArgVals = ArgVals(ints: seq<u64>, floats: seq<u64>)
  {
    predicate Fits()
    {
      |ints| >= INT_REG_ARGS && |floats| >= FLOAT_REG_ARGS
    }
  }

  /** An `any` value as raw words in memory, type and data; nil is both zero.
      (A request's `any` arguments, with their types, are `Injector.Any`.) */
  datatype Eface = Eface(typ: u64, data: u64)

  const NIL_EFACE := Eface(0, 0)

  /** Bytes reserved below the interrupted sp: 2*goarch.PtrSize. */
  const STAGE_SIZE := 16
  /** The argument frame starts one word above the trampoline's sp. */
  const FRAME_OFFSET := 8
  /** The argument-frame size is written this far below the lowered sp. */
  const ARGSIZE_OFFSET := 16
  /** Where the trampoline leaves the panic value or the unsafe reason. */
  const RESULT_OFFSET := 40

  /** Steps pc past the trap instruction; nothing else changes. */
  function Advance(r: RegFile): (r': RegFile)
    requires r.WellFormed()
    ensures r'.WellFormed()
    ensures r'.Pc() == Add64(r.Pc(), 4)
    ensures forall j :: 0 <= j < NGREG && j != REG_NIP ==> r'.gp[j] == r.gp[j]
    ensures r'.fp == r.fp
  {
    RegFile(r.gp[REG_NIP := Add64(r.Pc(), 4)], r.fp)
  }

  /** `saveSigContext`: lower sp by 16, store the old link at the new sp, make
      link the trap pc, store argSize 16 bytes below the new sp. The snapshot
      the handler keeps is the register file this step produces. */
  function SaveStep(m: Machine, argSize: u64): (m': Machine)
    requires m.regs.WellFormed()
    ensures m'.regs.WellFormed()
  {
    var sp := Sub64(m.regs.Sp(), STAGE_SIZE);
    var mem := Store64(m.mem, sp, m.regs.Link());
    var gp := m.regs.gp[REG_SP := sp][REG_LINK := m.regs.Pc()];
    Machine(RegFile(gp, m.regs.fp), Store64(mem, Sub64(sp, ARGSIZE_OFFSET), argSize))
  }

  /** `debugCallRun` (status 0): copy the caller's frame to sp+8, place the
      register arguments if there are any, return to the instruction after
      the trap, and enter fv.fn with the funcval pointer in r11. */
  function RunStep(m: Machine, fv: u64, argp: u64, argSize: u64, args: Option<ArgVals>): (m': Machine)
    requires m.regs.WellFormed() && (args.Some? ==> args.value.Fits())
    ensures m'.regs.WellFormed()
  {
    var mem := Move(m.mem, Add64(m.regs.Sp(), FRAME_OFFSET), argp, argSize);
    var r := if args.Some? then WithRegArgs(m.regs, args.value.ints, args.value.floats) else m.regs;
    var entry := Load64(mem, fv);
    var gp := r.gp[REG_LINK := Add64(r.Pc(), 4)][REG_NIP := entry][REG_CONTEXT := fv];
    Machine(RegFile(gp, r.fp), mem)
  }

  /** `debugCallReturn` (status 1): copy the frame at sp+8 back to the caller,
      reload link from the word at sp and step past the trap. */
  function ReturnStep(m: Machine, argp: u64, argSize: u64): (m': Machine)
    requires m.regs.WellFormed()
    ensures m'.regs.WellFormed()
  {
    var mem := Move(m.mem, argp, Add64(m.regs.Sp(), FRAME_OFFSET), argSize);
    var r := m.regs.(gp := m.regs.gp[REG_LINK := Load64(mem, m.regs.Sp())]);
    Machine(Advance(r), mem)
  }

  /** `debugCallPanicOut` (status 2): the two words at sp+40. */
  function PanicValue(m: Machine): Eface
    requires m.regs.WellFormed()
  {
    var at := Add64(m.regs.Sp(), RESULT_OFFSET);
    Eface(Load64(m.mem, at), Load64(m.mem, Add64(at, 8)))
  }

  /** `debugCallUnsafe` (status 8): the string whose header is at sp+40. */
  function UnsafeReason(m: Machine): string
    requires m.regs.WellFormed()
  {
    var at := Add64(m.regs.Sp(), RESULT_OFFSET);
    ReadString(m.mem, Load64(m.mem, at), Load64(m.mem, Add64(at, 8)))
  }

  /** `restoreSigContext` (status 16): the saved register file, except that pc
      steps past the current trap and sp keeps its current value. */
  function RestoreStep(cur: RegFile, saved: RegFile): (r: RegFile)
    requires cur.WellFormed() && saved.WellFormed()
    ensures r.WellFormed()
  {
    RegFile(saved.gp[REG_NIP := Add64(cur.Pc(), 4)][REG_SP := cur.Sp()], saved.fp)
  }

  lemma StagedWindowsDisjoint(sp: u64)
    ensures forall b: u64 :: Dist(sp, b) < 8 ==> Dist(Sub64(sp, ARGSIZE_OFFSET), b) >= 8
  {
    forall b: u64 | Dist(sp, b) < 8
      ensures Dist(Sub64(sp, ARGSIZE_OFFSET), b) >= 8
    {
      DistSub(sp, b, ARGSIZE_OFFSET);
    }
  }

  /** The registers after the save step: sp is 16 lower, link holds the
      trap pc, and nothing else changes. */
  lemma SaveRegisters(m: Machine, argSize: u64)
    requires m.regs.WellFormed()
    ensures var r := SaveStep(m, argSize).regs;
      && r.Sp() == Sub64(m.regs.Sp(), STAGE_SIZE)
      && r.Link() == m.regs.Pc()
      && r.Pc() == m.regs.Pc()
      && (forall j :: 0 <= j < NGREG && j != REG_SP && j != REG_LINK ==> r.gp[j] == m.regs.gp[j])
      && r.fp == m.regs.fp
  {
  }

  /** The memory after the save step: the word at the lowered sp holds the
      interrupted link, the word 16 bytes below it holds argSize, and no other
      byte changes. */
  lemma SaveStaging(m: Machine, argSize: u64)
    requires m.regs.WellFormed()
    ensures var mem := SaveStep(m, argSize).mem; var sp := Sub64(m.regs.Sp(), STAGE_SIZE);
      && Load64(mem, sp) == m.regs.Link()
      && Load64(mem, Sub64(sp, ARGSIZE_OFFSET)) == argSize
      && (forall b: u64 :: Dist(sp, b) >= 8 && Dist(Sub64(sp, ARGSIZE_OFFSET), b) >= 8 ==>
            ByteAt(mem, b) == ByteAt(m.mem, b))
  {
    var sp := Sub64(m.regs.Sp(), STAGE_SIZE);
    var low := Sub64(sp, ARGSIZE_OFFSET);
    var m1 := Store64(m.mem, sp, m.regs.Link());
    var m2 := Store64(m1, low, argSize);
    assert SaveStep(m, argSize).mem == m2;
    LoadStore64(m1, low, argSize);
    LoadStore64(m.mem, sp, m.regs.Link());
    StagedWindowsDisjoint(sp);
    StoreAgreeOutside(m1, low, 8, argSize, sp, 8);
    LoadAgree(m2, m1, sp, 8);
    forall b: u64 | Dist(sp, b) >= 8 && Dist(low, b) >= 8
      ensures ByteAt(m2, b) == ByteAt(m.mem, b)
    {
      StoreOutside(m1, low, 8, argSize, b);
      StoreOutside(m.mem, sp, 8, m.regs.Link(), b);
    }
  }

  /** The memory after the run step: the frame at sp+8 is a copy of the
      caller's argument bytes and nothing else changes. */
  lemma RunFrame(m: Machine, fv: u64, argp: u64, argSize: u64, args: Option<ArgVals>)
    requires m.regs.WellFormed() && (args.Some? ==> args.value.Fits())
    ensures var mem := RunStep(m, fv, argp, argSize, args).mem; var frame := Add64(m.regs.Sp(), FRAME_OFFSET);
      && (forall k :: 0 <= k < argSize ==> ByteAt(mem, Add64(frame, k)) == ByteAt(m.mem, Add64(argp, k)))
      && (forall b: u64 :: Dist(frame, b) >= argSize ==> ByteAt(mem, b) == ByteAt(m.mem, b))
  {
    assert RunStep(m, fv, argp, argSize, args).mem == Move(m.mem, Add64(m.regs.Sp(), FRAME_OFFSET), argp, argSize);
    MoveBytes(m.mem, Add64(m.regs.Sp(), FRAME_OFFSET), argp, argSize);
  }

  /** The registers after the run step: the register arguments sit in
      r3..r10 and f1..f12; link returns to the instruction after the trap; pc
      is fv.fn, read after the frame copy, and r11 is fv; sp and every other
      register keep their values. */
  lemma RunRegisters(m: Machine, fv: u64, argp: u64, argSize: u64, args: Option<ArgVals>)
    requires m.regs.WellFormed() && (args.Some? ==> args.value.Fits())
    ensures var m' := RunStep(m, fv, argp, argSize, args);
      && m'.regs.Sp() == m.regs.Sp()
      && m'.regs.Link() == Add64(m.regs.Pc(), 4)
      && m'.regs.Pc() == Load64(m'.mem, fv)
      && m'.regs.gp[REG_CONTEXT] == fv
      && (args.Some? ==>
            && (forall i :: 0 <= i < INT_REG_ARGS ==> m'.regs.gp[FIRST_INT_REG + i] == args.value.ints[i])
            && (forall i :: 0 <= i < FLOAT_REG_ARGS ==> m'.regs.fp[FIRST_FLOAT_REG + i] == args.value.floats[i]))
      && (forall j :: (0 <= j < NGREG && j != REG_NIP && j != REG_LINK && j != REG_CONTEXT &&
                        (args.Some? ==> !IsIntArgReg(j))) ==> m'.regs.gp[j] == m.regs.gp[j])
      && (forall j :: 0 <= j < NFPREG && (args.Some? ==> !IsFloatArgReg(j)) ==> m'.regs.fp[j] == m.regs.fp[j])
  {
    if args.Some? {
      StoreRegArgsEffect(m.regs, args.value.ints, args.value.floats);
    }
  }

  /** What the return step does: the caller's frame receives the bytes at
      sp+8 and nothing else in memory changes; link is reloaded from the word
      at sp; pc steps past the trap; no other register changes. */
  lemma ReturnLayout(m: Machine, argp: u64, argSize: u64)
    requires m.regs.WellFormed()
    ensures var m' := ReturnStep(m, argp, argSize); var frame := Add64(m.regs.Sp(), FRAME_OFFSET);
      && (forall k :: 0 <= k < argSize ==> ByteAt(m'.mem, Add64(argp, k)) == ByteAt(m.mem, Add64(frame, k)))
      && (forall b: u64 :: Dist(argp, b) >= argSize ==> ByteAt(m'.mem, b) == ByteAt(m.mem, b))
      && m'.regs.Link() == Load64(m'.mem, m.regs.Sp())
      && m'.regs.Pc() == Add64(m.regs.Pc(), 4)
      && (forall j :: 0 <= j < NGREG && j != REG_NIP && j != REG_LINK ==> m'.regs.gp[j] == m.regs.gp[j])
      && m'.regs.fp == m.regs.fp
  {
    MoveBytes(m.mem, argp, Add64(m.regs.Sp(), FRAME_OFFSET), argSize);
  }

  /** Run followed by return: if the injected call leaves sp, its frame and
      the argument registers as run set them up, the caller's argument bytes
      come back unchanged and reloading the registers gives back the
      arguments that were passed. */
  lemma RunThenReturn(m0: Machine, fv: u64, argp: u64, argSize: u64, args: Option<ArgVals>, m2: Machine)
    requires m0.regs.WellFormed() && m2.regs.WellFormed() && (args.Some? ==> args.value.Fits())
    requires var m1 := RunStep(m0, fv, argp, argSize, args);
      && m2.regs.Sp() == m1.regs.Sp()
      && Agree(m2.mem, m1.mem, Add64(m1.regs.Sp(), FRAME_OFFSET), argSize)
      && (forall j :: 0 <= j < NGREG && IsIntArgReg(j) ==> m2.regs.gp[j] == m1.regs.gp[j])
      && (forall j :: 0 <= j < NFPREG && IsFloatArgReg(j) ==> m2.regs.fp[j] == m1.regs.fp[j])
    ensures Agree(ReturnStep(m2, argp, argSize).mem, m0.mem, argp, argSize)
    ensures args.Some? ==>
      IntsFrom(args.value.ints, m2.regs) == args.value.ints &&
      FloatsFrom(args.value.floats, m2.regs) == args.value.floats
  {
    var m1 := RunStep(m0, fv, argp, argSize, args);
    var frame := Add64(m0.regs.Sp(), FRAME_OFFSET);
    assert m1.mem == Move(m0.mem, frame, argp, argSize);
    var m3 := ReturnStep(m2, argp, argSize);
    assert m3.mem == Move(m2.mem, argp, frame, argSize);
    MoveBytes(m0.mem, frame, argp, argSize);
    MoveBytes(m2.mem, argp, frame, argSize);
    forall b: u64 | Dist(argp, b) < argSize
      ensures ByteAt(m3.mem, b) == ByteAt(m0.mem, b)
    {
      var k := Dist(argp, b);
      AddOfDist(argp, b);
      DistOfAdd(frame, k);
      assert ByteAt(m2.mem, Add64(frame, k)) == ByteAt(m1.mem, Add64(frame, k));
    }
    if args.Some? {
      RunRegisters(m0, fv, argp, argSize, args);
      ArgRegistersRoundTrip(m0.regs, args.value, m1.regs, m2.regs);
    }
  }

  /** The argument registers that run fills, read back unchanged, give the
      arguments back. */
  lemma ArgRegistersRoundTrip(r0: RegFile, a: ArgVals, r1: RegFile, r2: RegFile)
    requires r0.WellFormed() && r1.WellFormed() && r2.WellFormed() && a.Fits()
    requires forall i :: 0 <= i < INT_REG_ARGS ==> r1.gp[FIRST_INT_REG + i] == a.ints[i]
    requires forall i :: 0 <= i < FLOAT_REG_ARGS ==> r1.fp[FIRST_FLOAT_REG + i] == a.floats[i]
    requires forall j :: 0 <= j < NGREG && IsIntArgReg(j) ==> r2.gp[j] == r1.gp[j]
    requires forall j :: 0 <= j < NFPREG && IsFloatArgReg(j) ==> r2.fp[j] == r1.fp[j]
    ensures IntsFrom(a.ints, r2) == a.ints && FloatsFrom(a.floats, r2) == a.floats
  {
    forall i | 0 <= i < INT_REG_ARGS ensures r2.gp[i + FIRST_INT_REG] == a.ints[i] {
      assert IsIntArgReg(i + FIRST_INT_REG);
    }
    forall i | 0 <= i < FLOAT_REG_ARGS ensures r2.fp[i + FIRST_FLOAT_REG] == a.floats[i] {
      assert IsFloatArgReg(i + FIRST_FLOAT_REG);
    }
  }

  /** Save followed (eventually) by restore: every register except pc, sp and
      link is the interrupted one again, and link is the interrupted pc,
      because the snapshot is taken after link is overwritten (the interrupted
      link is the word staged at the lowered sp, see SaveStaging). */
  lemma SaveThenRestore(m0: Machine, argSize: u64, m2: Machine)
    requires m0.regs.WellFormed() && m2.regs.WellFormed()
    ensures var r := RestoreStep(m2.regs, SaveStep(m0, argSize).regs);
      && r.Pc() == Add64(m2.regs.Pc(), 4)
      && r.Sp() == m2.regs.Sp()
      && r.Link() == m0.regs.Pc()
      && (forall j :: 0 <= j < NGREG && j != REG_NIP && j != REG_SP && j != REG_LINK ==> r.gp[j] == m0.regs.gp[j])
      && r.fp == m0.regs.fp
  {
    SaveRegisters(m0, argSize);
  }

  /** When the call left sp where the trap found it, the restored registers
      are exactly the interrupted ones, except that pc has moved past the
      breakpoint and link holds the trap pc. */
  lemma SaveThenRestoreSameStack(m0: Machine, argSize: u64, m2: Machine)
    requires m0.regs.WellFormed() && m2.regs.WellFormed()
    requires m2.regs.Sp() == m0.regs.Sp()
    ensures RestoreStep(m2.regs, SaveStep(m0, argSize).regs)
         == RegFile(m0.regs.gp[REG_NIP := Add64(m2.regs.Pc(), 4)][REG_LINK := m0.regs.Pc()], m0.regs.fp)
  {
    SaveThenRestore(m0, argSize, m2);
    var r := RestoreStep(m2.regs, SaveStep(m0, argSize).regs);
    var want := RegFile(m0.regs.gp[REG_NIP := Add64(m2.regs.Pc(), 4)][REG_LINK := m0.regs.Pc()], m0.regs.fp);
    assert r.gp == want.gp by {
      forall j | 0 <= j < NGREG ensures r.gp[j] == want.gp[j] {
      }
    }
  }

  /** The two words of an `any` value at `at` and `at + 8` do not overlap. */
  lemma AdjacentWordsDisjoint(at: u64)
    ensures forall b: u64 :: Dist(at, b) < 8 ==> Dist(Add64(at, 8), b) >= 8
  {
    forall b: u64 | Dist(at, b) < 8
      ensures Dist(Add64(at, 8), b) >= 8
    {
      DistAdd(at, b, 8);
    }
  }

  /** The memory the debugCallV2 trampoline leaves before its status-2 trap:
      the panic value's type and data words at sp+40 and sp+48. */
  function StagePanic(m: Machine, e: Eface): (m': Machine)
    requires m.regs.WellFormed()
    ensures m'.regs == m.regs
  {
    var at := Add64(m.regs.Sp(), RESULT_OFFSET);
    Machine(m.regs, Store64(Store64(m.mem, at, e.typ), Add64(at, 8), e.data))
  }

  /** The panic step reads back exactly the value the trampoline staged. */
  lemma PanicValueRoundTrip(m: Machine, e: Eface)
    requires m.regs.WellFormed()
    ensures PanicValue(StagePanic(m, e)) == e
  {
    var at := Add64(m.regs.Sp(), RESULT_OFFSET);
    var m1 := Store64(m.mem, at, e.typ);
    var m2 := Store64(m1, Add64(at, 8), e.data);
    assert StagePanic(m, e).mem == m2;
    LoadStore64(m1, Add64(at, 8), e.data);
    LoadStore64(m.mem, at, e.typ);
    AdjacentWordsDisjoint(at);
    StoreAgreeOutside(m1, Add64(at, 8), 8, e.data, at, 8);
    LoadAgree(m2, m1, at, 8);
  }

  /** The unsafe step reads the Go string the trampoline points at: when the
      header at sp+40 holds a pointer to the bytes of `s` and its length,
      the reason is `s`. */
  lemma UnsafeReasonReads(m: Machine, s: string, p: u64)
    requires m.regs.WellFormed()
    requires Load64(m.mem, Add64(m.regs.Sp(), RESULT_OFFSET)) == p
    requires Load64(m.mem, Add64(Add64(m.regs.Sp(), RESULT_OFFSET), 8)) == |s|
    requires forall i :: 0 <= i < |s| ==> ByteAt(m.mem, Add64(p, i)) == s[i] as int
    ensures UnsafeReason(m) == s
  {
    var r := UnsafeReason(m);
    assert |r| == |s|;
    forall i | 0 <= i < |s| ensures r[i] == s[i] {
      assert r[i] as int == s[i] as int;
    }
  }
}
