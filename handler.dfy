/** The debug-call handler: the per-injection record, its two trap entry
    points (`inject` starts a call, `handle` drives it one trampoline status
    at a time) and the ppc64le per-status steps that act on the interrupted
    thread's context and memory. */
module DebugCall {
  import opened Words
  import opened Memory
  import opened Sigctxt
  import opened Protocol
  import opened Wrappers

  /** What the process-wide `testSigtrap` slot holds: nothing, this
      handler's `inject`, or its `handleF`. */
  datatype Hook = NoHook | InjectHook | HandleHook

  /** The target goroutine's scheduling state as `inject` reads it. */
  datatype GStatus = Grunning | Grunnable | OtherStatus

  const ERR_RETRY_RUNNABLE := "retry _Grunnable"
  const ERR_INJECT_STATE := "goroutine in unexpected state at call inject"
  const ERR_BAD_STATUS := "unexpected debugCallV2 status"

  /** Status words the debugCallV2 trampoline leaves in r20. */
  const STATUS_RUN: u64 := 0
  const STATUS_RETURN: u64 := 1
  const STATUS_PANIC: u64 := 2
  const STATUS_UNSAFE: u64 := 8
  const STATUS_RESTORE: u64 := 16
  const STATUS_IGNORED: u64 := 22

  /** The trap lies in a function whose name starts with
      "runtime.debugCall" or "debugCall". */
  predicate InDebugCallFunction(name: string)
  {
    "runtime.debugCall" <= name || "debugCall" <= name
  }

  class DebugCallHandler {
    /** The M the goroutine is locked to. */
    const mp: nat
    /** Address of the funcval to call; its first word is the entry pc. */
    const fv: u64
    const regArgs: RegArgs?
    /** Address of the caller's argument frame, 0 for nil. */
    const argp: u64
    const argSize: u64

    var panicVal: Eface
    var err: string
    /** The `done` note: set when the orchestrator is to wake up. */
    var done: bool
    /** `sigCtxt.savedRegs` */
    var savedRegs: RegFile
    /** The `testSigtrap` slot, armed by this handler only. */
    var hook: Hook

    ghost predicate Valid()
      reads this, regArgs
    {
      savedRegs.WellFormed() && (regArgs != null ==> regArgs.Valid())
    }

    /** The register arguments as values. */
    function Args(): (a: Option<ArgVals>)
      reads this, regArgs
      requires Valid()
      ensures a.Some? <==> regArgs != null
      ensures a.Some? ==> a.value.Fits()
    {
      if regArgs == null then None else Some(ArgVals(regArgs.ints, regArgs.floats))
    }

    constructor (mp: nat, fv: u64, regArgs: RegArgs?, argp: u64, argSize: u64)
      requires regArgs != null ==> regArgs.Valid()
      ensures Valid()
      ensures this.mp == mp && this.fv == fv && this.regArgs == regArgs
      ensures this.argp == argp && this.argSize == argSize
      ensures panicVal == NIL_EFACE && err == "" && !done && hook == NoHook
    {
      this.mp, this.fv, this.regArgs, this.argp, this.argSize := mp, fv, regArgs, argp, argSize;
      panicVal, err, done, hook := NIL_EFACE, "", false, NoHook;
      savedRegs := RegFile(seq(NGREG, _ => 0), seq(NFPREG, _ => 0));
    }

    /** The start of each attempt: arm `inject`, clear `done`, reset `err`. */
    method Arm()
      modifies this
      ensures hook == InjectHook && !done && err == ""
      ensures panicVal == old(panicVal) && savedRegs == old(savedRegs)
    {
      hook := InjectHook;
      done := false;
      err := "";
    }

    /** `saveSigContext` */
    method SaveSigContext(ctxt: SigCtxt, mem: AddressSpace)
      requires Valid() && ctxt.Valid()
      modifies this, ctxt, mem
      ensures Valid() && ctxt.Valid()
      ensures Machine(ctxt.Snapshot(), mem.bytes) == SaveStep(old(Machine(ctxt.Snapshot(), mem.bytes)), argSize)
      ensures savedRegs == ctxt.Snapshot()
      ensures panicVal == old(panicVal) && err == old(err) && done == old(done) && hook == old(hook)
    {
      var sp := Sub64(ctxt.Sp(), STAGE_SIZE);
      ctxt.SetSp(sp);
      mem.bytes := Store64(mem.bytes, sp, ctxt.Link());
      ctxt.SetLink(ctxt.Pc());
      mem.bytes := Store64(mem.bytes, Sub64(sp, ARGSIZE_OFFSET), argSize);
      savedRegs := ctxt.Snapshot();
    }

    /** `debugCallRun` (status 0) */
    method DebugCallRun(ctxt: SigCtxt, mem: AddressSpace)
      requires Valid() && ctxt.Valid()
      modifies ctxt, mem
      ensures ctxt.Valid()
      ensures Machine(ctxt.Snapshot(), mem.bytes) ==
        RunStep(old(Machine(ctxt.Snapshot(), mem.bytes)), fv, argp, argSize, Args())
    {
      var sp := ctxt.Sp();
      mem.bytes := Move(mem.bytes, Add64(sp, FRAME_OFFSET), argp, argSize);
      if regArgs != null {
        StoreRegArgs(ctxt, regArgs);
      }
      ctxt.SetLink(Add64(ctxt.Pc(), 4));
      ctxt.SetPc(Load64(mem.bytes, fv));
      SetContextRegister(ctxt, fv);
    }

    /** `debugCallReturn` (status 1) */
    method DebugCallReturn(ctxt: SigCtxt, mem: AddressSpace)
      requires Valid() && ctxt.Valid()
      modifies ctxt, mem, regArgs
      ensures Valid() && ctxt.Valid()
      ensures Machine(ctxt.Snapshot(), mem.bytes) ==
        ReturnStep(old(Machine(ctxt.Snapshot(), mem.bytes)), argp, argSize)
      ensures regArgs != null ==>
        regArgs.ints == IntsFrom(old(regArgs.ints), old(ctxt.Snapshot())) &&
        regArgs.floats == FloatsFrom(old(regArgs.floats), old(ctxt.Snapshot()))
    {
      var sp := ctxt.Sp();
      mem.bytes := Move(mem.bytes, argp, Add64(sp, FRAME_OFFSET), argSize);
      if regArgs != null {
        LoadRegArgs(regArgs, ctxt);
      }
      var olr := Load64(mem.bytes, sp);
      ctxt.SetLink(olr);
      ctxt.SetPc(Add64(ctxt.Pc(), 4));
    }

    /** `debugCallPanicOut` (status 2) */
    method DebugCallPanicOut(ctxt: SigCtxt, mem: AddressSpace)
      requires Valid() && ctxt.Valid()
      modifies this, ctxt
      ensures Valid() && ctxt.Valid()
      ensures panicVal == PanicValue(old(Machine(ctxt.Snapshot(), mem.bytes)))
      ensures ctxt.Snapshot() == Advance(old(ctxt.Snapshot()))
      ensures err == old(err) && done == old(done) && savedRegs == old(savedRegs) && hook == old(hook)
    {
      var at := Add64(ctxt.Sp(), RESULT_OFFSET);
      panicVal := Eface(Load64(mem.bytes, at), Load64(mem.bytes, Add64(at, 8)));
      ctxt.SetPc(Add64(ctxt.Pc(), 4));
    }

    /** `debugCallUnsafe` (status 8) */
    method DebugCallUnsafe(ctxt: SigCtxt, mem: AddressSpace)
      requires Valid() && ctxt.Valid()
      modifies this, ctxt
      ensures Valid() && ctxt.Valid()
      ensures err == UnsafeReason(old(Machine(ctxt.Snapshot(), mem.bytes)))
      ensures ctxt.Snapshot() == Advance(old(ctxt.Snapshot()))
      ensures panicVal == old(panicVal) && done == old(done) && savedRegs == old(savedRegs) && hook == old(hook)
    {
      var at := Add64(ctxt.Sp(), RESULT_OFFSET);
      err := ReadString(mem.bytes, Load64(mem.bytes, at), Load64(mem.bytes, Add64(at, 8)));
      ctxt.SetPc(Add64(ctxt.Pc(), 4));
    }

    /** `restoreSigContext` (status 16) */
    method RestoreSigContext(ctxt: SigCtxt)
      requires Valid() && ctxt.Valid()
      modifies ctxt
      ensures ctxt.Valid()
      ensures ctxt.Snapshot() == RestoreStep(old(ctxt.Snapshot()), savedRegs)
    {
      var pc, sp := ctxt.Pc(), ctxt.Sp();
      ctxt.SetRegs(savedRegs);
      ctxt.SetPc(Add64(pc, 4));
      ctxt.SetSp(sp);
    }

    /** `inject`: the start step, run on the first SIGTRAP of an attempt. */
    method Inject(ctxt: SigCtxt, mem: AddressSpace, status: GStatus, curM: nat, debugCallV2: u64)
      returns (resume: bool)
      requires Valid() && ctxt.Valid()
      modifies this, ctxt, mem
      ensures Valid() && ctxt.Valid()
      ensures resume <==> !(status == Grunning && curM != mp)
      ensures !resume ==>
        unchanged(this) && ctxt.Snapshot() == old(ctxt.Snapshot()) && mem.bytes == old(mem.bytes)
      ensures status == Grunning && curM == mp ==>
        var m := SaveStep(old(Machine(ctxt.Snapshot(), mem.bytes)), argSize);
        && savedRegs == m.regs
        && ctxt.Snapshot() == m.regs.(gp := m.regs.gp[REG_NIP := debugCallV2])
        && mem.bytes == m.mem
        && hook == HandleHook
        && err == old(err) && done == old(done) && panicVal == old(panicVal)
      ensures status != Grunning ==>
        && err == (if status == Grunnable then ERR_RETRY_RUNNABLE else ERR_INJECT_STATE)
        && done
        && hook == old(hook) && savedRegs == old(savedRegs) && panicVal == old(panicVal)
        && ctxt.Snapshot() == old(ctxt.Snapshot()) && mem.bytes == old(mem.bytes)
    {
      match status {
        case Grunning =>
          if curM != mp {
            return false;
          }
          SaveSigContext(ctxt, mem);
          ctxt.SetPc(debugCallV2);
          hook := HandleHook;
        case Grunnable =>
          err := ERR_RETRY_RUNNABLE;
          done := true;
        case OtherStatus =>
          err := ERR_INJECT_STATE;
          done := true;
      }
      resume := true;
    }

    /** `handle`: the continue step, run on every later SIGTRAP. A trap on
        another M, outside the debugCall functions or not at the trap
        instruction is not ours: it is left alone and reported unhandled. */
    method Handle(ctxt: SigCtxt, mem: AddressSpace, curM: nat, funcName: string)
      returns (resume: bool)
      requires Valid() && ctxt.Valid()
      modifies this, ctxt, mem, regArgs
      ensures Valid() && ctxt.Valid()
      ensures var ours := curM == mp && InDebugCallFunction(funcName) && old(AtTrapInstruction(ctxt, mem));
        resume == ours
      ensures !resume ==>
        && unchanged(this) && ctxt.Snapshot() == old(ctxt.Snapshot()) && mem.bytes == old(mem.bytes)
        && (regArgs != null ==> unchanged(regArgs))
      ensures resume ==> hook == old(hook) && savedRegs == old(savedRegs)
      ensures var m0 := old(Machine(ctxt.Snapshot(), mem.bytes)); var s := m0.regs.Status();
        resume ==>
        && (s == STATUS_RUN ==>
              && Machine(ctxt.Snapshot(), mem.bytes) == RunStep(m0, fv, argp, argSize, old(Args()))
              && unchanged(this) && (regArgs != null ==> unchanged(regArgs)))
        && (s == STATUS_RETURN ==>
              && Machine(ctxt.Snapshot(), mem.bytes) == ReturnStep(m0, argp, argSize)
              && unchanged(this)
              && (regArgs != null ==>
                    regArgs.ints == IntsFrom(old(regArgs.ints), m0.regs) &&
                    regArgs.floats == FloatsFrom(old(regArgs.floats), m0.regs)))
        && (s == STATUS_PANIC ==>
              && panicVal == PanicValue(m0)
              && ctxt.Snapshot() == Advance(m0.regs) && mem.bytes == m0.mem
              && err == old(err) && done == old(done) && (regArgs != null ==> unchanged(regArgs)))
        && (s == STATUS_UNSAFE ==>
              && err == UnsafeReason(m0)
              && ctxt.Snapshot() == Advance(m0.regs) && mem.bytes == m0.mem
              && panicVal == old(panicVal) && done == old(done) && (regArgs != null ==> unchanged(regArgs)))
        && (s == STATUS_IGNORED ==>
              && unchanged(this) && ctxt.Snapshot() == m0.regs && mem.bytes == m0.mem
              && (regArgs != null ==> unchanged(regArgs)))
        && (s == STATUS_RESTORE ==>
              && ctxt.Snapshot() == RestoreStep(m0.regs, savedRegs) && mem.bytes == m0.mem
              && done && err == old(err) && panicVal == old(panicVal)
              && (regArgs != null ==> unchanged(regArgs)))
        && (s !in {STATUS_RUN, STATUS_RETURN, STATUS_PANIC, STATUS_UNSAFE, STATUS_IGNORED, STATUS_RESTORE} ==>
              && err == ERR_BAD_STATUS && done && panicVal == old(panicVal)
              && ctxt.Snapshot() == m0.regs && mem.bytes == m0.mem
              && (regArgs != null ==> unchanged(regArgs)))
    {
      if curM != mp {
        return false;
      }
      if !InDebugCallFunction(funcName) {
        return false;
      }
      if !AtTrapInstruction(ctxt, mem) {
        return false;
      }
      var status := Status(ctxt);
      if status == STATUS_RUN {
        DebugCallRun(ctxt, mem);
      } else if status == STATUS_RETURN {
        DebugCallReturn(ctxt, mem);
      } else if status == STATUS_PANIC {
        DebugCallPanicOut(ctxt, mem);
      } else if status == STATUS_UNSAFE {
        // The orchestrator is not woken: status 16 must follow.
        DebugCallUnsafe(ctxt, mem);
      } else if status == STATUS_IGNORED {
      } else if status == STATUS_RESTORE {
        RestoreSigContext(ctxt);
        done := true;
      } else {
        err := ERR_BAD_STATUS;
        done := true;
      }
      resume := true;
    }
  }
}
