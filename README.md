# Debugger call injection on linux/ppc64le, modelled in Dafny

The Go runtime lets a debugger (and its own tests) inject a function call
into a running goroutine. `InjectDebugCall` checks the request, builds a
`debugCallHandler`, arms the process-wide SIGTRAP hook with the handler's
`inject` method and signals the goroutine's thread. When the trap arrives,
`inject` saves the thread's signal context, redirects it to the assembly
trampoline `debugCallV2` and re-arms the hook with `handle`. From then on, every
trap instruction the trampoline executes calls `handle`. `handle` reads the
status word the trampoline left in r20 and performs one step:

- 0: copy the argument frame and register arguments in and enter the function;
- 1: copy results out;
- 2: read a panic value;
- 8: read the unsafe-point reason;
- 16: restore the saved registers and wake the orchestrator.

The orchestrator retries transient failures up to a bound.

The project models this core:

- `words.dfy`: Go's wrapping `uint64`/`uintptr` arithmetic.
- `memory.dfy`: byte-addressed little-endian memory. It covers word loads and
  stores, `memmove` and reading a Go string. An `AddressSpace` object holds the
  bytes the handlers change in place.
- `sigctxt_ppc64le.dfy`: the saved context of a trapped thread (`SigCtxt`),
  laid out as the kernel's `gp_regs[48]`/`fp_regs[33]`. Pc (nip, slot 32),
  link (slot 36), sp (r1), the context register r11 and the status word r20
  are all slots of `gp_regs`, so writing one through one accessor is seen
  through all the others. This file also holds the trap-instruction test and
  the register-argument marshalers `storeRegArgs` and `loadRegArgs` (loops over
  r3..r10 and f1..f12).
- `protocol_ppc64le.dfy`: the per-status steps as functions. The save, run
  and return steps map a machine state (register file and memory) to the next
  one; the restore step maps the current and the saved register file to the
  restored one; the panic and unsafe steps read a value (`PanicValue`,
  `UnsafeReason`) out of a machine state. Lemmas say what each step
  does and how steps compose: save then restore, run then return, and staged
  panic value then panic step.
- `handler.dfy`: the `debugCallHandler` class. Its step methods are proved to
  perform exactly the step functions above. It also has the two trap entry
  points `Inject` and `Handle`, with a contract for every branch.
- `injector.dfy`: `InjectDebugCall`, covering request validation, the retry
  loop and error classification. The loop is proved against a recursive
  specification `Outcome`, and lemmas state the retry guarantees.

Go's `any` values appear in two forms. The panic value the handler copies out
of target memory is `Eface`, its two raw words (type and data). The request's
`fn` and `stackArgs` are `Injector.Any`, nil or a dynamic type (a kind and,
for a pointer, the pointed-to size) with its data word. Go's `plainError`
strings are `string`s. Floating-point registers hold their 64-bit patterns, so
`math.Float64frombits`/`Float64bits` are the identity here.

## Model

| member | source | states |
|---|---|---|
| Memory.LoadOfStore | src/runtime/export_debug_ppc64le_test.go:37 | a little-endian word store followed by a load of the same width at the same address gives the stored value back |
| Memory.StoreOutside | src/runtime/export_debug_ppc64le_test.go:37-42 | a word store changes no byte outside its own window |
| Memory.LoadAgree | src/runtime/export_debug_ppc64le_test.go:78 | a word load depends only on the bytes of its own window |
| Memory.MoveBytes | src/runtime/export_debug_ppc64le_test.go:53 | memmove: byte k of the destination window is byte k of the source window, as it was before the move; every byte outside the destination window is unchanged |
| Memory.ReadString | src/runtime/export_debug_ppc64le_test.go:96 | the string read through a header has exactly the header's length, and character i is the byte at data pointer + i |
| Memory.Load32Bytes | src/runtime/export_debug_ppc64le_test.go:25 | the 32-bit word at an address equals x exactly when its four bytes are those of x, least significant first |
| Sigctxt.SigCtxt.Snapshot | src/runtime/export_debug_ppc64le_test.go:46 | the value copy of the register file (`*ctxt.cregs()`) is well formed exactly when the live context is |
| Sigctxt.SigCtxt.SetPc | src/runtime/export_debug_ppc64le_test.go:64 | set_pc writes nip and no other register |
| Sigctxt.SigCtxt.SetSp | src/runtime/export_debug_ppc64le_test.go:35 | set_sp writes r1 and no other register |
| Sigctxt.SigCtxt.SetLink | src/runtime/export_debug_ppc64le_test.go:38 | set_link writes link and no other register |
| Sigctxt.SigCtxt.SetRegs | src/runtime/export_debug_ppc64le_test.go:107 | assigning `*ctxt.cregs()` replaces the whole register file with the given one |
| Sigctxt.SetContextRegister | src/runtime/export_debug_ppc64le_test.go:20-22 | writes x into r11 and changes nothing else |
| Sigctxt.AtTrapInstruction | src/runtime/export_debug_ppc64le_test.go:24-26 | true exactly when the four bytes at pc are 08 00 e0 7f, the little-endian encoding of the trap word 0x7fe00008 |
| Sigctxt.Status | src/runtime/export_debug_ppc64le_test.go:28-30 | the status is r20 of the register file |
| Sigctxt.StoreRegArgs | src/runtime/export_debug_ppc64le_test.go:120-135 | the new register file is the old one with r(3+i) = Ints[i] for i < 8 and f(1+i) = Floats[i] for i < 12 |
| Sigctxt.LoadRegArgs | src/runtime/export_debug_ppc64le_test.go:137-147 | Ints[i] becomes r(3+i) for i < 8 and Floats[i] becomes f(1+i) for i < 12; the other slots of the RegArgs keep their values |
| Sigctxt.StoreRegArgsEffect | src/runtime/export_debug_ppc64le_test.go:120-135 | after storing, the argument registers hold the arguments and every other gp and fp register is unchanged |
| Sigctxt.LoadAfterStore | src/runtime/export_debug_ppc64le_test.go:120-147 | round trip: loading right after storing gives back the stored Ints[0..8) and Floats[0..12), and leaves the loaded RegArgs' slots beyond those windows alone |
| Protocol.Advance | src/runtime/export_debug_ppc64le_test.go:89 | stepping past the trap adds 4 to pc, with wrap-around, and changes no other register |
| Protocol.SaveRegisters | src/runtime/export_debug_ppc64le_test.go:32-47 | after the save step sp is 16 lower, link holds the trap pc, pc is unchanged, and every other register is unchanged |
| Protocol.SaveStaging | src/runtime/export_debug_ppc64le_test.go:37-42 | after the save step the word at the new sp holds the interrupted link, the word at new sp - 16 holds argSize, and no other byte of memory changes |
| Protocol.RunFrame | src/runtime/export_debug_ppc64le_test.go:53 | after the run step the argSize bytes at sp+8 are the caller's argument bytes and no other byte changes |
| Protocol.RunRegisters | src/runtime/export_debug_ppc64le_test.go:50-66 | after the run step the register arguments are in r3..r10 and f1..f12 (when there are any), link is the trap pc + 4, pc is the funcval's first word, r11 is the funcval pointer, and sp and all other registers are unchanged |
| Protocol.ReturnLayout | src/runtime/export_debug_ppc64le_test.go:69-82 | after the return step the caller's frame holds the bytes at sp+8 and no other byte changes; link is the word at sp; pc is past the trap; no other register changes |
| Protocol.RunThenReturn | src/runtime/export_debug_ppc64le_test.go:50-82 | when the call leaves sp, its frame and the argument registers as the run step set them, the return step gives the caller its argument bytes back unchanged, and reloading the registers gives back the arguments passed |
| Protocol.ArgRegistersRoundTrip | src/runtime/export_debug_ppc64le_test.go:74 | argument registers that were filled from a RegArgs and not touched since read back as the same RegArgs |
| Protocol.SaveThenRestore | src/runtime/export_debug_ppc64le_test.go:102-114 | restoring the snapshot taken by the save step gives every register except pc, sp and link its interrupted value; pc is the current trap + 4, sp the current sp, and link the interrupted pc |
| Protocol.SaveThenRestoreSameStack | src/runtime/export_debug_ppc64le_test.go:102-114 | when the trampoline traps with the interrupted sp, the restored register file is the interrupted one with only pc (trap + 4) and link (interrupted pc) changed |
| Protocol.PanicValueRoundTrip | src/runtime/export_debug_ppc64le_test.go:85-90 | the panic step reads back exactly the two-word value staged at sp+40 |
| Protocol.UnsafeReasonReads | src/runtime/export_debug_ppc64le_test.go:93-99 | when the string header at sp+40 points at the bytes of s and holds its length, the unsafe step's reason is s |
| DebugCall.DebugCallHandler.constructor | src/runtime/export_debug_test.go:50-55 | the new handler holds the M, funcval, register arguments, frame pointer and frame size it was given, with no error, no panic value, done clear and the hook unarmed |
| DebugCall.DebugCallHandler.Arm | src/runtime/export_debug_test.go:64-66 | each attempt arms `inject`, clears done and empties err; panic value and saved registers are kept |
| DebugCall.DebugCallHandler.SaveSigContext | src/runtime/export_debug_ppc64le_test.go:32-47 | the context and memory become exactly the save step's result, and the handler's saved registers equal the new register file |
| DebugCall.DebugCallHandler.DebugCallRun | src/runtime/export_debug_ppc64le_test.go:50-66 | the context and memory become exactly the run step's result, with the register arguments placed only when regArgs is not nil |
| DebugCall.DebugCallHandler.DebugCallReturn | src/runtime/export_debug_ppc64le_test.go:69-82 | the context and memory become exactly the return step's result, and a non-nil regArgs receives the argument registers as they were at the trap |
| DebugCall.DebugCallHandler.DebugCallPanicOut | src/runtime/export_debug_ppc64le_test.go:85-90 | the handler's panic value becomes the two words at sp+40, pc steps past the trap, and nothing else changes |
| DebugCall.DebugCallHandler.DebugCallUnsafe | src/runtime/export_debug_ppc64le_test.go:93-99 | the handler's error becomes the string whose header is at sp+40, pc steps past the trap, and nothing else changes |
| DebugCall.DebugCallHandler.RestoreSigContext | src/runtime/export_debug_ppc64le_test.go:102-114 | the register file becomes the saved one, with pc set to the current trap + 4 and sp kept at its current value |
| DebugCall.DebugCallHandler.Inject | src/runtime/export_debug_test.go:112-143 | a trap on the wrong M while running is declined and changes nothing; while running on the right M, the context is saved, pc becomes debugCallV2 and `handle` is armed; runnable sets "retry _Grunnable" and done; any other state sets the unexpected-state error and done; all other traps are resumed |
| DebugCall.DebugCallHandler.Handle | src/runtime/export_debug_test.go:145-207 | resumes exactly when the trap is on the handler's M, in a debugCall function and at the trap word, and otherwise changes nothing; then, per status: 0 is the run step, 1 the return step, 2 reads the panic value, 8 reads the unsafe reason without waking, 22 changes nothing, 16 restores and wakes, and any other status sets "unexpected debugCallV2 status" and wakes |
| Injector.ValidateRequest | src/runtime/export_debug_test.go:25-48 | the four request checks in order, each with its own error, and only the first failing one reported; on success the M, thread id, funcval, frame pointer and frame size (the element size, or 0 for a nil pointer) |
| Injector.Classify | src/runtime/export_debug_test.go:74-91 | an empty error succeeds; an error is retried exactly when the attempt number is below 100 and the error is transient or the unsafe point with unsafe points not requested; an unsafe point with unsafe points requested gives up |
| Injector.InjectDebugCall | src/runtime/export_debug_test.go:24-94 | the returned value, error and number of tkill calls are exactly those of `InjectSpec`: validation failure with no signal, else the retry loop's outcome `Outcome` |
| Injector.SignalsBounded | src/runtime/export_debug_test.go:63-93 | the loop sends at least one signal and never more than 101 |
| Injector.LastAttemptDecides | src/runtime/export_debug_test.go:63-93 | success or failure is decided by the last attempt: success exactly when its tkill succeeded and its error is empty, an error is that attempt's, and an error always comes with a nil value; on success, when the last attempt set a panic value, that value is returned |
| Injector.NoPanicReturnsStart | src/runtime/export_debug_test.go:22 | "the panic value of fn or nil": on success with no attempt setting a panic value, the value returned is the h.panic passed in, nil for the fresh handler |
| Injector.TransientExhaustsRetries | src/runtime/export_debug_test.go:82-90 | a goroutine that stays in a transient state makes the call fail with the last transient error after exactly 101 signals |
| Injector.SucceedsAfterTransients | src/runtime/export_debug_test.go:74-92 | transient failures on attempts i..k-1 followed by a completed call on attempt k <= 100 give success after k + 1 signals, with that attempt's panic value |
| Injector.UnsafePointSurfaced | src/runtime/export_debug_test.go:76-80 | with unsafe points requested, an unsafe point ends the call on that attempt with "call not at safe point" |
| Injector.UnsafePointRetried | src/runtime/export_debug_test.go:76-88 | with unsafe points not requested, an unsafe point before the bound is retried like a transient state |
| Injector.NoRetryOnOtherErrors | src/runtime/export_debug_test.go:68-90 | a failed tkill, or an error that is neither transient nor the unsafe point, ends the call on that attempt with that error |
| Injector.ValidationMessages | src/runtime/export_debug_test.go:25-43 | each failed check reports exactly the source's message: "goroutine not locked to thread", "missing tid", "fn must be a function", "args must be a pointer or nil" |
| Injector.InvalidRequestSendsNothing | src/runtime/export_debug_test.go:24-48 | an invalid request is answered with its validation error and no signal is sent |
| Injector.HandlerErrorsClassified | src/runtime/export_debug_test.go:130-139 | the runnable error set by `inject` is retried below the bound; the unexpected-state and unexpected-status errors are never retried |

## Left out

- Signal delivery (`tkill`, SIGTRAP), the `done` note and its wait, `usleep` and `Gosched` are concurrency. `InjectDebugCall` takes a script of attempt outcomes instead. For each attempt the script gives what `tkill` returned and what the traps left in `h.err` and `h.panic` when they woke `done`. The loop makes at most 101 attempts, so the script must hold at least 101 entries.
- The process-wide `testSigtrap` slot is the handler's `hook` field. The deferred reset to nil is the hook being disarmed on every return.
- `getg().m`, `h.gp.atomicstatus`, `findfunc`/`funcname` and `abi.FuncPCABIInternal(debugCallV2)` read runtime state outside this core. They are parameters of `Inject` and `Handle`.
- `efaceOf` and the type descriptors are reduced to a kind (function, pointer, other) and a pointed-to size. `kindMask` is not modelled.
- The `debugCallV2` trampoline is assembly and is not part of this model. `StagePanic` only describes the layout the panic step reads.
- `println` and `dumpregs` are debug output with no effect on the protocol.
- Memory is total: an unmapped byte reads as 0 and a store never faults. Pointer validity and alignment are not modelled.
- Only `gp_regs` and `fp_regs` of the kernel sigcontext are modelled. The vector registers, the other sigcontext words and the `regs()` pointer are left out.
- `abi.RegArgs` is reduced to its `Ints` and `Floats` slots. The lengths fixed by the ABI are not modelled; the model only requires at least 8 and 12 slots, the windows the ppc64le loops use.
- `DebugCall.DebugCallHandler.DebugCallUnsafe` copies the reason's bytes when status 8 is handled, where Go keeps a string header pointing into target memory; the two agree only while those bytes do not change before the orchestrator reads `h.err`, which holds because the trampoline's reasons are static strings.
- `DebugCall.DebugCallHandler.Handle`: its effect on `done` is stated as a flag (set for 16 and for an unexpected status, left alone otherwise), not as a wake-up of a waiter.

The model follows the code as written at three points:

- A goroutine that stays transient is signalled 101 times: `i < 100` allows attempts 0 to 100.
- `saveSigContext` writes argSize 16 bytes below the lowered sp, outside the two words it reserves.
- The float loops cover f1..f12 (12 registers), although their comments name F1..F13.
