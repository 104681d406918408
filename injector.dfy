/** `InjectDebugCall`: validate the request, then arm the handler, signal the
    target thread and wait, once per attempt, retrying transient failures.

    Signal delivery and the wait are not modelled as concurrency. Attempt `i`
    is described by `attempts[i]`: what `tkill` returned, and, when the signal
    went out, what the handler's traps left in `h.err` and (if the call
    panicked) in `h.panic` by the time they woke `h.done`. The loop makes at
    most MAX_RETRY + 1 attempts, so a script of that many outcomes describes
    every run. */
module Injector {
  import opened Words
  import opened Wrappers
  import opened Sigctxt
  import opened Protocol
  import opened DebugCall

  const ERR_NOT_LOCKED := "goroutine not locked to thread"
  const ERR_MISSING_TID := "missing tid"
  const ERR_NOT_FUNC := "fn must be a function"
  const ERR_ARGS_KIND := "args must be a pointer or nil"
  const ERR_NOT_SAFE := "call not at safe point"
  const ERR_RUNTIME_STACK := "executing on Go runtime stack"
  const ERR_IN_RUNTIME := "call from within the Go runtime"

  /** Attempt `i` may be retried only while `i < MAX_RETRY`. */
  const MAX_RETRY := 100

  /** An M: its identity and the OS thread id it runs on (0 if unknown). */
  datatype M = M(id: nat, procid: u64)

  /** The target goroutine: the M it is locked to, if any. */
  datatype G = G(lockedm: Option<M>)

  datatype Kind = KindFunc | KindPtr | KindOther

  /** A dynamic type: its kind and, for a pointer type, the size of the
      pointed-to type. */
  datatype Type = Type(kind: Kind, elemSize: u64)

  /** An `any` value as the request carries it: nil, or a dynamic type with
      its data word. (`Eface` is an `any` as raw words in memory.) */
  datatype Any = NilAny | Value(typ: Type, data: u64)

  /** A request that passed validation. */
  datatype Request = Request(mp: nat, tid: u64, fv: u64, argp: u64, argSize: u64)

  predicate IsFunc(fn: Any)
  {
    fn.Value? && fn.typ.kind == KindFunc
  }

  predicate IsPointerOrNil(a: Any)
  {
    a.Value? ==> a.typ.kind == KindPtr
  }

  /** The request checks, in the order the source makes them; the first that
      fails decides the error. On success the argument frame size is that of
      the pointed-to type, or 0 when the frame pointer is nil. */
  function ValidateRequest(gp: G, fn: Any, stackArgs: Any): (r: Result<Request>)
    ensures r.Success? <==>
      gp.lockedm.Some? && gp.lockedm.value.procid != 0 && IsFunc(fn) && IsPointerOrNil(stackArgs)
    ensures gp.lockedm.None? ==> r == Failure(ERR_NOT_LOCKED)
    ensures gp.lockedm.Some? && gp.lockedm.value.procid == 0 ==> r == Failure(ERR_MISSING_TID)
    ensures gp.lockedm.Some? && gp.lockedm.value.procid != 0 && !IsFunc(fn) ==> r == Failure(ERR_NOT_FUNC)
    ensures gp.lockedm.Some? && gp.lockedm.value.procid != 0 && IsFunc(fn) && !IsPointerOrNil(stackArgs) ==>
      r == Failure(ERR_ARGS_KIND)
    ensures r.Success? ==>
      && r.value.mp == gp.lockedm.value.id
      && r.value.tid == gp.lockedm.value.procid
      && r.value.fv == fn.data
      && (stackArgs.NilAny? ==> r.value.argp == 0 && r.value.argSize == 0)
      && (stackArgs.Value? ==> r.value.argp == stackArgs.data)
      && (stackArgs.Value? && stackArgs.data == 0 ==> r.value.argSize == 0)
      && (stackArgs.Value? && stackArgs.data != 0 ==> r.value.argSize == stackArgs.typ.elemSize)
  {
    if gp.lockedm.None? then Failure(ERR_NOT_LOCKED)
    else if gp.lockedm.value.procid == 0 then Failure(ERR_MISSING_TID)
    else if fn.NilAny? || fn.typ.kind != KindFunc then Failure(ERR_NOT_FUNC)
    else if stackArgs.Value? && stackArgs.typ.kind != KindPtr then Failure(ERR_ARGS_KIND)
    else
      var argp := if stackArgs.Value? then stackArgs.data else 0;
      var argSize := if argp != 0 then stackArgs.typ.elemSize else 0;
      Success(Request(gp.lockedm.value.id, gp.lockedm.value.procid, fn.data, argp, argSize))
  }

  /** Each validation failure reports the source's own message, spelled out. */
  lemma ValidationMessages(id: nat, tid: u64, fn: Any, stackArgs: Any)
    ensures ValidateRequest(G(None), fn, stackArgs) == Failure("goroutine not locked to thread")
    ensures ValidateRequest(G(Some(M(id, 0))), fn, stackArgs) == Failure("missing tid")
    ensures tid != 0 && !IsFunc(fn) ==>
      ValidateRequest(G(Some(M(id, tid))), fn, stackArgs) == Failure("fn must be a function")
    ensures tid != 0 && IsFunc(fn) && !IsPointerOrNil(stackArgs) ==>
      ValidateRequest(G(Some(M(id, tid))), fn, stackArgs) == Failure("args must be a pointer or nil")
  {
  }

  /** What one attempt turned out to be. */
  datatype Attempt = Attempt(tkillErr: Option<string>, err: string, panicked: Option<Eface>)

  datatype Verdict = Succeed | Retry | GiveUp

  predicate IsTransient(err: string)
  {
    err == ERR_RETRY_RUNNABLE || err == ERR_RUNTIME_STACK || err == ERR_IN_RUNTIME
  }

  /** How the orchestrator treats the error left by attempt `i`. */
  function Classify(err: string, returnOnUnsafePoint: bool, i: nat): (v: Verdict)
    ensures v == Succeed <==> err == ""
    ensures v == Retry <==>
      i < MAX_RETRY && (IsTransient(err) || (err == ERR_NOT_SAFE && !returnOnUnsafePoint))
    ensures err == ERR_NOT_SAFE && returnOnUnsafePoint ==> v == GiveUp
  {
    if err == "" then Succeed
    else if err == ERR_NOT_SAFE && returnOnUnsafePoint then GiveUp
    else if (err == ERR_NOT_SAFE || IsTransient(err)) && i < MAX_RETRY then Retry
    else GiveUp
  }

  /** The orchestrator's return values and the number of `tkill` calls. */
  datatype CallResult = CallResult(value: Eface, err: Option<string>, signals: nat)

  /** The outcome of the retry loop from attempt `i` on, with `p` in
      `h.panic`. */
  function Outcome(attempts: seq<Attempt>, returnOnUnsafePoint: bool, i: nat, p: Eface): CallResult
    requires i <= MAX_RETRY < |attempts|
    decreases MAX_RETRY - i
  {
    var a := attempts[i];
    if a.tkillErr.Some? then CallResult(NIL_EFACE, a.tkillErr, i + 1)
    else
      var p' := if a.panicked.Some? then a.panicked.value else p;
      match Classify(a.err, returnOnUnsafePoint, i)
      case Succeed => CallResult(p', None, i + 1)
      case GiveUp => CallResult(NIL_EFACE, Some(a.err), i + 1)
      case Retry => Outcome(attempts, returnOnUnsafePoint, i + 1, p')
  }

  /** The whole of `InjectDebugCall`: validation, then the retry loop. */
  function InjectSpec(gp: G, fn: Any, stackArgs: Any, attempts: seq<Attempt>, returnOnUnsafePoint: bool): CallResult
    requires MAX_RETRY < |attempts|
  {
    match ValidateRequest(gp, fn, stackArgs)
    case Failure(e) => CallResult(NIL_EFACE, Some(e), 0)
    case Success(_) => Outcome(attempts, returnOnUnsafePoint, 0, NIL_EFACE)
  }

  /** `InjectDebugCall` */
  method InjectDebugCall(gp: G, fn: Any, regArgs: RegArgs?, stackArgs: Any,
                         attempts: seq<Attempt>, returnOnUnsafePoint: bool)
    returns (result: Eface, err: Option<string>, signals: nat)
    requires regArgs != null ==> regArgs.Valid()
    requires MAX_RETRY < |attempts|
    ensures CallResult(result, err, signals) == InjectSpec(gp, fn, stackArgs, attempts, returnOnUnsafePoint)
  {
    var req := ValidateRequest(gp, fn, stackArgs);
    if req.Failure? {
      return NIL_EFACE, Some(req.error), 0;
    }
    var rq := req.value;
    var h := new DebugCallHandler(rq.mp, rq.fv, regArgs, rq.argp, rq.argSize);
    signals := 0;
    var i := 0;
    while true
      invariant 0 <= i <= MAX_RETRY && signals == i
      invariant Outcome(attempts, returnOnUnsafePoint, i, h.panicVal) ==
        InjectSpec(gp, fn, stackArgs, attempts, returnOnUnsafePoint)
      decreases MAX_RETRY - i
    {
      h.Arm();
      var a := attempts[i];
      signals := signals + 1;
      if a.tkillErr.Some? {
        h.hook := NoHook;
        return NIL_EFACE, a.tkillErr, signals;
      }
      // The wait: the target thread's traps run h.Inject and h.Handle until
      // one of them sets h.done; what they leave in h is the attempt's outcome.
      h.err := a.err;
      if a.panicked.Some? {
        h.panicVal := a.panicked.value;
      }
      h.done := true;
      ghost var verdict := Classify(a.err, returnOnUnsafePoint, i);
      if h.err != "" {
        if h.err == ERR_NOT_SAFE && returnOnUnsafePoint {
          assert verdict == GiveUp;
          h.hook := NoHook;
          return NIL_EFACE, Some(h.err), signals;
        }
        if (h.err == ERR_NOT_SAFE || IsTransient(h.err)) && i < MAX_RETRY {
          assert verdict == Retry;
          i := i + 1;
          continue;
        }
        assert verdict == GiveUp;
        h.hook := NoHook;
        return NIL_EFACE, Some(h.err), signals;
      }
      assert verdict == Succeed;
      h.hook := NoHook;
      return h.panicVal, None, signals;
    }
  }

  /** At most 101 signals are ever sent. */
  lemma {:induction false} SignalsBounded(attempts: seq<Attempt>, returnOnUnsafePoint: bool, i: nat, p: Eface)
    requires i <= MAX_RETRY < |attempts|
    ensures i < Outcome(attempts, returnOnUnsafePoint, i, p).signals <= MAX_RETRY + 1
    decreases MAX_RETRY - i
  {
    var a := attempts[i];
    if a.tkillErr.None? && Classify(a.err, returnOnUnsafePoint, i) == Retry {
      SignalsBounded(attempts, returnOnUnsafePoint, i + 1, if a.panicked.Some? then a.panicked.value else p);
    }
  }

  /** The last attempt decides: the result is that of attempt `signals - 1`,
      an error comes with a nil value, and success means that attempt left
      `h.err` empty. */
  lemma {:induction false} LastAttemptDecides(attempts: seq<Attempt>, returnOnUnsafePoint: bool, i: nat, p: Eface)
    requires i <= MAX_RETRY < |attempts|
    ensures 1 <= Outcome(attempts, returnOnUnsafePoint, i, p).signals <= MAX_RETRY + 1
    ensures var r := Outcome(attempts, returnOnUnsafePoint, i, p); var last := attempts[r.signals - 1];
      && (r.err.Some? ==> r.value == NIL_EFACE)
      && (r.err.None? <==> last.tkillErr.None? && last.err == "")
      && (r.err.Some? ==> r.err == last.tkillErr || (last.tkillErr.None? && r.err == Some(last.err)))
      && (r.err.None? && last.panicked.Some? ==> r.value == last.panicked.value)
    decreases MAX_RETRY - i
  {
    var a := attempts[i];
    if a.tkillErr.None? && Classify(a.err, returnOnUnsafePoint, i) == Retry {
      LastAttemptDecides(attempts, returnOnUnsafePoint, i + 1, if a.panicked.Some? then a.panicked.value else p);
    }
  }

  /** "The panic value of fn or nil": a successful call whose attempts set no
      panic value returns the `h.panic` it started from, which is nil for
      the fresh handler `InjectDebugCall` builds. */
  lemma {:induction false} NoPanicReturnsStart(attempts: seq<Attempt>, returnOnUnsafePoint: bool, i: nat, p: Eface)
    requires i <= MAX_RETRY < |attempts|
    ensures var r := Outcome(attempts, returnOnUnsafePoint, i, p);
      r.err.None? && (forall j :: i <= j < r.signals && j < |attempts| ==> attempts[j].panicked.None?) ==>
        r.value == p
    decreases MAX_RETRY - i
  {
    SignalsBounded(attempts, returnOnUnsafePoint, i, p);
    var a := attempts[i];
    if a.tkillErr.None? && Classify(a.err, returnOnUnsafePoint, i) == Retry {
      NoPanicReturnsStart(attempts, returnOnUnsafePoint, i + 1, if a.panicked.Some? then a.panicked.value else p);
    }
  }

  /** A goroutine that never leaves its transient state makes every attempt
      from `i` to 100 fail transiently, and the last transient error is
      returned after exactly 101 signals in all. */
  lemma {:induction false} TransientExhaustsRetries(attempts: seq<Attempt>, returnOnUnsafePoint: bool, i: nat, p: Eface)
    requires i <= MAX_RETRY < |attempts|
    requires forall j :: i <= j <= MAX_RETRY ==> attempts[j].tkillErr.None? && IsTransient(attempts[j].err)
    ensures Outcome(attempts, returnOnUnsafePoint, i, p) == CallResult(NIL_EFACE, Some(attempts[MAX_RETRY].err), MAX_RETRY + 1)
    decreases MAX_RETRY - i
  {
    var a := attempts[i];
    if i < MAX_RETRY {
      TransientExhaustsRetries(attempts, returnOnUnsafePoint, i + 1, if a.panicked.Some? then a.panicked.value else p);
    }
  }

  /** A goroutine that fails transiently on attempts `i..k-1` and completes
      the call on attempt `k <= 100` makes the injection succeed after
      `k + 1` signals, with the panic value of that attempt if it set one. */
  lemma {:induction false} SucceedsAfterTransients(attempts: seq<Attempt>, returnOnUnsafePoint: bool, i: nat, k: nat, p: Eface)
    requires i <= k <= MAX_RETRY < |attempts|
    requires forall j :: i <= j < k ==> attempts[j].tkillErr.None? && IsTransient(attempts[j].err)
    requires attempts[k].tkillErr.None? && attempts[k].err == ""
    ensures var r := Outcome(attempts, returnOnUnsafePoint, i, p);
      && r.err == None && r.signals == k + 1
      && (attempts[k].panicked.Some? ==> r.value == attempts[k].panicked.value)
    decreases k - i
  {
    var a := attempts[i];
    if i < k {
      SucceedsAfterTransients(attempts, returnOnUnsafePoint, i + 1, k, if a.panicked.Some? then a.panicked.value else p);
    }
  }

  /** When the caller asks to see unsafe points, an unsafe point is reported
      on the attempt that met it, with no retry. */
  lemma UnsafePointSurfaced(attempts: seq<Attempt>, i: nat, p: Eface)
    requires i <= MAX_RETRY < |attempts|
    requires attempts[i].tkillErr.None? && attempts[i].err == ERR_NOT_SAFE
    ensures Outcome(attempts, true, i, p) == CallResult(NIL_EFACE, Some(ERR_NOT_SAFE), i + 1)
  {
  }

  /** Otherwise an unsafe point is retried like a transient state. */
  lemma UnsafePointRetried(attempts: seq<Attempt>, i: nat, p: Eface)
    requires i < MAX_RETRY < |attempts|
    requires attempts[i].tkillErr.None? && attempts[i].err == ERR_NOT_SAFE
    ensures Outcome(attempts, false, i, p) ==
      Outcome(attempts, false, i + 1, if attempts[i].panicked.Some? then attempts[i].panicked.value else p)
  {
  }

  /** A failed `tkill` and any error that is neither transient nor the unsafe
      point end the call on that attempt, with the error unchanged. */
  lemma NoRetryOnOtherErrors(attempts: seq<Attempt>, returnOnUnsafePoint: bool, i: nat, p: Eface)
    requires i <= MAX_RETRY < |attempts|
    requires attempts[i].tkillErr.Some? ||
      (attempts[i].err != "" && !IsTransient(attempts[i].err) && attempts[i].err != ERR_NOT_SAFE)
    ensures Outcome(attempts, returnOnUnsafePoint, i, p).signals == i + 1
    ensures Outcome(attempts, returnOnUnsafePoint, i, p).err ==
      if attempts[i].tkillErr.Some? then attempts[i].tkillErr else Some(attempts[i].err)
  {
  }

  /** An invalid request is answered before any signal is sent. */
  lemma InvalidRequestSendsNothing(gp: G, fn: Any, stackArgs: Any, attempts: seq<Attempt>, returnOnUnsafePoint: bool)
    requires MAX_RETRY < |attempts|
    requires ValidateRequest(gp, fn, stackArgs).Failure?
    ensures InjectSpec(gp, fn, stackArgs, attempts, returnOnUnsafePoint) ==
      CallResult(NIL_EFACE, Some(ValidateRequest(gp, fn, stackArgs).error), 0)
  {
  }

  /** The errors `inject` and `handle` set are classified as the retry loop
      needs: the runnable state is retried, the protocol violations are not. */
  lemma HandlerErrorsClassified(returnOnUnsafePoint: bool, i: nat)
    ensures i < MAX_RETRY ==> Classify(ERR_RETRY_RUNNABLE, returnOnUnsafePoint, i) == Retry
    ensures Classify(ERR_INJECT_STATE, returnOnUnsafePoint, i) == GiveUp
    ensures Classify(ERR_BAD_STATUS, returnOnUnsafePoint, i) == GiveUp
  {
  }
}
