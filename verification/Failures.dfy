/** How failures come out: what an action reports, what stops a contract, and what the node is told. */
module Failures {
  import opened Overflow
  import opened Wrappers
  import opened Types
  import opened OutputModel
  import opened HostModel
  import opened OutputGrowth
  import opened StorageCache
  import opened Frames
  import opened GasLedger
  import opened GasConservation
  import opened Transactions
  import opened Effects
  import opened TransactionEffects
  import opened GasCosts
  import opened AsyncCalls

  // ---------------------------------------------------------------- errors and codes

  /** Which errors each return code stands for; every other error is a failed execution. */
  lemma CodesOfErrors(e: Error)
    ensures var c := ReturnCodeOf(e);
      && !c.Ok?
      && (c.OutOfGas? <==> e.ErrNotEnoughGas?)
      && (c.OutOfFunds? <==> e.ErrTransferInsufficientFunds?)
      && (c.ContractNotFound? <==> e.ErrContractNotFound?)
      && (c.ContractInvalid? <==> e.ErrContractInvalid?)
      && (c.FunctionNotFound? <==> e.ErrFuncNotFound?)
      && (c.UserError? <==> e.ErrSignalError? || e.ErrInitFuncCalledInRun? || e.ErrCallBackFuncCalledInRun?)
  {
  }

  /** The receiver of an answer can tell the codes apart by their texts. */
  lemma CodesDiffer(c: ReturnCode, d: ReturnCode)
    ensures c != d ==> ReturnCodeText(c) != ReturnCodeText(d)
  {
    CodeLength(c);
    CodeLength(d);
  }

  /** Length and first letter are enough. */
  lemma CodeLength(c: ReturnCode)
    ensures var s := ReturnCodeText(c);
      && s != ""
      && (|s|, s[0]) == match c
                        case Ok => (2, 'o')
                        case FunctionNotFound => (18, 'f')
                        case ContractNotFound => (18, 'c')
                        case UserError => (10, 'u')
                        case OutOfGas => (10, 'o')
                        case OutOfFunds => (12, 'o')
                        case ContractInvalid => (16, 'c')
                        case ExecutionFailed => (16, 'e')
  {
  }

  /** An error output carries nothing but the code and a message: the one already reported, or that
      of the error; a signal reports its own, even when it is empty. */
  lemma ErrorOutputSays(o: VMOutput, e: Error)
    ensures var out := ErrorOutput(o, e);
      && out == VMOutput([], ReturnCodeOf(e), out.returnMessage, 0, Some(0), map[], [])
      && (o.returnMessage != "" || e.ErrSignalError? ==> out.returnMessage == o.returnMessage)
      && (o.returnMessage == "" && !e.ErrSignalError? ==> out.returnMessage == ErrorText(e))
  {
  }

  /** A failed API call takes all gas left, and changes nothing else but code and message. */
  lemma FaultStops(env: Env, h: Host, e: Error)
    requires Ready(env, h) && Metered(h)
    ensures var r := Fault(h, e);
      && r.err == Some(ErrExecutionFailed) && GasLeft(r.host) == 0
      && r.host == h.(runtime := r.host.runtime, output := h.output.(state := h.output.state.(
                        returnCode := ExecutionFailed, returnMessage := ErrorText(e))))
      && PointsUsed(r.host.runtime) == PointsUsed(h.runtime) + GasLeft(h)
  {
    hide LiveCount, Sound;
  }

  // ---------------------------------------------------------------- actions

  /** When an action that makes no call succeeds. */
  predicate Succeeds(env: Env, h: Host, a: Action) {
    match a
    case Transfer(dest, value, gasLimit, _) =>
      && 0 <= value <= Spendable(env, h.output.state, h.runtime.state.scAddress)
      && Accepts(env, dest, value, h.runtime.state.vmInput.callType.AsynchronousCall?, gasLimit > 0)
    case SetStorage(key, _) => h.runtime.state.readOnly || Writable(env, h, key)
    case Fail(_) => false
    case Signal(_) => false
    case _ => true
  }

  /** Why it does not. */
  function Cause(env: Env, h: Host, a: Action): Error {
    match a
    case Transfer(dest, value, _, _) =>
      if value < 0 then ErrTransferNegativeValue
      else if Spendable(env, h.output.state, h.runtime.state.scAddress) < value then ErrTransferInsufficientFunds
      else if dest !in env.payable then ErrPayableLookup else ErrAccountNotPayable
    case SetStorage(key, _) =>
      if HasPrefix(key, env.protectedKeyPrefix) then ErrStoreReservedKey else ErrCannotWriteProtectedKey
    case Fail(e) => e
    case _ => ErrSignalError
  }

  lemma LocalErrors(env: Env, h: Host, a: Action)
    requires Ready(env, h) && !a.CallDest? && !a.CallSame? && !a.Async?
    ensures var r := LocalAction(env, h, a);
      && (r.err.None? <==> Succeeds(env, h, a))
      && (r.err.Some? ==>
            var o := r.host.output.state;
            if a.Signal? then r.err == Some(ErrSignalError) && o.returnCode.UserError? && o.returnMessage == a.message
            else && r.err == Some(ErrExecutionFailed) && o.returnCode.ExecutionFailed?
                 && o.returnMessage == ErrorText(Cause(env, h, a)))
  {
    hide TransferValueOnly, WriteStorage, ReadStorage, ReadStorageFromAddress, UseGasOn, Sound, LiveCount, ErrorText;
    SoundWhenReady(env, h);
    if a.Transfer? {
      TransferMoves(env, h.output.state, h.runtime.state.vmInput.callType.AsynchronousCall?, a.destination,
                    h.runtime.state.scAddress, a.amount, a.gasLimit > 0);
    } else if a.SetStorage? {
      WriteStorageRefines(env, h, a.key, a.content);
    }
  }

  predicate TransferError(e: Error) {
    e in {ErrTransferNegativeValue, ErrTransferInsufficientFunds, ErrPayableLookup, ErrAccountNotPayable}
  }

  /** What can stop a body: a failed call into the host, a signal, an asynchronous call that cannot
      be parsed or whose value cannot be transferred. */
  lemma {:induction false} BodyErrors(env: Env, h: Host, s: Script)
    ensures var r := RunBody(env, h, s);
      r.err.Some? ==>
        r.err.value in {ErrExecutionFailed, ErrSignalError, ErrInvalidCallData} || TransferError(r.err.value)
    decreases s
  {
    hide ExecuteOnDest, ExecuteOnSame, CallInputOf, UseGasOn, TransferOut, WriteStorage, ReadStorage,
      ReadStorageFromAddress, RunAsync;
    if s.Then? {
      if s.first.Async? {
        AsyncErrors(env, h, s.first.async);
      } else {
        BodyErrors(env, AfterAction(env, h, s.first).host, s.rest);
      }
    }
  }

  lemma AsyncErrors(env: Env, h: Host, c: AsyncCall)
    ensures var r := RunAsync(env, h, c);
      r.err.Some? ==> r.err.value in {ErrExecutionFailed, ErrInvalidCallData} || TransferError(r.err.value)
  {
    hide ExecuteOnDest, UseGasOn, GetCode, GasLockedForAsync, ForwardGas, Balance, AddDelta, CallbackInput,
      DestinationInput, ReportCallback;
  }

  /** How an asynchronous call ends its contract: with an error if gas is short or its data cannot be
      parsed; one that leaves the shard with the error of its transfer; one that runs here never. */
  lemma AsyncOutcome(env: Env, h: Host, c: AsyncCall)
    requires Ready(env, h) && Metered(h)
    ensures var lock := if h.runtime.state.scAddress in env.withCallback then LockPrice(env, h) else 0;
      var prepared := GasLeft(h) > env.gas.asyncCallStep + lock;
      var spendable := Spendable(env, h.output.state, h.runtime.state.scAddress);
      var async := h.runtime.state.vmInput.callType.AsynchronousCall?;
      var err := RunAsync(env, h, c).err;
      && (!prepared ==> err == Some(ErrExecutionFailed))
      && (prepared && c.parsed.None? ==> err == Some(ErrInvalidCallData))
      && (prepared && c.parsed.Some? && HasCode(env, c.destination) ==> err.None?)
      && (prepared && c.parsed.Some? && !HasCode(env, c.destination) ==>
            err == if c.value < 0 then Some(ErrTransferNegativeValue)
                   else if spendable < c.value then Some(ErrTransferInsufficientFunds)
                   else if c.destination !in env.payable then Some(ErrPayableLookup)
                   else if !Accepts(env, c.destination, c.value, async, true) then Some(ErrAccountNotPayable) else None)
  {
    hide Ready, Kept, PrepareAsync, ExecuteOnDest, GetCode, SendAsync, DestinationInput, HasCode, LockPrice, Grows;
    CallerInstance(env, h);
    AsyncGasSplit(env, h, c.destination, c.data, c.value);
    PrepareAsyncKept(env, h, c.destination, c.data, c.value);
    PrepareAsyncShows(env, h, c.destination, c.data, c.value);
    PrepareFails(env, h, c);
    var p := PrepareAsync(env, h, c.destination, c.data, c.value);
    if p.err.None? && c.parsed.Some? {
      SelfKept(env, h, p.host);
      AsyncKeepsInput(env, h, c);
      SoundWhenReady(env, p.host);
      CodeToGet(env, p.host.output.state, c.destination);
      CodeUnseen(env, p.host.output.state, c.destination);
      GetCodeGrows(env, p.host.output.state, c.destination);
      var o := GetCode(env, p.host.output.state, c.destination).0;
      SoundOfGrown(env, p.host.output.state, o);
      SendErrors(env, WithOutput(p.host, o), AsyncInfoOf(p.host));
      SameSpendable(env, p.host.output.state, o, h.runtime.state.scAddress);
    }
  }

  lemma PrepareFails(env: Env, h: Host, c: AsyncCall)
    ensures var p := PrepareAsync(env, h, c.destination, c.data, c.value);
      p.err.Some? ==> p.err == Some(ErrExecutionFailed)
  {
    hide GasLockedForAsync, UseGasOn;
  }

  lemma AsyncKeepsInput(env: Env, h: Host, c: AsyncCall)
    ensures var p := PrepareAsync(env, h, c.destination, c.data, c.value);
      p.err.None? ==> p.host.runtime.state.vmInput == h.runtime.state.vmInput
  {
    hide GasLockedForAsync;
  }

  lemma SameSpendable(env: Env, o: VMOutput, p: VMOutput, a: Address)
    requires Unseen(env, o, p)
    ensures Spendable(env, p, a) == Spendable(env, o, a)
  {
    assert WatchOf(env, p, a, "").delta == WatchOf(env, o, a, "").delta;
  }

  lemma SendErrors(env: Env, h: Host, info: AsyncCallInfo)
    requires Sound(env, h.output.state) && info.gasLimit > 0
    ensures var async := h.runtime.state.vmInput.callType.AsynchronousCall?;
      SendAsync(env, h, info).err
      == if info.value < 0 then Some(ErrTransferNegativeValue)
         else if Spendable(env, h.output.state, h.runtime.state.scAddress) < info.value
         then Some(ErrTransferInsufficientFunds)
         else if info.destination !in env.payable then Some(ErrPayableLookup)
         else if !Accepts(env, info.destination, info.value, async, true) then Some(ErrAccountNotPayable) else None
  {
    hide TransferValueOnly, Sound, UseGasOn, ForwardGas;
    TransferMoves(env, h.output.state, h.runtime.state.vmInput.callType.AsynchronousCall?, info.destination,
                  h.runtime.state.scAddress, info.value, true);
  }

  /** The message of the signal that stops a body. */
  ghost function SignalOf(env: Env, h: Host, s: Script): Option<string>
    decreases s
  {
    if s.Done? || s.first.Async? then None
    else if s.first.Signal? then Some(s.first.message)
    else
      var r := AfterAction(env, h, s.first);
      if r.err.Some? then None else SignalOf(env, r.host, s.rest)
  }

  lemma {:induction false} SignalStops(env: Env, h: Host, s: Script)
    ensures var r := RunBody(env, h, s);
      && (r.err == Some(ErrSignalError) <==> SignalOf(env, h, s).Some?)
      && (SignalOf(env, h, s).Some? ==> r.host.output.state.returnMessage == SignalOf(env, h, s).value)
    decreases s
  {
    hide ExecuteOnDest, ExecuteOnSame, CallInputOf, UseGasOn, TransferOut, WriteStorage, ReadStorage,
      ReadStorageFromAddress, RunAsync;
    if s.Then? {
      if s.first.Async? {
        AsyncErrors(env, h, s.first.async);
      } else {
        SignalStops(env, AfterAction(env, h, s.first).host, s.rest);
      }
    }
  }

  // ---------------------------------------------------------------- starting contracts

  /** There is code, and gas for loading it; the source's cost saturates. */
  predicate Loads(env: Env, a: Address, gas: uint64) {
    HasCode(env, a) && (LoadCost(env, a) <= gas || gas == MAX_U64)
  }

  /** Why a contract cannot be started: each reason on its own condition, in this order. */
  lemma StartErrors(env: Env, f: Host, start: Start)
    requires Sound(env, f.output.state)
    ensures var a := f.runtime.state.scAddress;
      var loads := Loads(env, a, f.runtime.state.vmInput.gasProvided);
      var room := |f.runtime.instanceStack| < env.maxInstances;
      var e := LoadAndStart(env, f, start).err;
      && (e == Some(ErrInvalidAccount) <==> a !in env.accounts)
      && (e == Some(ErrContractNotFound) <==> a in env.accounts && !HasCode(env, a))
      && (e == Some(ErrNotEnoughGas) <==> HasCode(env, a) && !loads)
      && (e == Some(ErrMaxInstancesReached) <==> loads && !room)
      && (e == Some(ErrInstanceCreation) <==> loads && room && (start.BuildFailed? || start.HashFailed?))
      && (e.None? <==> loads && room && !start.BuildFailed? && !start.HashFailed?)
  {
    hide InitialCost, LiveCount, LoadCost, Sound;
    var a := f.runtime.state.scAddress;
    CodeErrors(env, f.output.state, a);
    if HasCode(env, a) {
      InitialCostIsLoadCost(env, f.output.state, a);
    }
  }

  lemma CodeErrors(env: Env, o: VMOutput, a: Address)
    requires Sound(env, o)
    ensures var e := GetCode(env, o, a).2;
      && (e == Some(ErrInvalidAccount) <==> a !in env.accounts)
      && (e == Some(ErrContractNotFound) <==> a in env.accounts && !HasCode(env, a))
      && (e.None? <==> HasCode(env, a))
  {
    if a in o.accounts {
      assert AccountSound(env, a, o.accounts[a]);
    }
  }

  /** The same for a callee, whose function may not be init, and must exist unless it is the callback. */
  lemma CalleeErrors(env: Env, t: Host, input: CallInput, start: Start)
    requires Sound(env, t.output.state) && t.runtime.state.callFunction == input.callFunction
    ensures var a := t.runtime.state.scAddress;
      var refused := input.callFunction.Init? && !input.allowInit;
      var loads := !refused && Loads(env, a, t.runtime.state.vmInput.gasProvided);
      var room := |t.runtime.instanceStack| < env.maxInstances;
      var starts := loads && room && !start.BuildFailed? && !start.HashFailed?;
      var e := Prepare(env, t, input, start).err;
      && (e == Some(ErrInitFuncCalledInRun) <==> refused)
      && (e == Some(ErrInvalidAccount) <==> !refused && a !in env.accounts)
      && (e == Some(ErrContractNotFound) <==> !refused && a in env.accounts && !HasCode(env, a))
      && (e == Some(ErrNotEnoughGas) <==> !refused && HasCode(env, a) && !loads)
      && (e == Some(ErrMaxInstancesReached) <==> loads && !room)
      && (e == Some(ErrInstanceCreation) <==> loads && room && !starts)
      && (e == Some(ErrFuncNotFound) <==> starts && start.FunctionMissing? && !input.callFunction.CallBack?)
      && (e.None? <==> starts && (!start.FunctionMissing? || input.callFunction.CallBack?))
  {
    hide LoadAndStart, Loads, Sound, HasCode;
    StartErrors(env, UseGasOn(t, input.vmInput.gasProvided), start);
  }

  /** A call is entered exactly when its caller can pay and the node knows whether the recipient is
      payable; whether it is does not matter. A callback that carries value is always entered. */
  lemma EntryErrors(env: Env, h: Host, input: CallInput)
    requires Ready(env, h)
    ensures var v := input.vmInput;
      var pays := 0 <= v.callValue <= Spendable(env, h.output.state, v.callerAddr) && input.recipient in env.payable;
      && (DestEntry(env, h, input).err.None?
          <==> pays || (v.callType.AsynchronousCallBack? && v.callValue != 0))
      && (SameEntry(env, h, input).err.None? <==> pays)
  {
    hide Ready, TransferValueOnly, TotalDelta, Sound, CurrentTotalUsedGas, Snapshot;
    SoundWhenReady(env, h);
    SoundIsValid(env, h.output.state);
    SnapshotIsIdentity(h.output.state);
    CensoredGrows(env, h.output.state);
    var v := input.vmInput;
    EntryTransfers(env, EnterDest(h, input), input);
    EntryTransfers(env, EnterSame(h, input), input);
  }

  lemma EntryTransfers(env: Env, f: Host, input: CallInput)
    requires Sound(env, f.output.state)
    ensures TransferOnEntry(env, f, input).err.None?
            <==> 0 <= input.vmInput.callValue <= Spendable(env, f.output.state, input.vmInput.callerAddr)
                 && input.recipient in env.payable
  {
    hide TransferValueOnly, Sound;
    TransferMoves(env, f.output.state, f.runtime.state.vmInput.callType.AsynchronousCall?, input.recipient,
                  input.vmInput.callerAddr, input.vmInput.callValue, false);
  }

  // ---------------------------------------------------------------- transactions

  /** The root contract's function can be run. */
  predicate CanRun(env: Env, input: CallInput, start: Start) {
    && env.gas.getCode <= input.vmInput.gasProvided && Loads(env, input.recipient, input.vmInput.gasProvided)
    && env.maxInstances > 0 && !start.BuildFailed? && !start.HashFailed?
    && input.callFunction.Method? && !start.FunctionMissing?
  }

  /** What the node is told: the codes that say why a contract was not run occur in these cases and
      no others; a transaction that failed hands out nothing but its code and message. */
  lemma TransactionCodes(env: Env, h: Host, input: CallInput, start: Start, body: Script)
    requires Quiescent(h) && input.vmInput.callValue >= 0 && !input.vmInput.callType.AsynchronousCallBack?
    ensures var r := RunSmartContractCall(env, h, input, start, body);
      var gas := input.vmInput.gasProvided;
      var loads := env.gas.getCode <= gas && Loads(env, input.recipient, gas);
      var starts := loads && env.maxInstances > 0 && !start.BuildFailed? && !start.HashFailed?;
      var code := r.output.returnCode;
      && (code.ContractNotFound? <==> env.gas.getCode <= gas && !HasCode(env, input.recipient))
      && (code.ContractInvalid? <==> loads && !starts)
      && (code.FunctionNotFound? <==> starts && input.callFunction.Method? && start.FunctionMissing?)
      && (!loads && HasCode(env, input.recipient) ==> code.OutOfGas?)
      && (gas < env.gas.getCode ==> code.OutOfGas?)
      && (starts && !input.callFunction.Method? ==> code.UserError?)
      && (code.Ok? ==> CanRun(env, input, start))
      && (!code.Ok? ==> r.output == VMOutput([], code, r.output.returnMessage, 0, Some(0), map[], []))
  {
    hide EnterRoot, LoadAndStart, RunBody, SendCallback, GetVMOutput, Loads, HasCode, Ready, Within;
    EnterRootWithin(env, h, input);
    var h1 := EnterRoot(h, input);
    EnteredRoot(env, h, input);
    StartErrors(env, h1, start);
    var p := LoadAndStart(env, h1, start).host;
    BodyErrors(env, p, body);
    AnswerErrors(env, RunBody(env, p, body).host);
    RootEndsOk(env, h, input, start, body);
    FailedOutput(RootFrame(env, h, input, start, body).host);
  }

  lemma RootEndsOk(env: Env, h: Host, input: CallInput, start: Start, body: Script)
    requires Quiescent(h) && input.vmInput.callValue >= 0 && !input.vmInput.callType.AsynchronousCallBack?
    ensures var f := RootFrame(env, h, input, start, body); f.err.None? ==> f.host.output.state.returnCode.Ok?
  {
    hide EnterRoot, LoadAndStart, RunBody, Ready, Within, TransferOut, UseGasOn;
    EnterRootWithin(env, h, input);
    RootStarts(env, h, input, EnterRoot(h, input), start);
    StartKeepsCode(env, EnterRoot(h, input), start);
    var p := LoadAndStart(env, EnterRoot(h, input), start);
    if p.err.None? {
      BodyEndsOk(env, p.host, body);
      AnswerKeepsCode(env, RunBody(env, p.host, body).host);
    }
  }

  lemma StartKeepsCode(env: Env, f: Host, start: Start)
    ensures LoadAndStart(env, f, start).host.output.state.returnCode == f.output.state.returnCode
  {
    hide InitialCost, LiveCount;
  }

  lemma AnswerKeepsCode(env: Env, h: Host)
    ensures var r := SendCallback(env, h);
      r.err.None? ==> r.host.output.state.returnCode == h.output.state.returnCode
  {
    hide UseGasOn, Balance, AddDelta, AnswerData, TransferOut;
    var v := h.runtime.state.vmInput;
    TransferOutLedger(env, h.output.state, v.callType.AsynchronousCall?, v.callerAddr, h.runtime.state.scAddress,
                      GasLeft(h), 0, v.callValue, AnswerData(h.output.state), AsynchronousCallBack);
    var (o, err) := TransferOut(env, h.output.state, v.callType.AsynchronousCall?, v.callerAddr,
                                h.runtime.state.scAddress, GasLeft(h), 0, v.callValue, AnswerData(h.output.state),
                                AsynchronousCallBack);
    assert err.None? ==> SendCallback(env, h).host.output.state.returnCode == o.returnCode by { AnswerOutput(env, h); }
  }

  lemma AnswerOutput(env: Env, h: Host)
    ensures var v := h.runtime.state.vmInput;
      var (o, err) := TransferOut(env, h.output.state, v.callType.AsynchronousCall?, v.callerAddr,
                                  h.runtime.state.scAddress, GasLeft(h), 0, v.callValue, AnswerData(h.output.state),
                                  AsynchronousCallBack);
      err.None? ==> SendCallback(env, h).host.output.state == o
  {
    hide SetPointsUsed, TransferOut, AnswerData;
  }

  lemma EnteredRoot(env: Env, h: Host, input: CallInput)
    requires Quiescent(h)
    ensures var h1 := EnterRoot(h, input);
      && h1.runtime.state.scAddress == input.recipient && h1.runtime.state.vmInput == input.vmInput
      && h1.runtime.instanceStack == []
    ensures Within(env, h, input, EnterRoot(h, input)) ==> Sound(env, EnterRoot(h, input).output.state)
  {
  }

  lemma AnswerErrors(env: Env, h: Host)
    ensures var r := SendCallback(env, h); r.err.Some? ==> TransferError(r.err.value)
  {
    hide UseGasOn, ForwardGas, Balance, AddDelta, AnswerData;
  }

  lemma FailedOutput(f: Host)
    ensures var out := GetVMOutput(f).1;
      f.output.state.returnCode.Ok? && !out.returnCode.Ok? ==>
        out == VMOutput([], ExecutionFailed, out.returnMessage, 0, Some(0), map[], [])
  {
    hide CurrentTotalUsedGas, WithoutCode, GasUsedByContract;
  }

  /** A script that signals an error ends the transaction with a user error and its message. */
  lemma SignalReported(env: Env, h: Host, input: CallInput, start: Start, body: Script)
    requires Quiescent(h) && input.vmInput.callValue >= 0 && !input.vmInput.callType.AsynchronousCallBack?
    requires CanRun(env, input, start)
    ensures var signal := SignalOf(env, RootStarted(env, h, input, start), body);
      var out := RunSmartContractCall(env, h, input, start, body).output;
      && (out.returnCode.UserError? <==> signal.Some?)
      && (signal.Some? ==> out.returnMessage == signal.value)
  {
    hide EnterRoot, LoadAndStart, RunBody, SendCallback, GetVMOutput, Loads, HasCode, SignalOf, Within;
    EnterRootWithin(env, h, input);
    EnteredRoot(env, h, input);
    StartErrors(env, EnterRoot(h, input), start);
    var p := RootStarted(env, h, input, start);
    BodyErrors(env, p, body);
    SignalStops(env, p, body);
    AnswerErrors(env, RunBody(env, p, body).host);
    RootEndsOk(env, h, input, start, body);
    FailedOutput(RootFrame(env, h, input, start, body).host);
  }
}
