/** The host: five contexts, and the methods that push, run, finish and pop nested calls. */
module HostObjects {
  import opened Overflow
  import opened Wrappers
  import opened Types
  import opened OutputModel
  import opened AnswerText
  import opened HostModel
  import opened OutputGrowth
  import opened Frames
  import opened GasConservation
  import opened StorageCache
  import opened Transactions
  import opened MachineContexts
  import opened BigIntObjects
  import opened OutputObjects

  ghost function Replaced(h: Host, a: Address, key: Bytes, value: Bytes, e: StorageEffect): Host
    requires a in h.output.state.accounts
  {
    var acc := h.output.state.accounts[a];
    var o := SetAccount(h.output.state, a, acc.(storage := acc.storage[key := value]));
    UseGasOn(WithOutput(h, if e.freed.Some? then HostModel.FreeGas(o, e.freed.value) else o), e.used)
  }

  lemma OutputPartOfCallee(h: Host, err: Option<Error>)
    ensures HostModel.CalleeOutput(h, err).0.output.stack == h.output.stack
  {
  }

  lemma ReadyIsKeyed(env: Env, h: Host)
    requires Ready(env, h)
    ensures WellKeyed(h.output.state.accounts)
  {
    SoundIsValid(env, h.output.state);
  }

  /** What finishing a frame relies on. */
  lemma InsideIsKeyed(env: Env, h: Host, f: Host, own: bool, err: Option<Error>)
    requires Ready(env, h) && Inside(env, h, f, own)
    ensures f.bigInt.stack != [] && f.output.stack != []
    ensures WellKeyed(HostModel.CalleeOutput(f, err).0.output.state.accounts)
    ensures WellKeyed(f.output.stack[|f.output.stack| - 1].accounts)
  {
    hide TotalDelta, Extends, Sound, HostModel.GetVMOutput;
    GetVMOutputGrows(env, f);
    SoundIsValid(env, h.output.state);
    assert Sound(env, f.output.state) && Sound(env, HostModel.CalleeOutput(f, err).0.output.state);
    SoundIsValid(env, HostModel.CalleeOutput(f, err).0.output.state);
  }

  lemma ErrOfFinishSame(r: BodyResult)
    ensures HostModel.FinishSame(r.host, r.err).1 == r.err
  {
  }

  ghost function CallHere(env: Env, h: Host, info: AsyncCallInfo, c: AsyncCall): BodyResult
    requires c.parsed.Some?
  {
    var d := ExecuteOnDest(env, h, DestinationInput(h, c, info), c.start, c.body);
    HostModel.RunCallback(env, d.host, info, d.output, d.err.None? && d.output.returnCode.Ok?, c)
  }

  lemma RunAsyncSplits(env: Env, h: Host, c: AsyncCall)
    ensures HostModel.RunAsync(env, h, c) ==
            var p := PrepareAsync(env, h, c.destination, c.data, c.value);
            if p.err.Some? then p
            else if c.parsed.None? then BodyResult(p.host, Some(ErrInvalidCallData))
            else
              var (o, code, err) := HostModel.GetCode(env, p.host.output.state, c.destination);
              if err.Some? then SendAsync(env, WithOutput(p.host, o), AsyncInfoOf(p.host))
              else CallHere(env, WithOutput(p.host, o), AsyncInfoOf(p.host), c)
  {
    hide PrepareAsync, ExecuteOnDest, SendAsync, HostModel.GetCode, HostModel.RunCallback, AsyncInfoOf,
      DestinationInput;
  }

  lemma AfterGetCode(env: Env, h: Host, a: Address)
    requires Ready(env, h)
    ensures Ready(env, WithOutput(h, HostModel.GetCode(env, h.output.state, a).0))
  {
    hide HostModel.GetCode, Grows;
    GetCodeGrows(env, h.output.state, a);
    WithOutputKept(env, h, HostModel.GetCode(env, h.output.state, a).0);
    KeptReady(env, h, WithOutput(h, HostModel.GetCode(env, h.output.state, a).0));
  }

  ghost function StepOf(env: Env, h: Host, a: Action): BodyResult
    requires !a.Async?
  {
    if a.CallDest? then
      BodyResult(ExecuteOnDest(env, h, CallInputOf(h, a.call), a.call.start, a.call.body).host, None)
    else if a.CallSame? then
      BodyResult(ExecuteOnSame(env, h, CallInputOf(h, a.call), a.call.start, a.call.body).0, None)
    else HostModel.LocalAction(env, h, a)
  }

  lemma RunBodySplits(env: Env, h: Host, s: Script)
    ensures s.Done? ==> HostModel.RunBody(env, h, s) == BodyResult(h, None)
    ensures s.Then? && s.first.Async? ==> HostModel.RunBody(env, h, s) == HostModel.RunAsync(env, h, s.first.async)
    ensures s.Then? && !s.first.Async? ==>
              var r := StepOf(env, h, s.first);
              HostModel.RunBody(env, h, s) == if r.err.Some? then r else HostModel.RunBody(env, r.host, s.rest)
  {
    hide ExecuteOnDest, ExecuteOnSame, HostModel.RunAsync, HostModel.LocalAction, CallInputOf;
  }

  lemma StepKeepsReady(env: Env, h: Host, a: Action)
    requires Ready(env, h) && !a.Async?
    ensures Ready(env, StepOf(env, h, a).host)
  {
    hide Ready, Kept, RolledBack, ExecuteOnDest, ExecuteOnSame, HostModel.LocalAction, CallInputOf;
    if a.CallDest? {
      DestCallKept(env, h, CallInputOf(h, a.call), a.call.start, a.call.body);
    } else if a.CallSame? {
      SameCallKept(env, h, CallInputOf(h, a.call), a.call.start, a.call.body);
    } else {
      LocalActionKept(env, h, a);
    }
    KeptReady(env, h, StepOf(env, h, a).host);
  }

  ghost function CallbackDone(h: Host, d: VMOutput, err: Option<Error>, ok: bool, consumed: uint64): Host {
    var h1 := if err.None? && d.returnCode.Ok? && ok then UseGasOn(h, consumed) else h;
    if err.None? then h1 else ReportCallback(h1, d)
  }

  ghost function GasReturned(h: Host, ok: bool, remaining: uint64): Host {
    var spent := if ok then GasSpentByContract(h) else 0;
    var popped := h.(bigInt := PopBigInt(h.bigInt), metering := PopMetering(h.metering),
                     runtime := PopRuntime(h.runtime), storage := PopStorage(h.storage));
    var restored := HostModel.RestoreGas(popped, remaining);
    HostModel.ForwardGas(restored, restored.runtime.state.scAddress, h.runtime.state.scAddress, spent)
  }

  ghost function RootBody(env: Env, h: Host, input: CallInput, start: Start, body: Script): BodyResult {
    if input.callFunction.Init? then BodyResult(h, Some(ErrInitFuncCalledInRun))
    else if input.callFunction.CallBack? then BodyResult(h, Some(ErrCallBackFuncCalledInRun))
    else if start.FunctionMissing? then BodyResult(h, Some(ErrFuncNotFound))
    else
      var r := StopOverLimit(HostModel.RunBody(env, h, body));
      if r.err.None? && input.vmInput.callType.AsynchronousCall? then SendCallback(env, r.host) else r
  }

  ghost function RootStart(env: Env, h: Host, input: CallInput, start: Start): BodyResult {
    var h1 := HostModel.EnterRoot(h, input);
    if input.vmInput.gasProvided < env.gas.getCode then BodyResult(h1, Some(ErrNotEnoughGas)) else
      var p := HostModel.LoadAndStart(env, h1, start);
      BodyResult(p.host, if p.err.Some? then Some(RootError(p.err.value)) else None)
  }

  lemma RootFrameSplits(env: Env, h: Host, input: CallInput, start: Start, body: Script)
    requires !input.vmInput.callType.AsynchronousCallBack?
    ensures RootFrame(env, h, input, start, body) ==
            var p := RootStart(env, h, input, start);
            if p.err.Some? then p else RootBody(env, p.host, input, start, body)
  {
    hide HostModel.EnterRoot, HostModel.LoadAndStart, HostModel.RunBody, SendCallback, RootError;
  }

  class VMHost {
    const bigInt: BigIntContext
    const output: OutputContext
    const runtime: RuntimeContext
    const metering: MeteringContext
    const storage: StorageContext

    ghost predicate Valid()
      reads bigInt
      reads output, output.outputState, set i | 0 <= i < |output.stateStack| :: output.stateStack[i]
    {
      bigInt.Valid() && output.Separate()
    }

    ghost function View(): Host
      reads bigInt, bigInt.values.Values, CellsOf(bigInt.stateStack)
      reads output, output.outputState, output.outputState.gasRefund, output.outputState.accounts.Values
      reads AmountsOf(output.outputState.accounts)
      reads set i | 0 <= i < |output.stateStack| :: output.stateStack[i]
      reads AccountsIn(output.stateStack), AmountsIn(output.stateStack)
      reads runtime, metering, storage
    {
      Host(bigInt.View(), output.View(), runtime.View(), metering.View(), storage.View())
    }

    constructor ()
      ensures Valid() && View() == Host(
                BigInts(map[], []), Outputs(NEW_OUTPUT, [], {}),
                Runtime(RuntimeState(VMInput("", DirectCall, 0, 0, 0), "", Method(""), false, None), [],
                        None, [], [], 0, 0),
                Metering(GasTriple(0, 0, 0), [], map[], 0), Storage("", [], true))
    {
      hide BigIntContext.View, OutputContext.View, Apart, BigIntContext.Valid, RuntimeContext.View, AmountsOf,
        AmountsIn, AccountsIn, CellsOf;
      var r := new RuntimeContext();
      var m := new MeteringContext();
      var s := new StorageContext();
      var b := new BigIntContext();
      b.NotMine(s);
      var o := new OutputContext();
      b.NotMine(s);
      o.NotMine(s);
      bigInt, output, runtime, metering, storage := b, o, r, m, s;
    }

    /** What the output context changes is out of reach of the others. */
    lemma OutputAlone()
      ensures var accounts := output.outputState.accounts.Values;
        && (runtime as object) !in accounts && (metering as object) !in accounts
        && (storage as object) !in accounts && (bigInt as object) !in accounts
        && (forall c: object :: c in bigInt.values.Values ==> c !in accounts)
        && (forall c: object :: c in CellsOf(bigInt.stateStack) ==> c !in accounts)
      ensures (output as object) !in bigInt.values.Values && (output as object) !in CellsOf(bigInt.stateStack)
      ensures (output.outputState as object) !in bigInt.values.Values
      ensures (output.outputState as object) !in CellsOf(bigInt.stateStack)
      ensures forall c :: c in bigInt.values.Values ==> allocated(c)
      ensures forall c :: c in CellsOf(bigInt.stateStack) ==> allocated(c)
    {
    }

    /** The state in use is the same object; accounts it did not have before are new. */
    twostate predicate SameState()
      reads output, output.outputState
    {
      && output.outputState == old(output.outputState)
      && (forall x :: x in output.outputState.accounts.Values ==>
            x in old(output.outputState.accounts.Values) || fresh(x))
    }

    // -------------------------------------------------------------- gas

    function GasLeft(): uint64
      reads runtime, metering
    {
      var used := runtime.GetPointsUsed();
      if metering.gasForExecution < used then 0 else metering.gasForExecution - used
    }

    method SetPointsUsed(points: uint64)
      requires Valid()
      modifies runtime
      ensures Valid() && View() == old(View()).(runtime := HostModel.SetPointsUsed(old(View().runtime), points))
    {
      hide BigIntContext.View, OutputContext.View, BigIntContext.Valid, Apart;
      bigInt.NotMine(runtime);
      output.NotMine(runtime);
      runtime.SetPointsUsed(points);
    }

    method UseGas(gas: uint64)
      requires Valid()
      modifies runtime
      ensures Valid() && View() == UseGasOn(old(View()), gas)
    {
      hide BigIntContext.View, OutputContext.View, BigIntContext.Valid, Apart;
      SetPointsUsed(AddUint64(runtime.GetPointsUsed(), gas));
    }

    method RestoreGas(gas: uint64)
      requires Valid()
      modifies runtime
      ensures Valid() && View() == HostModel.RestoreGas(old(View()), gas)
    {
      hide BigIntContext.View, OutputContext.View, BigIntContext.Valid, Apart;
      var gasUsed := runtime.GetPointsUsed();
      if gas <= gasUsed {
        SetPointsUsed(gasUsed - gas);
      }
    }

    method ForwardGas(source: Address, dest: Address, gas: uint64)
      requires Valid()
      modifies metering
      ensures Valid() && View() == HostModel.ForwardGas(old(View()), source, dest, gas)
    {
      hide BigIntContext.View, OutputContext.View, Apart, BigIntContext.Valid, AmountsOf, AmountsIn, AccountsIn,
        CellsOf, RuntimeContext.View;
      bigInt.NotMine(metering);
      output.NotMine(metering);
      metering.AddForwardedGas(source, gas);
      var onStack := runtime.IsContractOnTheStack(dest);
      if source == dest || onStack {
        metering.AddReturnedGas(dest, gas);
      }
    }

    // -------------------------------------------------------------- output

    method TransferValueOnly(
      env: Env, isAsyncCall: bool, destination: Address, sender: Address, value: int, checkPayable: bool)
      returns (err: Option<Error>)
      requires Valid()
      modifies output.outputState, output.outputState.accounts.Values
      ensures Valid() && SameState()
      ensures var (o, e) := HostModel.TransferValueOnly(
                env, old(View().output.state), isAsyncCall, destination, sender, value, checkPayable);
              View() == WithOutput(old(View()), o) && err == e
    {
      hide BigIntContext.View, OutputContext.View, BigIntContext.Valid, Apart, HostModel.TransferValueOnly;
      OutputAlone();
      err := output.TransferValueOnly(env, isAsyncCall, destination, sender, value, checkPayable);
    }

    method Transfer(
      env: Env, isAsyncCall: bool, destination: Address, sender: Address,
      gasLimit: uint64, gasLocked: uint64, value: int, data: Bytes, callType: CallType)
      returns (err: Option<Error>)
      requires Valid()
      modifies output.outputState, output.outputState.accounts.Values
      ensures Valid() && SameState()
      ensures var (o, e) := TransferOut(env, old(View().output.state), isAsyncCall, destination, sender,
                                        gasLimit, gasLocked, value, data, callType);
              View() == WithOutput(old(View()), o) && err == e
    {
      hide BigIntContext.View, OutputContext.View, BigIntContext.Valid, Apart, TransferOut;
      OutputAlone();
      err := output.Transfer(env, isAsyncCall, destination, sender, gasLimit, gasLocked, value, data, callType);
    }

    method GetCode(env: Env, a: Address) returns (code: Bytes, err: Option<Error>)
      requires Valid()
      modifies output.outputState, output.outputState.accounts.Values
      ensures Valid() && SameState()
      ensures var (o, c, e) := HostModel.GetCode(env, old(View().output.state), a);
              View() == WithOutput(old(View()), o) && code == c && err == e
    {
      hide BigIntContext.View, OutputContext.View, BigIntContext.Valid, Apart, HostModel.GetCode;
      OutputAlone();
      code, err := output.GetCode(env, a);
    }

    /** The return data, code and message and the logs of the state in use. */
    method SetReturn(returnData: seq<Bytes>, returnCode: ReturnCode, returnMessage: string, logs: seq<LogEntry>)
      requires Valid()
      modifies output.outputState
      ensures Valid() && output.outputState.accounts == old(output.outputState.accounts)
      ensures View() == WithOutput(old(View()), old(View().output.state).(
                returnData := returnData, returnCode := returnCode, returnMessage := returnMessage, logs := logs))
    {
      hide BigIntContext.View, OutputContext.View, BigIntContext.Valid, Apart;
      OutputAlone();
      output.StateFields();
      output.Assign(returnData, returnCode, returnMessage, output.outputState.gasRemaining, None, logs);
    }

    method Fault(e: Error)
      requires Valid()
      modifies runtime, output.outputState
      ensures Valid() && output.outputState.accounts == old(output.outputState.accounts)
      ensures BodyResult(View(), Some(ErrExecutionFailed)) == HostModel.Fault(old(View()), e)
    {
      hide BigIntContext.View, OutputContext.View, BigIntContext.Valid, Apart, ErrorText, RuntimeContext.View,
        UseGasOn;
      PointsField();
      UseGas(GasLeft());
      output.StateFields();
      SetReturn(output.outputState.returnData, ExecutionFailed, ErrorText(e), output.outputState.logs);
    }

    lemma PointsField()
      ensures runtime.GetPointsUsed() == PointsUsed(View().runtime) && GasLeft() == HostModel.GasLeft(View())
    {
    }

    // -------------------------------------------------------------- storage

    method GetStorageUnmetered(env: Env, a: Address, key: Bytes) returns (value: Bytes)
      requires Valid()
      modifies output.outputState, output.outputState.accounts.Values
      ensures Valid() && SameState()
      ensures a in output.outputState.accounts && a in View().output.state.accounts
      ensures var (o, v) := CachedRead(env, old(View().output.state), a, key);
              View() == WithOutput(old(View()), o) && value == v
    {
      hide BigIntContext.View, OutputContext.View, BigIntContext.Valid, Apart, CachedRead;
      OutputAlone();
      value := output.GetStorageUnmetered(env, a, key);
    }

    method StoreUpdate(a: Address, key: Bytes, value: Bytes)
      requires Valid() && a in output.outputState.accounts && a in View().output.state.accounts
      modifies output.outputState, output.outputState.accounts.Values
      ensures Valid() && SameState()
      ensures View() == WithOutput(old(View()), SetAccount(old(View().output.state), a, Written(
                old(View().output.state.accounts[a]), SetStorageUpdate(key, value))))
    {
      hide BigIntContext.View, OutputContext.View, BigIntContext.Valid, Apart, Written;
      OutputAlone();
      output.WriteAccount(a, SetStorageUpdate(key, value));
    }

    method FreeGas(gas: uint64)
      requires Valid()
      modifies output.outputState
      ensures Valid() && output.outputState.accounts == old(output.outputState.accounts)
      ensures View() == WithOutput(old(View()), HostModel.FreeGas(old(View().output.state), gas))
    {
      hide BigIntContext.View, OutputContext.View, BigIntContext.Valid, Apart, HostModel.FreeGas;
      OutputAlone();
      output.FreeGas(gas);
    }

    method ChargeKey(env: Env, key: Bytes)
      requires Valid()
      modifies runtime
      ensures Valid() && View() == HostModel.ChargeKey(env, old(View()), key)
    {
      hide VMHost.View, VMHost.Valid, UseGasOn;
      if |key| > ADDRESS_LEN {
        UseGas(MulUint64(env.gas.dataCopyPerByte, Len(key[ADDRESS_LEN..])));
      }
    }

    method GetStorage(env: Env, key: Bytes) returns (value: Bytes)
      requires Valid()
      modifies runtime, output.outputState, output.outputState.accounts.Values
      ensures Valid() && SameState()
      ensures (View(), value) == ReadStorage(env, old(View()), key)
    {
      hide VMHost.Valid, UseGasOn, CachedRead, HostModel.ChargeKey, BigIntContext.View, OutputContext.View,
        RuntimeContext.View;
      ChargeKey(env, key);
      value := GetStorageUnmetered(env, storage.address, key);
      UseGas(MulUint64(env.gas.dataCopyPerByte, Len(value)));
    }

    method GetStorageFromAddress(env: Env, address: Address, key: Bytes) returns (value: Bytes)
      requires Valid()
      modifies runtime, output.outputState, output.outputState.accounts.Values
      ensures Valid() && SameState()
      ensures (View(), value) == ReadStorageFromAddress(env, old(View()), address, key)
    {
      hide VMHost.Valid, UseGasOn, CachedRead, HostModel.ChargeKey, BigIntContext.View, OutputContext.View,
        RuntimeContext.View;
      ChargeKey(env, key);
      if address != storage.address {
        if address !in env.accounts || !env.accounts[address].readable {
          return "";
        }
      }
      if HasPrefix(key, env.protectedKeyPrefix) {
        value := HookStorage(env, address, key);
      } else {
        value := GetStorageUnmetered(env, address, key);
      }
      UseGas(MulUint64(env.gas.dataCopyPerByte, Len(value)));
    }

    method SetStorage(env: Env, key: Bytes, value: Bytes) returns (status: StorageStatus, err: Option<Error>)
      requires Valid()
      modifies runtime, output.outputState, output.outputState.accounts.Values
      ensures Valid() && SameState()
      ensures (View(), status, err) == WriteStorage(env, old(View()), key, value)
    {
      hide VMHost.Valid, UseGasOn, CachedRead, HostModel.ChargeKey, BigIntContext.View, OutputContext.View,
        HostModel.FreeGas, PriceOfChange;
      if runtime.readOnly {
        return StorageUnchanged, None;
      }
      if HasPrefix(key, env.protectedKeyPrefix) {
        return StorageUnchanged, Some(ErrStoreReservedKey);
      }
      if HasPrefix(key, PROTECTED_STORAGE_PREFIX) && storage.protectionEnabled {
        return StorageUnchanged, Some(ErrCannotWriteProtectedKey);
      }
      ChargeKey(env, key);
      var current := GetStorageUnmetered(env, storage.address, key);
      if current == value {
        UseGas(MulUint64(env.gas.dataCopyPerByte, Len(value)));
        return StorageUnchanged, None;
      }
      status := ReplaceValue(env, storage.address, key, value, PriceOfChange(env, Len(current), Len(value)));
      err := None;
    }

    method SetProtection(enabled: bool)
      requires Valid()
      modifies storage
      ensures Valid() && View() == WithProtection(old(View()), enabled)
    {
      hide BigIntContext.View, OutputContext.View, BigIntContext.Valid, Apart, RuntimeContext.View,
        MeteringContext.View;
      bigInt.NotMine(storage);
      output.NotMine(storage);
      storage.protectionEnabled := enabled;
    }

    method SetProtectedStorage(env: Env, key: Bytes, value: Bytes) returns (status: StorageStatus, err: Option<Error>)
      requires Valid()
      modifies runtime, storage, output.outputState, output.outputState.accounts.Values
      ensures Valid() && SameState()
      ensures (View(), status, err) == WriteProtectedStorage(env, old(View()), key, value)
    {
      hide VMHost.View, VMHost.Valid, WriteStorage, WithProtection;
      SetProtection(false);
      status, err := SetStorage(env, key, value);
      SetProtection(true);
    }

    /** The new value is stored and priced. */
    method ReplaceValue(env: Env, a: Address, key: Bytes, value: Bytes, effect: StorageEffect)
      returns (status: StorageStatus)
      requires Valid() && a in output.outputState.accounts && a in View().output.state.accounts
      modifies runtime, output.outputState, output.outputState.accounts.Values
      ensures Valid() && SameState() && status == effect.status
      ensures View() == Replaced(old(View()), a, key, value, effect)
    {
      hide VMHost.Valid, UseGasOn, BigIntContext.View, OutputContext.View, HostModel.FreeGas;
      StoreUpdate(a, key, value);
      if effect.freed.Some? {
        FreeGas(effect.freed.value);
      }
      UseGas(effect.used);
      status := effect.status;
    }

    // -------------------------------------------------------------- big integers

    method SetBigInt(handle: int32, number: int)
      requires Valid()
      modifies bigInt, bigInt.values.Values
      ensures Valid() && bigInt.stateStack == old(bigInt.stateStack)
      ensures fresh(bigInt.values.Values - old(bigInt.values.Values))
      ensures View() == old(View()).(
                bigInt := old(View().bigInt).(values := old(View().bigInt.values)[handle := number]))
    {
      hide BigIntContext.View, OutputContext.View, Apart, BigIntContext.Valid, AmountsOf, AmountsIn, AccountsIn,
        CellsOf;
      output.NotMine(bigInt);
      var cell := bigInt.GetOne(handle);
      output.NotMine(bigInt);
      output.NotMine(cell);
      bigInt.Write(handle, number);
    }

    // -------------------------------------------------------------- actions of a contract

    /** The objects a running contract changes: the contexts, the state in use and its accounts, and
        the numbers in use. Saved states and numbers are not among them. */
    ghost function Objects(): set<object>
      reads bigInt, output, output.outputState
    {
      {bigInt, output, runtime, metering, storage, output.outputState} + output.outputState.accounts.Values +
      bigInt.values.Values
    }

    /** What every step of a contract leaves alone, on the heap: nothing is taken over that existed
        before, and the saved numbers and states are the same objects with the same accounts. */
    twostate predicate Evolved()
      reads bigInt, output, output.outputState, set i | 0 <= i < |output.stateStack| :: output.stateStack[i]
    {
      && (forall x :: x in Objects() ==> x in old(Objects()) || fresh(x))
      && bigInt.stateStack == old(bigInt.stateStack) && output.stateStack == old(output.stateStack)
      && forall i :: 0 <= i < |output.stateStack| ==>
           output.stateStack[i].accounts == old(output.stateStack[i].accounts)
    }

    /** The same with one more frame on top, made of new objects. */
    twostate predicate Pushed()
      reads bigInt, output, output.outputState, set i | 0 <= i < |output.stateStack| :: output.stateStack[i]
    {
      && (forall x :: x in Objects() ==> x in old(Objects()) || fresh(x))
      && |bigInt.stateStack| == |old(bigInt.stateStack)| + 1
      && bigInt.stateStack[..|old(bigInt.stateStack)|] == old(bigInt.stateStack)
      && fresh(bigInt.stateStack[|old(bigInt.stateStack)|].Values)
      && |output.stateStack| == |old(output.stateStack)| + 1
      && output.stateStack[..|old(output.stateStack)|] == old(output.stateStack)
      && fresh(output.Top())
      && forall i :: 0 <= i < |old(output.stateStack)| ==>
           output.stateStack[i].accounts == old(output.stateStack[i].accounts)
    }

    /** The last frame is gone, and the others are the same. */
    twostate predicate Popped()
      requires old(|bigInt.stateStack| > 0 && |output.stateStack| > 0)
      reads bigInt, output, output.outputState, set i | 0 <= i < |output.stateStack| :: output.stateStack[i]
    {
      && bigInt.stateStack == old(bigInt.stateStack[..|bigInt.stateStack| - 1])
      && output.stateStack == old(output.stateStack[..|output.stateStack| - 1])
      && forall i :: 0 <= i < |output.stateStack| ==>
           output.stateStack[i].accounts == old(output.stateStack[i].accounts)
    }

    /** What is in use after a pop was in use before, or belonged to the last frame, or is new. */
    twostate predicate TakenBack()
      requires old(|bigInt.stateStack| > 0 && |output.stateStack| > 0)
      reads bigInt, output, output.outputState, set i | 0 <= i < |output.stateStack| :: output.stateStack[i]
    {
      forall x :: x in Objects() ==>
        || x in old(Objects()) || x in old(output.Top())
        || x in old(bigInt.stateStack[|bigInt.stateStack| - 1].Values) || fresh(x)
    }

    lemma SavedOutOfReach()
      requires Valid()
      ensures forall i :: 0 <= i < |output.stateStack| ==> (output.stateStack[i] as object) !in Objects()
    {
    }

    method LocalAction(env: Env, a: Action) returns (err: Option<Error>)
      requires Valid() && !a.CallDest? && !a.CallSame? && !a.Async?
      modifies Objects()
      ensures Valid() && Evolved()
      ensures BodyResult(View(), err) == HostModel.LocalAction(env, old(View()), a)
    {
      hide VMHost.View, VMHost.Valid, HostModel.LocalAction;
      SavedOutOfReach();
      if a.Transfer? || a.Finish? || a.WriteLog? || a.Fail? || a.Signal? {
        err := OutputAction(env, a);
      } else if a.UseGas? || a.SetBigInt? {
        MachineAction(env, a);
        err := None;
      } else {
        err := StorageAction(env, a);
      }
    }

    method MachineAction(env: Env, a: Action)
      requires Valid() && (a.UseGas? || a.SetBigInt?)
      modifies runtime, bigInt, bigInt.values.Values
      ensures Valid() && bigInt.stateStack == old(bigInt.stateStack)
      ensures fresh(bigInt.values.Values - old(bigInt.values.Values))
      ensures BodyResult(View(), None) == HostModel.LocalAction(env, old(View()), a)
    {
      hide VMHost.View, VMHost.Valid, UseGasOn;
      if a.UseGas? {
        UseGas(a.gas);
      } else {
        SetBigInt(a.handle, a.number);
      }
    }

    method StorageAction(env: Env, a: Action) returns (err: Option<Error>)
      requires Valid() && (a.SetStorage? || a.GetStorage? || a.GetStorageFromAddress?)
      modifies runtime, output.outputState, output.outputState.accounts.Values
      ensures Valid() && SameState()
      ensures BodyResult(View(), err) == HostModel.LocalAction(env, old(View()), a)
    {
      hide VMHost.View, VMHost.Valid, WriteStorage, ReadStorage, ReadStorageFromAddress, HostModel.Fault;
      err := None;
      if a.GetStorage? {
        var _ := GetStorage(env, a.key);
      } else if a.GetStorageFromAddress? {
        var _ := GetStorageFromAddress(env, a.address, a.key);
      } else {
        var _, e := SetStorage(env, a.key, a.content);
        if e.Some? {
          Fault(e.value);
          err := Some(ErrExecutionFailed);
        }
      }
    }

    /** The actions on the output alone. */
    method OutputAction(env: Env, a: Action) returns (err: Option<Error>)
      requires Valid() && (a.Transfer? || a.Finish? || a.WriteLog? || a.Fail? || a.Signal?)
      modifies runtime, output.outputState, output.outputState.accounts.Values
      ensures Valid() && SameState()
      ensures BodyResult(View(), err) == HostModel.LocalAction(env, old(View()), a)
    {
      hide VMHost.Valid, UseGasOn, TransferOut, HostModel.Fault, BigIntContext.View, OutputContext.View;
      err := None;
      output.StateFields();
      var o := output.outputState;
      match a {
        case Transfer(destination, value, gasLimit, data) =>
          var e := Transfer(env, runtime.vmInput.callType.AsynchronousCall?, destination, runtime.scAddress,
                            gasLimit, 0, value, data, DirectCall);
          if e.Some? {
            Fault(e.value);
            err := Some(ErrExecutionFailed);
          }
        case Finish(data) =>
          SetReturn(o.returnData + [data], o.returnCode, o.returnMessage, o.logs);
        case WriteLog(topics, data) =>
          if !runtime.readOnly {
            SetReturn(o.returnData, o.returnCode, o.returnMessage,
                      o.logs + [LogEntry(runtime.scAddress, topics, data)]);
          }
        case Fail(e) =>
          Fault(e);
          err := Some(ErrExecutionFailed);
        case Signal(message) =>
          SetReturn(o.returnData, UserError, message, o.logs);
          err := Some(ErrSignalError);
      }
    }

    // -------------------------------------------------------------- one context at a time

    method PushNumbers()
      requires Valid()
      modifies bigInt
      ensures Valid() && bigInt.values == old(bigInt.values)
      ensures |bigInt.stateStack| == |old(bigInt.stateStack)| + 1
      ensures bigInt.stateStack[..|old(bigInt.stateStack)|] == old(bigInt.stateStack)
      ensures fresh(bigInt.stateStack[|old(bigInt.stateStack)|].Values)
      ensures View() == old(View()).(bigInt := old(
                BigInts(View().bigInt.values, View().bigInt.stack + [View().bigInt.values])))
    {
      hide BigIntContext.View, OutputContext.View, BigIntContext.Valid, Apart;
      output.NotMine(bigInt);
      bigInt.PushState();
    }

    method ClearNumbers()
      requires Valid()
      modifies bigInt
      ensures Valid() && bigInt.values == map[] && bigInt.stateStack == old(bigInt.stateStack)
      ensures View() == old(View()).(bigInt := old(View().bigInt).(values := map[]))
    {
      hide BigIntContext.View, OutputContext.View, BigIntContext.Valid, Apart;
      output.NotMine(bigInt);
      bigInt.InitState();
    }

    method PopNumbers()
      requires Valid()
      modifies bigInt
      ensures Valid() && View() == old(View()).(bigInt := PopBigInt(old(View().bigInt)))
      ensures |old(bigInt.stateStack)| > 0 ==> bigInt.values == old(bigInt.stateStack[|bigInt.stateStack| - 1])
      ensures |old(bigInt.stateStack)| > 0 ==> bigInt.stateStack == old(bigInt.stateStack[..|bigInt.stateStack| - 1])
    {
      hide BigIntContext.View, OutputContext.View, BigIntContext.Valid, Apart;
      output.NotMine(bigInt);
      bigInt.PopSetActiveState();
    }

    method DiscardNumbers()
      requires Valid()
      modifies bigInt
      ensures Valid() && View() == old(View()).(bigInt := DiscardBigInt(old(View().bigInt)))
      ensures bigInt.values == old(bigInt.values)
      ensures |old(bigInt.stateStack)| > 0 ==> bigInt.stateStack == old(bigInt.stateStack[..|bigInt.stateStack| - 1])
    {
      hide BigIntContext.View, OutputContext.View, BigIntContext.Valid, Apart;
      output.NotMine(bigInt);
      bigInt.PopDiscard();
    }

    method PushOutput()
      requires Valid() && WellKeyed(View().output.state.accounts)
      modifies output
      ensures Valid() && output.outputState == old(output.outputState) && fresh(output.Top())
      ensures |output.stateStack| == |old(output.stateStack)| + 1
      ensures output.stateStack[..|old(output.stateStack)|] == old(output.stateStack)
      ensures View() == old(View()).(output := HostModel.PushOutput(old(View().output)))
    {
      hide BigIntContext.View, OutputContext.View, BigIntContext.Valid, Apart, WellKeyed, HostModel.PushOutput;
      OutputAlone();
      output.PushState();
    }

    method CensorOutput()
      requires Valid()
      modifies output.outputState
      ensures Valid() && output.outputState.accounts == old(output.outputState.accounts)
      ensures View() == WithOutput(old(View()), Censored(old(View().output.state)))
    {
      hide BigIntContext.View, OutputContext.View, BigIntContext.Valid, Apart, Censored;
      OutputAlone();
      output.CensorVMOutput();
    }

    method PopSetOutput()
      requires Valid()
      modifies output
      ensures Valid() && View() == old(View()).(output := HostModel.PopSetOutput(old(View().output)))
      ensures |old(output.stateStack)| > 0 ==> output.outputState == old(output.stateStack[|output.stateStack| - 1])
      ensures |old(output.stateStack)| > 0 ==> output.stateStack == old(output.stateStack[..|output.stateStack| - 1])
    {
      hide BigIntContext.View, OutputContext.View, BigIntContext.Valid, Apart, HostModel.PopSetOutput;
      OutputAlone();
      output.PopSetActiveState();
    }

    method PopDiscardOutput()
      requires Valid()
      modifies output
      ensures Valid() && View() == old(View()).(output := HostModel.PopDiscardOutput(old(View().output)))
      ensures output.outputState == old(output.outputState)
      ensures |old(output.stateStack)| > 0 ==> output.stateStack == old(output.stateStack[..|output.stateStack| - 1])
    {
      hide BigIntContext.View, OutputContext.View, BigIntContext.Valid, Apart, HostModel.PopDiscardOutput;
      OutputAlone();
      output.PopDiscard();
    }

    lemma TopAlone()
      ensures (runtime as object) !in output.Top() && (metering as object) !in output.Top()
      ensures (storage as object) !in output.Top() && (bigInt as object) !in output.Top()
      ensures forall c: object :: c in bigInt.values.Values ==> c !in output.Top()
      ensures forall c: object :: c in CellsOf(bigInt.stateStack) ==> c !in output.Top()
      ensures (output as object) !in bigInt.values.Values && (output as object) !in CellsOf(bigInt.stateStack)
      ensures forall c :: c in bigInt.values.Values ==> allocated(c)
      ensures forall c :: c in CellsOf(bigInt.stateStack) ==> allocated(c)
    {
    }

    method PopMergeOutput()
      requires Valid() && WellKeyed(View().output.state.accounts)
      requires View().output.stack != [] ==> WellKeyed(View().output.stack[|View().output.stack| - 1].accounts)
      modifies output, output.Top()
      ensures Valid() && View() == old(View()).(output := HostModel.PopMergeOutput(old(View().output)))
      ensures |old(output.stateStack)| > 0 ==> fresh(output.outputState) && fresh(output.outputState.accounts.Values)
      ensures |old(output.stateStack)| > 0 ==> output.stateStack == old(output.stateStack[..|output.stateStack| - 1])
    {
      hide BigIntContext.View, OutputContext.View, BigIntContext.Valid, Apart, WellKeyed, HostModel.PopMergeOutput,
        OutputContext.Top;
      TopAlone();
      output.PopMergeActiveState();
    }

    method EnterMachines(input: CallInput) returns (unlocked: CallInput)
      requires Valid()
      modifies runtime, metering
      ensures Valid() && unlocked == Unlocked(input)
      ensures View() == old(View()).(
                runtime := InitRuntime(PushRuntime(old(View().runtime)), input),
                metering := InitMetering(PushMetering(old(View().metering)), Unlocked(input)))
    {
      hide BigIntContext.View, OutputContext.View, Apart, BigIntContext.Valid, AmountsOf, AmountsIn, AccountsIn,
        CellsOf, RuntimeContext.View, MeteringContext.View;
      bigInt.NotMine(runtime);
      output.NotMine(runtime);
      bigInt.NotMine(metering);
      output.NotMine(metering);
      runtime.PushState();
      runtime.InitStateFromContractCallInput(input);
      metering.PushState();
      unlocked := metering.InitStateFromContractCallInput(input);
    }

    /** The gas recorded so far is remembered before a nested call. */
    method ComputeGasUsedBefore()
      requires Valid()
      modifies metering
      ensures Valid() && View() == old(View()).(
                metering := old(View().metering).(totalUsedGas := CurrentTotalUsedGas(old(View().output.state))))
    {
      hide BigIntContext.View, OutputContext.View, Apart, BigIntContext.Valid, AmountsOf, AmountsIn, AccountsIn,
        CellsOf, RuntimeContext.View, CurrentTotalUsedGas;
      bigInt.NotMine(metering);
      output.NotMine(metering);
      var gas, _ := output.TotalUsedGas();
      bigInt.NotMine(metering);
      output.NotMine(metering);
      metering.totalUsedGas := gas;
    }

    method SetTotalUsedGas(gas: uint64)
      requires Valid()
      modifies metering
      ensures Valid() && View() == old(View()).(metering := old(View().metering).(totalUsedGas := gas))
    {
      hide BigIntContext.View, OutputContext.View, BigIntContext.Valid, Apart, RuntimeContext.View;
      bigInt.NotMine(metering);
      output.NotMine(metering);
      metering.totalUsedGas := gas;
    }

    method LeaveMachines()
      requires Valid()
      modifies runtime, metering
      ensures Valid() && View() == old(View()).(
                metering := PopMetering(old(View().metering)), runtime := PopRuntime(old(View().runtime)))
    {
      hide BigIntContext.View, OutputContext.View, BigIntContext.Valid, Apart, RuntimeContext.View,
        MeteringContext.View;
      bigInt.NotMine(runtime);
      output.NotMine(runtime);
      bigInt.NotMine(metering);
      output.NotMine(metering);
      metering.PopSetActiveState();
      runtime.PopSetActiveState();
    }

    method EnterStorage(address: Address)
      requires Valid()
      modifies storage
      ensures Valid() && View() == old(View()).(storage := old(View().storage).(
                stack := old(View().storage.stack) + [old(View().storage.address)], address := address))
    {
      hide BigIntContext.View, OutputContext.View, BigIntContext.Valid, Apart, RuntimeContext.View,
        MeteringContext.View;
      bigInt.NotMine(storage);
      output.NotMine(storage);
      storage.PushState();
      storage.address := address;
    }

    method LeaveStorage()
      requires Valid()
      modifies storage
      ensures Valid() && View() == old(View()).(storage := PopStorage(old(View().storage)))
    {
      hide BigIntContext.View, OutputContext.View, BigIntContext.Valid, Apart, RuntimeContext.View,
        MeteringContext.View;
      bigInt.NotMine(storage);
      output.NotMine(storage);
      storage.PopSetActiveState();
    }

    // -------------------------------------------------------------- entering a frame

    /** The pushes that open a frame of its own for the callee. */
    method PushAll(input: CallInput) returns (unlocked: CallInput)
      requires Valid() && WellKeyed(View().output.state.accounts)
      modifies bigInt, output, output.outputState, runtime, metering, storage
      ensures Valid() && unlocked == Unlocked(input)
      ensures |bigInt.stateStack| == |old(bigInt.stateStack)| + 1
      ensures bigInt.stateStack[..|old(bigInt.stateStack)|] == old(bigInt.stateStack)
      ensures fresh(bigInt.stateStack[|old(bigInt.stateStack)|].Values) && bigInt.values == map[]
      ensures |output.stateStack| == |old(output.stateStack)| + 1
      ensures output.stateStack[..|old(output.stateStack)|] == old(output.stateStack) && fresh(output.Top())
      ensures output.outputState == old(output.outputState)
      ensures output.outputState.accounts == old(output.outputState.accounts)
      ensures View() == HostModel.EnterDest(old(View()), input)
    {
      hide BigIntContext.View, OutputContext.View, RuntimeContext.View, MeteringContext.View, StorageContext.View,
        VMHost.Valid, WellKeyed, HostModel.PushOutput, CurrentTotalUsedGas, Censored;
      PushNumbers();
      ClearNumbers();
      PushOutput();
      CensorOutput();
      unlocked := EnterMachines(input);
      ComputeGasUsedBefore();
      EnterStorage(input.recipient);
    }

    method EnterDest(input: CallInput) returns (unlocked: CallInput)
      requires Valid() && WellKeyed(View().output.state.accounts)
      modifies Objects()
      ensures Valid() && unlocked == Unlocked(input)
      ensures Pushed() && output.outputState == old(output.outputState)
      ensures View() == HostModel.EnterDest(old(View()), input)
    {
      hide VMHost.View, VMHost.Valid, WellKeyed, HostModel.EnterDest;
      SavedOutOfReach();
      unlocked := PushAll(input);
    }

    /** The pushes of a call in the caller's own storage and output. */
    method EnterSame(input: CallInput) returns (unlocked: CallInput)
      requires Valid() && WellKeyed(View().output.state.accounts)
      modifies Objects()
      ensures Valid() && unlocked == Unlocked(input)
      ensures Pushed() && output.outputState == old(output.outputState)
      ensures View() == HostModel.EnterSame(old(View()), input)
    {
      hide BigIntContext.View, OutputContext.View, RuntimeContext.View, MeteringContext.View, StorageContext.View,
        VMHost.Valid, WellKeyed, HostModel.PushOutput;
      SavedOutOfReach();
      PushNumbers();
      PushOutput();
      unlocked := EnterMachines(input);
    }

    method TransferOnEntry(env: Env, input: CallInput) returns (err: Option<Error>)
      requires Valid()
      modifies Objects()
      ensures Valid() && Evolved()
      ensures output.outputState == old(output.outputState)
      ensures BodyResult(View(), err) == HostModel.TransferOnEntry(env, old(View()), input)
    {
      hide BigIntContext.View, OutputContext.View, MeteringContext.View, StorageContext.View, VMHost.Valid,
        HostModel.TransferValueOnly;
      SavedOutOfReach();
      err := TransferValueOnly(env, runtime.vmInput.callType.AsynchronousCall?, input.recipient,
                               input.vmInput.callerAddr, input.vmInput.callValue, false);
    }

    method DestEntry(env: Env, input: CallInput) returns (unlocked: CallInput, err: Option<Error>)
      requires Valid() && WellKeyed(View().output.state.accounts)
      modifies Objects()
      ensures Valid() && unlocked == Unlocked(input)
      ensures Pushed() && output.outputState == old(output.outputState)
      ensures BodyResult(View(), err) == HostModel.DestEntry(env, old(View()), input)
    {
      hide BigIntContext.View, OutputContext.View, RuntimeContext.View, MeteringContext.View, StorageContext.View,
        VMHost.Valid, WellKeyed, HostModel.EnterDest, HostModel.TransferOnEntry, VMHost.Objects;
      SavedOutOfReach();
      unlocked := EnterDest(input);
      err := None;
      SavedOutOfReach();
      if !input.vmInput.callType.AsynchronousCallBack? || input.vmInput.callValue == 0 {
        err := TransferOnEntry(env, input);
      }
    }

    method SameEntry(env: Env, input: CallInput) returns (unlocked: CallInput, err: Option<Error>)
      requires Valid() && WellKeyed(View().output.state.accounts)
      modifies Objects()
      ensures Valid() && unlocked == Unlocked(input)
      ensures Pushed() && output.outputState == old(output.outputState)
      ensures BodyResult(View(), err) == HostModel.SameEntry(env, old(View()), input)
    {
      hide BigIntContext.View, OutputContext.View, RuntimeContext.View, MeteringContext.View, StorageContext.View,
        VMHost.Valid, WellKeyed, HostModel.EnterSame, HostModel.TransferOnEntry, VMHost.Objects;
      SavedOutOfReach();
      unlocked := EnterSame(input);
      SavedOutOfReach();
      err := TransferOnEntry(env, input);
    }

    // -------------------------------------------------------------- starting a contract

    method SetCodeSize(code: Bytes)
      requires Valid()
      modifies runtime
      ensures Valid() && View() == old(View()).(runtime := old(View().runtime).(codeSize := Len(code)))
    {
      hide BigIntContext.View, OutputContext.View, BigIntContext.Valid, Apart, MeteringContext.View;
      bigInt.NotMine(runtime);
      output.NotMine(runtime);
      runtime.codeSize := Len(code);
    }

    method DeductInitialGas(env: Env, code: Bytes) returns (err: Option<Error>)
      requires Valid()
      modifies metering
      ensures Valid() && (View(), err) == HostModel.DeductInitialGas(env, old(View()), code)
    {
      hide BigIntContext.View, OutputContext.View, BigIntContext.Valid, Apart, InitialCost;
      bigInt.NotMine(metering);
      output.NotMine(metering);
      err := metering.DeductInitialGas(env, code, runtime.vmInput.gasProvided);
    }

    method StartWasmerInstance(env: Env, start: Start) returns (err: Option<Error>)
      requires Valid()
      modifies runtime
      ensures Valid()
      ensures View() == old(View()).(runtime := StartInstance(env, old(View().runtime), start).0)
      ensures err == StartInstance(env, old(View().runtime), start).1
    {
      hide BigIntContext.View, OutputContext.View, BigIntContext.Valid, Apart, MeteringContext.View, StartInstance,
        RuntimeContext.View;
      bigInt.NotMine(runtime);
      output.NotMine(runtime);
      err := runtime.StartWasmerInstance(env, start);
    }

    method LoadAndStart(env: Env, start: Start) returns (err: Option<Error>)
      requires Valid()
      modifies runtime, metering, output.outputState, output.outputState.accounts.Values
      ensures Valid() && SameState()
      ensures BodyResult(View(), err) == HostModel.LoadAndStart(env, old(View()), start)
    {
      hide BigIntContext.View, OutputContext.View, MeteringContext.View, StorageContext.View, VMHost.Valid,
        HostModel.GetCode, StartInstance, HostModel.DeductInitialGas;
      var code;
      code, err := GetCode(env, runtime.scAddress);
      if err.None? {
        SetCodeSize(code);
        err := DeductInitialGas(env, code);
        if err.None? {
          err := StartWasmerInstance(env, start);
        }
      }
    }

    method CheckAndStart(env: Env, input: CallInput, start: Start) returns (err: Option<Error>)
      requires Valid()
      modifies runtime, metering, output.outputState, output.outputState.accounts.Values
      ensures Valid() && SameState()
      ensures BodyResult(View(), err) == HostModel.Prepare(env, old(View()), input, start)
    {
      hide BigIntContext.View, OutputContext.View, MeteringContext.View, StorageContext.View, VMHost.Valid,
        HostModel.LoadAndStart, UseGasOn;
      if runtime.callFunction.Init? && !input.allowInit {
        return Some(ErrInitFuncCalledInRun);
      }
      var callBack := runtime.callFunction.CallBack?;
      UseGas(input.vmInput.gasProvided);
      err := LoadAndStart(env, start);
      if err.None? && start.FunctionMissing? && !callBack {
        err := Some(ErrFuncNotFound);
      }
    }

    /** Everything before the callee's own code runs. */
    method Prepare(env: Env, input: CallInput, start: Start) returns (err: Option<Error>)
      requires Valid()
      modifies Objects()
      ensures Valid() && Evolved()
      ensures BodyResult(View(), err) == HostModel.Prepare(env, old(View()), input, start)
    {
      hide VMHost.View, VMHost.Valid, HostModel.Prepare;
      SavedOutOfReach();
      err := CheckAndStart(env, input, start);
    }

    // -------------------------------------------------------------- finishing a frame

    function GetReadings(): Readings
      reads runtime, metering
    {
      var spent := AddUint64(metering.initialCost, runtime.GetPointsUsed());
      var a := runtime.scAddress;
      var gasState := if a in metering.gasStates then metering.gasStates[a] else GasState(0, 0);
      var (used, beyond) := SubUint64(spent, SubUint64(gasState.forwarded, gasState.returned).0);
      Readings(runtime.scAddress, used, beyond, GasLeft(), metering.initialGasProvided, metering.totalUsedGas)
    }

    lemma ReadingsAreRead()
      ensures ReadFrom(GetReadings(), View())
      ensures AddUint64(metering.initialCost, runtime.GetPointsUsed()) == GasSpentByContract(View())
    {
      hide BigIntContext.View, OutputContext.View;
    }

    method GetVMOutput() returns (out: Output)
      requires Valid()
      modifies output.outputState, output.outputState.accounts.Values
      ensures Valid() && SameState()
      ensures out == output.outputState || (fresh(out) && out.accounts == map[])
      ensures View() == HostModel.GetVMOutput(old(View())).0 && out.View() == HostModel.GetVMOutput(old(View())).1
    {
      hide BigIntContext.View, OutputContext.View, BigIntContext.Valid, Apart, HostModel.GetVMOutput,
        RuntimeContext.View, MeteringContext.View, ReadFrom;
      OutputAlone();
      ReadingsAreRead();
      out := output.GetVMOutput(GetReadings(), View());
    }

    method CreateVMOutputInCaseOfError(e: Error) returns (out: Output)
      requires Valid()
      ensures Valid() && View() == old(View())
      ensures fresh(out) && out.accounts == map[] && out.View() == ErrorOutput(View().output.state, e)
    {
      hide BigIntContext.View, OutputContext.View, BigIntContext.Valid, Apart, RuntimeContext.View,
        MeteringContext.View, ErrorOutput;
      OutputAlone();
      out := output.CreateVMOutputInCaseOfError(e);
    }

    method CalleeOutput(err: Option<Error>) returns (out: Output)
      requires Valid()
      modifies output.outputState, output.outputState.accounts.Values
      ensures Valid() && SameState()
      ensures out == output.outputState || (fresh(out) && out.accounts == map[])
      ensures View() == HostModel.CalleeOutput(old(View()), err).0
      ensures out.View() == HostModel.CalleeOutput(old(View()), err).1
    {
      hide VMHost.View, VMHost.Valid, HostModel.GetVMOutput, ErrorOutput;
      if err.Some? {
        out := CreateVMOutputInCaseOfError(err.value);
      } else {
        out := GetVMOutput();
      }
    }

    /** The caller's numbers, gas, frame, instance and storage come back. */
    method PopAllButOutput()
      requires Valid()
      modifies bigInt, runtime, metering, storage
      ensures Valid()
      ensures |old(bigInt.stateStack)| > 0 ==>
                && bigInt.values == old(bigInt.stateStack[|bigInt.stateStack| - 1])
                && bigInt.stateStack == old(bigInt.stateStack[..|bigInt.stateStack| - 1])
      ensures View() == old(View()).(
                bigInt := PopBigInt(old(View().bigInt)), metering := PopMetering(old(View().metering)),
                runtime := PopRuntime(old(View().runtime)), storage := PopStorage(old(View().storage)))
    {
      hide BigIntContext.View, OutputContext.View, RuntimeContext.View, MeteringContext.View, StorageContext.View,
        VMHost.Valid, PopBigInt, PopMetering, PopRuntime, PopStorage;
      PopNumbers();
      LeaveMachines();
      LeaveStorage();
    }

    /** Unused gas goes back to the caller, and what the callee spent counts as forwarded to it. */
    method ReturnGas(child: Address, spent: uint64, remaining: uint64)
      requires Valid()
      modifies runtime, metering
      ensures Valid() && View().output == old(View().output)
      ensures View() == HostModel.ForwardGas(
                HostModel.RestoreGas(old(View()), remaining),
                HostModel.RestoreGas(old(View()), remaining).runtime.state.scAddress, child, spent)
    {
      hide BigIntContext.View, OutputContext.View, MeteringContext.View, StorageContext.View, VMHost.Valid;
      RestoreGas(remaining);
      ForwardGas(runtime.scAddress, child, spent);
    }

    /** The callee's output is merged into the caller's, or dropped. */
    method PopOutput(ok: bool)
      requires Valid() && |output.stateStack| > 0
      requires WellKeyed(View().output.state.accounts)
      requires View().output.stack != [] ==> WellKeyed(View().output.stack[|View().output.stack| - 1].accounts)
      modifies output, output.Top()
      ensures Valid() && View() == old(View()).(output :=
                if ok then HostModel.PopMergeOutput(old(View().output)) else HostModel.PopSetOutput(old(View().output)))
      ensures output.stateStack == old(output.stateStack[..|output.stateStack| - 1])
      ensures ok ==> fresh(output.outputState) && fresh(output.outputState.accounts.Values)
      ensures !ok ==> output.outputState == old(output.stateStack[|output.stateStack| - 1])
      ensures !ok ==> output.outputState.accounts == old(output.stateStack[|output.stateStack| - 1].accounts)
      ensures forall i :: 0 <= i < |output.stateStack| ==>
                output.stateStack[i].accounts == old(output.stateStack[i].accounts)
    {
      hide VMHost.View, HostModel.PopMergeOutput, HostModel.PopSetOutput, BigIntContext.Valid;
      if ok {
        PopMergeOutput();
      } else {
        PopSetOutput();
      }
    }

    /** The caller's contexts come back, except the output, and gas is settled. */
    method PopAndReturnGas(ok: bool, remaining: uint64)
      requires Valid()
      modifies bigInt, runtime, metering, storage
      ensures Valid() && View().output == old(View().output)
      ensures |old(bigInt.stateStack)| > 0 ==>
                && bigInt.values == old(bigInt.stateStack[|bigInt.stateStack| - 1])
                && bigInt.stateStack == old(bigInt.stateStack[..|bigInt.stateStack| - 1])
      ensures View() == GasReturned(old(View()), ok, remaining)
    {
      hide BigIntContext.View, OutputContext.View, MeteringContext.View, StorageContext.View, VMHost.Valid,
        PopBigInt, PopMetering, PopRuntime, PopStorage, HostModel.RestoreGas, HostModel.ForwardGas,
        GasSpentByContract;
      var child := runtime.scAddress;
      ReadingsAreRead();
      var spent := if ok then AddUint64(metering.initialCost, runtime.GetPointsUsed()) else 0;
      PopAllButOutput();
      ReturnGas(child, spent, remaining);
    }

    /** Leaving a frame of its own, given the callee's output. */
    method LeaveDest(out: Output, ghost o: VMOutput)
      requires Valid() && out.View() == o && |bigInt.stateStack| > 0 && |output.stateStack| > 0
      requires WellKeyed(View().output.state.accounts)
      requires View().output.stack != [] ==> WellKeyed(View().output.stack[|View().output.stack| - 1].accounts)
      modifies bigInt, runtime, metering, storage, output, output.Top()
      ensures Valid() && View() == HostModel.LeaveDest(old(View()), o)
      ensures Popped() && bigInt.values == old(bigInt.stateStack[|bigInt.stateStack| - 1])
      ensures o.returnCode.Ok? ==> fresh(output.outputState) && fresh(output.outputState.accounts.Values)
      ensures !o.returnCode.Ok? ==>
                && output.outputState == old(output.stateStack[|output.stateStack| - 1])
                && output.outputState.accounts == old(output.stateStack[|output.stateStack| - 1].accounts)
    {
      hide BigIntContext.View, OutputContext.View, MeteringContext.View, StorageContext.View, VMHost.Valid,
        PopBigInt, PopMetering, PopRuntime, PopStorage, HostModel.PopMergeOutput, HostModel.PopSetOutput, WellKeyed,
        HostModel.RestoreGas, HostModel.ForwardGas, GasSpentByContract;
      var ok := out.returnCode.Ok?;
      PopAndReturnGas(ok, out.gasRemaining);
      PopOutput(ok);
      SetTotalUsedGas(0);
    }

    /** A failed call in the caller's context is undone. */
    method UndoSame()
      requires Valid() && |bigInt.stateStack| > 0 && |output.stateStack| > 0
      modifies bigInt, runtime, metering, output
      ensures Valid() && View() == HostModel.UndoSame(old(View()))
      ensures Popped() && bigInt.values == old(bigInt.stateStack[|bigInt.stateStack| - 1])
      ensures output.outputState == old(output.stateStack[|output.stateStack| - 1])
      ensures output.outputState.accounts == old(output.stateStack[|output.stateStack| - 1].accounts)
    {
      hide BigIntContext.View, OutputContext.View, RuntimeContext.View, MeteringContext.View, StorageContext.View,
        VMHost.Valid, PopBigInt, PopMetering, PopRuntime, HostModel.PopSetOutput;
      PopNumbers();
      LeaveMachines();
      PopSetOutput();
    }

    /** A successful call in the caller's context goes on from the new state. */
    method KeepSame(out: Output, ghost o: VMOutput)
      requires Valid() && out.View() == o && |bigInt.stateStack| > 0 && |output.stateStack| > 0
      modifies bigInt, runtime, metering, output
      ensures Valid() && View() == HostModel.KeepSame(old(View()), o)
      ensures bigInt.values == old(bigInt.values)
      ensures bigInt.stateStack == old(bigInt.stateStack[..|bigInt.stateStack| - 1])
      ensures output.stateStack == old(output.stateStack[..|output.stateStack| - 1])
      ensures output.outputState == old(output.outputState)
      ensures output.outputState.accounts == old(output.outputState.accounts)
      ensures forall i :: 0 <= i < |output.stateStack| ==>
                output.stateStack[i].accounts == old(output.stateStack[i].accounts)
    {
      hide BigIntContext.View, OutputContext.View, MeteringContext.View, StorageContext.View, VMHost.Valid,
        DiscardBigInt, PopMetering, PopRuntime, HostModel.PopDiscardOutput, HostModel.RestoreGas,
        HostModel.ForwardGas, GasSpentByContract;
      var child, ok, remaining := runtime.scAddress, out.returnCode.Ok?, out.gasRemaining;
      ReadingsAreRead();
      var spent := if ok then AddUint64(metering.initialCost, runtime.GetPointsUsed()) else 0;
      DiscardNumbers();
      PopDiscardOutput();
      LeaveMachines();
      ReturnGas(child, spent, remaining);
    }

    method FinishSame(executeErr: Option<Error>)
      requires Valid() && |bigInt.stateStack| > 0 && |output.stateStack| > 0
      modifies Objects()
      ensures Valid() && View() == HostModel.FinishSame(old(View()), executeErr).0
      ensures Popped() && TakenBack()
    {
      hide VMHost.View, VMHost.Valid, HostModel.UndoSame, HostModel.KeepSame, HostModel.GetVMOutput;
      ReturnCodeField();
      if !output.outputState.returnCode.Ok? || executeErr.Some? {
        UndoSame();
        return;
      }
      var out := CloseFrame(None);
      KeepSame(out, out.View());
    }

    lemma ReturnCodeField()
      ensures output.outputState.returnCode == View().output.state.returnCode
    {
      output.StateFields();
    }

    /** What leaving a frame changes is out of reach of the callee's output. */
    lemma OutputOutOfReach(out: Output)
      requires Valid() && (out == output.outputState || (out !in output.stateStack && out.accounts == map[]))
      ensures (out as object) !in output.Top()
      ensures forall x: object :: x in out.accounts.Values || x in AmountsOf(out.accounts) || x == out.gasRefund ==>
                x !in output.Top() && x != bigInt && x != runtime && x != metering && x != storage && x != output
      ensures forall x :: x in out.accounts.Values ==> allocated(x)
      ensures forall x :: x in AmountsOf(out.accounts) ==> allocated(x)
    {
    }

    /** Leaving a frame, with the callee's output still as it was handed out. */
    method LeaveWith(out: Output, ghost o: VMOutput)
      requires Valid() && out.View() == o && |bigInt.stateStack| > 0 && |output.stateStack| > 0
      requires out == output.outputState || (out !in output.stateStack && out.accounts == map[])
      requires WellKeyed(View().output.state.accounts)
      requires View().output.stack != [] ==> WellKeyed(View().output.stack[|View().output.stack| - 1].accounts)
      modifies bigInt, runtime, metering, storage, output, output.Top()
      ensures Valid() && View() == HostModel.LeaveDest(old(View()), o) && out.View() == o
      ensures Popped() && TakenBack()
    {
      hide VMHost.View, VMHost.Valid, WellKeyed, HostModel.LeaveDest, AmountsOf, Output.View;
      OutputOutOfReach(out);
      LeaveDest(out, o);
      assert out.View() == o;
    }

    method CloseFrame(executeErr: Option<Error>) returns (out: Output)
      requires Valid()
      modifies Objects()
      ensures Valid() && Evolved()
      ensures out == output.outputState || (out !in output.stateStack && out.accounts == map[])
      ensures View() == HostModel.CalleeOutput(old(View()), executeErr).0
      ensures out.View() == HostModel.CalleeOutput(old(View()), executeErr).1
    {
      hide VMHost.View, VMHost.Valid, HostModel.CalleeOutput, Output.View;
      SavedOutOfReach();
      out := CalleeOutput(executeErr);
    }

    method FinishDest(executeErr: Option<Error>) returns (out: Output, err: Option<Error>)
      requires Valid() && |bigInt.stateStack| > 0 && |output.stateStack| > 0
      requires WellKeyed(HostModel.CalleeOutput(View(), executeErr).0.output.state.accounts)
      requires View().output.stack != [] ==> WellKeyed(View().output.stack[|View().output.stack| - 1].accounts)
      modifies Objects(), output.Top()
      ensures Valid() && CallResult(View(), out.View(), err) == HostModel.FinishDest(old(View()), executeErr)
      ensures Popped() && TakenBack()
    {
      hide VMHost.View, VMHost.Valid, HostModel.LeaveDest, WellKeyed, AmountsOf, Output.View,
        HostModel.CalleeOutput;
      OutputPartOfCallee(View(), executeErr);
      out := CloseFrame(executeErr);
      assert output.Top() == old(output.Top());
      CodeField(out);
      err := executeErr;
      if err.None? && !out.returnCode.Ok? {
        err := Some(ErrExecutionFailed);
      }
      LeaveWith(out, out.View());
    }

    lemma CodeField(out: Output)
      ensures out.View().returnCode == out.returnCode
    {
    }

    // -------------------------------------------------------------- nested calls

    /** An indirect call, once the contexts of the callee are in place. */
    method ExecuteCall(env: Env, input: CallInput, start: Start, body: Script) returns (err: Option<Error>)
      requires Valid()
      requires var p := HostModel.Prepare(env, View(), input, start); p.err.None? ==> Ready(env, p.host)
      modifies Objects()
      ensures Valid() && Evolved()
      ensures BodyResult(View(), err) == HostModel.ExecuteCall(env, old(View()), input, start, body)
      decreases body, 1
    {
      hide BigIntContext.View, OutputContext.View, RuntimeContext.View, MeteringContext.View, StorageContext.View,
        VMHost.Valid, HostModel.Prepare, HostModel.RunBody, Ready, VMHost.Objects;
      SavedOutOfReach();
      err := Prepare(env, input, start);
      if err.Some? {
        return;
      }
      if !start.FunctionMissing? {
        err := RunBody(env, body);
      }
      output.StateFields();
      PointsField();
      LimitField();
      if err.None? && runtime.GetPointsUsed() > metering.gasForExecution {
        err := Some(ErrNotEnoughGas);
      }
      if err.None? && !output.outputState.returnCode.Ok? {
        err := Some(ErrReturnCodeNotOk);
      }
    }

    lemma LimitField()
      ensures metering.gasForExecution == View().metering.state.gasForExecution
    {
    }

    /** A frame of its own, up to the point where it is finished. */
    method DestFrame(env: Env, input: CallInput, start: Start, body: Script) returns (err: Option<Error>)
      requires Valid() && Ready(env, View())
      modifies Objects()
      ensures Valid()
      ensures Pushed()
      ensures BodyResult(View(), err) == HostModel.DestFrame(env, old(View()), input, start, body)
      decreases body, 2
    {
      hide VMHost.View, VMHost.Valid, HostModel.DestEntry, HostModel.ExecuteCall, HostModel.Prepare, Ready, Inside,
        WellKeyed, VMHost.Objects;
      ghost var h := View();
      ReadyIsKeyed(env, h);
      DestEntryInside(env, h, input);
      var unlocked;
      unlocked, err := DestEntry(env, input);
      if err.None? {
        PrepareInside(env, h, View(), true, unlocked, start);
        err := ExecuteCall(env, unlocked, start, body);
      }
    }

    /** The callee runs in a frame of its own, which is merged into the caller's state or dropped. */
    method ExecuteOnDestContext(env: Env, input: CallInput, start: Start, body: Script)
      returns (out: Output, err: Option<Error>)
      requires Valid() && Ready(env, View())
      modifies Objects()
      ensures Valid() && Evolved()
      ensures CallResult(View(), out.View(), err) == ExecuteOnDest(env, old(View()), input, start, body)
      decreases body, 3
    {
      hide VMHost.View, VMHost.Valid, HostModel.DestFrame, HostModel.FinishDest, Ready, Inside, WellKeyed,
        HostModel.CalleeOutput, Output.View, VMHost.Objects;
      ghost var h := View();
      err := DestFrame(env, input, start, body);
      DestFrameInside(env, h, input, start, body);
      InsideIsKeyed(env, h, View(), true, err);
      out, err := FinishDest(err);
    }

    method SameFrame(env: Env, input: CallInput, start: Start, body: Script) returns (err: Option<Error>)
      requires Valid() && Ready(env, View())
      modifies Objects()
      ensures Valid()
      ensures Pushed()
      ensures BodyResult(View(), err) == HostModel.SameFrame(env, old(View()), input, start, body)
      decreases body, 2
    {
      hide VMHost.View, VMHost.Valid, HostModel.SameEntry, HostModel.ExecuteCall, HostModel.Prepare, Ready, Inside,
        WellKeyed, VMHost.Objects;
      ghost var h := View();
      ReadyIsKeyed(env, h);
      SameEntryInside(env, h, input);
      var unlocked;
      unlocked, err := SameEntry(env, input);
      if err.None? {
        PrepareInside(env, h, View(), false, unlocked, start);
        err := ExecuteCall(env, unlocked, start, body);
      }
    }

    /** The callee runs in the caller's storage and output, which are kept or restored. */
    method ExecuteOnSameContext(env: Env, input: CallInput, start: Start, body: Script) returns (err: Option<Error>)
      requires Valid() && Ready(env, View())
      modifies Objects()
      ensures Valid() && Evolved()
      ensures (View(), err) == ExecuteOnSame(env, old(View()), input, start, body)
      decreases body, 3
    {
      hide VMHost.View, VMHost.Valid, HostModel.SameFrame, Ready, Inside, WellKeyed, HostModel.FinishSame,
        VMHost.Objects;
      ghost var h := View();
      err := SameFrame(env, input, start, body);
      FinishSame(err);
      ErrOfFinishSame(HostModel.SameFrame(env, h, input, start, body));
    }

    // -------------------------------------------------------------- asynchronous calls

    method SetAsyncCallInfo(info: AsyncCallInfo)
      requires Valid()
      modifies runtime
      ensures Valid() && runtime.asyncCallInfo == Some(info)
      ensures View() == old(View()).(runtime := old(View().runtime).(
                state := old(View().runtime.state).(asyncCallInfo := Some(info))))
    {
      hide BigIntContext.View, OutputContext.View, BigIntContext.Valid, Apart, MeteringContext.View;
      bigInt.NotMine(runtime);
      output.NotMine(runtime);
      runtime.asyncCallInfo := Some(info);
    }

    /** Pays for the step, locks gas for the callback, and offers the rest to the callee. */
    method ExecuteAsyncCall(env: Env, destination: Address, data: Bytes, value: int) returns (err: Option<Error>)
      requires Valid()
      modifies runtime, output.outputState
      ensures Valid() && output.outputState.accounts == old(output.outputState.accounts)
      ensures BodyResult(View(), err) == PrepareAsync(env, old(View()), destination, data, value)
      ensures err.None? ==> runtime.asyncCallInfo.Some? && AsyncInfoOf(View()) == runtime.asyncCallInfo.value
    {
      hide BigIntContext.View, OutputContext.View, MeteringContext.View, StorageContext.View, VMHost.Valid,
        UseGasOn, HostModel.Fault, HostModel.GasLeft;
      PointsField();
      if GasLeft() <= env.gas.asyncCallStep {
        Fault(ErrNotEnoughGas);
        return Some(ErrExecutionFailed);
      }
      var callBack := runtime.scAddress in env.withCallback;
      UseGas(env.gas.asyncCallStep);
      var lock := 0;
      PointsField();
      if callBack {
        lock := AddUint64(MulUint64(runtime.codeSize, env.gas.aotPreparePerByte),
                          AddUint64(env.gas.asyncCallStep, env.gas.asyncCallbackGasLock));
        if GasLeft() <= lock {
          Fault(ErrNotEnoughGas);
          return Some(ErrExecutionFailed);
        }
        UseGas(lock);
        PointsField();
      }
      SetAsyncCallInfo(AsyncCallInfo(destination, data, GasLeft(), lock, value));
      err := None;
    }

    /** The call leaves the shard with all gas left and the locked gas. */
    method SendAsyncCallToDestination(env: Env, info: AsyncCallInfo) returns (err: Option<Error>)
      requires Valid()
      modifies runtime, metering, output.outputState, output.outputState.accounts.Values
      ensures Valid() && SameState()
      ensures BodyResult(View(), err) == SendAsync(env, old(View()), info)
    {
      hide BigIntContext.View, OutputContext.View, MeteringContext.View, StorageContext.View, VMHost.Valid,
        TransferOut, UseGasOn, HostModel.ForwardGas, HostModel.Fault, HostModel.GasLeft;
      var me := runtime.scAddress;
      err := Transfer(env, runtime.vmInput.callType.AsynchronousCall?, info.destination, me,
                      info.gasLimit, info.gasLocked, info.value, info.data, AsynchronousCall);
      if err.Some? {
        Fault(err.value);
        return;
      }
      PointsField();
      var left := GasLeft();
      ForwardGas(me, info.destination, (left + info.gasLocked) % TWO_64);
      UseGas(left);
    }

    /** A failed callback is reported in the caller's return data. */
    method Report(code: ReturnCode, message: string, ghost out: VMOutput)
      requires Valid() && code == out.returnCode && message == out.returnMessage
      modifies runtime, output.outputState
      ensures Valid() && output.outputState.accounts == old(output.outputState.accounts)
      ensures View() == ReportCallback(old(View()), out)
    {
      hide BigIntContext.View, OutputContext.View, BigIntContext.Valid, Apart, MeteringContext.View, ReturnCodeText;
      bigInt.NotMine(runtime);
      output.NotMine(runtime);
      runtime.vmInput := runtime.vmInput.(gasProvided := 0);
      assert output.View() == old(output.View());
      output.StateFields();
      SetReturn(output.outputState.returnData + [ReturnCodeText(code), ""], output.outputState.returnCode, message,
                output.outputState.logs);
    }

    /** The callback input, or nothing when the gas that came back does not pay for it. */
    function GetCallbackInput(env: Env, info: AsyncCallInfo, out: Output, ok: bool): Option<CallInput>
      reads runtime, out, out.accounts.Values
    {
      var length := if ok then AddUint64(8, DataLength(out.returnData, 1))
                    else AddUint64(8, AddUint64(3, Len(out.returnMessage)));
      var limit := (out.gasRemaining + info.gasLocked) % TWO_64;
      var cost := AddUint64(env.gas.asyncCallStep, MulUint64(env.gas.dataCopyPerByte, length));
      if limit <= cost then None else
        var value := LastValue(out, runtime.scAddress);
        Some(CallInput(VMInput(info.destination, AsynchronousCallBack, value, limit - cost, 0),
                       runtime.scAddress, CallBack, false))
    }

    function LastValue(out: Output, a: Address): int
      reads out, out.accounts.Values
    {
      if |out.returnData| > 0 || a !in out.accounts || out.accounts[a].outputTransfers == [] then 0 else
        var t := out.accounts[a].outputTransfers[|out.accounts[a].outputTransfers| - 1];
        if |t.data| == 0 then t.value else 0
    }

    lemma CallbackInputIsRead(env: Env, info: AsyncCallInfo, out: Output, ok: bool)
      ensures GetCallbackInput(env, info, out, ok) == CallbackInput(env, View(), info, out.View(), ok)
    {
      hide BigIntContext.View, OutputContext.View;
      HasAccount(out, runtime.scAddress);
      assert LastValue(out, runtime.scAddress) == LastTransferValue(out.View(), runtime.scAddress);
    }

    /** The callback could not be paid for. */
    method ReportUnpaid()
      requires Valid()
      modifies Objects()
      ensures Valid() && Evolved()
      ensures View() == ReportCallback(old(View()), ErrorOutput(old(View().output.state), ErrNotEnoughGas))
    {
      hide VMHost.View, VMHost.Valid, ReportCallback, ErrorOutput;
      SavedOutOfReach();
      ErrorParts();
      var message := if |output.outputState.returnMessage| > 0 then output.outputState.returnMessage
                     else ErrorText(ErrNotEnoughGas);
      Report(OutOfGas, message, ErrorOutput(View().output.state, ErrNotEnoughGas));
    }

    /** After the callback, what the contract had consumed is charged again, or the failure is reported. */
    method AfterCallback(result: Output, ghost d: VMOutput, err: Option<Error>, ok: bool, consumed: uint64)
      requires Valid() && result.View() == d
      modifies Objects()
      ensures Valid() && Evolved()
      ensures View() == CallbackDone(old(View()), d, err, ok, consumed)
    {
      hide VMHost.View, VMHost.Valid, ReportCallback, UseGasOn, Output.View;
      SavedOutOfReach();
      CodeField(result);
      MessageField(result);
      var code, message := result.returnCode, result.returnMessage;
      if err.None? && code.Ok? && ok {
        UseGas(consumed);
      }
      if err.Some? {
        Report(code, message, d);
      }
    }

    /** The callback starts with no points used on the caller's instance. */
    method ResetPoints(env: Env)
      requires Valid() && Ready(env, View())
      modifies Objects()
      ensures Valid() && Evolved()
      ensures Ready(env, View())
      ensures View() == old(View()).(runtime := HostModel.SetPointsUsed(old(View().runtime), 0))
    {
      hide VMHost.View, VMHost.Valid, Ready, Kept, HostModel.SetPointsUsed;
      SavedOutOfReach();
      SetPointsKept(env, View(), 0);
      SetPointsUsed(0);
    }

    method RunCallback(env: Env, info: AsyncCallInfo, out: Output, ok: bool, c: AsyncCall)
      requires Valid() && Ready(env, View())
      modifies Objects()
      ensures Valid() && Evolved()
      ensures BodyResult(View(), None) == HostModel.RunCallback(env, old(View()), info, old(out.View()), ok, c)
      decreases c, 3
    {
      hide VMHost.View, VMHost.Valid, Ready, Kept, CallbackInput, ExecuteOnDest, ReportCallback, UseGasOn,
        HostModel.SetPointsUsed, GasUsedForExecution, ErrorOutput, Output.View, VMHost.Objects;
      ghost var h := View();
      CallbackInputIsRead(env, info, out, ok);
      var input := GetCallbackInput(env, info, out, ok);
      if input.None? {
        ReportUnpaid();
        return;
      }
      ConsumedIsRead();
      var r := GetReadings();
      var consumed := SubUint64(r.used, metering.initialCost).0;
      ResetPoints(env);
      var result, err := ExecuteOnDestContext(env, input.value, c.callbackStart, c.callbackBody);
      AfterCallback(result, result.View(), err, ok, consumed);
    }

    lemma MessageField(out: Output)
      ensures out.View().returnMessage == out.returnMessage
    {
    }

    lemma ErrorParts()
      ensures ErrorOutput(View().output.state, ErrNotEnoughGas).returnCode == OutOfGas
      ensures ErrorOutput(View().output.state, ErrNotEnoughGas).returnMessage ==
              if |output.outputState.returnMessage| > 0 then output.outputState.returnMessage
              else ErrorText(ErrNotEnoughGas)
    {
      output.StateFields();
    }

    lemma ConsumedIsRead()
      ensures SubUint64(GetReadings().used, metering.initialCost).0 == GasUsedForExecution(View())
    {
      ReadingsAreRead();
    }

    lemma InputIsRead(c: Call)
      ensures GetCallInput(c) == CallInputOf(View(), c)
    {
    }

    function GetCallInput(c: Call): CallInput
      reads runtime, metering
    {
      var limit := if GasLeft() < c.gasLimit then GasLeft() else c.gasLimit;
      CallInput(VMInput(runtime.scAddress, DirectCall, c.value, limit, 0), c.recipient, c.callFunction, false)
    }

    function GetDestinationInput(name: FunctionName, info: AsyncCallInfo): CallInput
      reads runtime, metering
    {
      CallInput(VMInput(runtime.scAddress, AsynchronousCall, info.value, GasLeft(), info.gasLocked),
                info.destination, name, false)
    }

    lemma DestinationInputIsRead(c: AsyncCall, info: AsyncCallInfo)
      requires c.parsed.Some?
      ensures GetDestinationInput(c.parsed.value, info) == DestinationInput(View(), c, info)
    {
    }

    /** The destination is in this shard: it runs now, and its callback after it. */
    method RunHere(env: Env, info: AsyncCallInfo, c: AsyncCall)
      requires Valid() && Ready(env, View()) && c.parsed.Some?
      modifies Objects()
      ensures Valid() && Evolved()
      ensures BodyResult(View(), None) == CallHere(env, old(View()), info, c)
      decreases c, 4
    {
      hide VMHost.View, VMHost.Valid, Ready, Kept, ExecuteOnDest, DestinationInput, RolledBack, Output.View,
        HostModel.RunCallback, VMHost.Objects;
      ghost var h := View();
      DestinationInputIsRead(c, info);
      var input := GetDestinationInput(c.parsed.value, info);
      DestCallKept(env, h, input, c.start, c.body);
      KeptReady(env, h, ExecuteOnDest(env, h, input, c.start, c.body).host);
      var out, err := ExecuteOnDestContext(env, input, c.start, c.body);
      CodeField(out);
      RunCallback(env, info, out, err.None? && out.returnCode.Ok?, c);
    }

    method Offer(env: Env, c: AsyncCall) returns (err: Option<Error>)
      requires Valid() && Ready(env, View())
      modifies Objects()
      ensures Valid() && Evolved()
      ensures Ready(env, View())
      ensures BodyResult(View(), err) == PrepareAsync(env, old(View()), c.destination, c.data, c.value)
      ensures err.None? ==> runtime.asyncCallInfo.Some? && AsyncInfoOf(View()) == runtime.asyncCallInfo.value
    {
      hide VMHost.View, VMHost.Valid, Ready, Kept, PrepareAsync, AsyncInfoOf;
      SavedOutOfReach();
      ghost var h := View();
      PrepareAsyncKept(env, h, c.destination, c.data, c.value);
      err := ExecuteAsyncCall(env, c.destination, c.data, c.value);
      KeptReady(env, h, View());
    }

    method FindDestination(env: Env, a: Address) returns (err: Option<Error>)
      requires Valid() && Ready(env, View())
      modifies Objects()
      ensures Valid() && Evolved()
      ensures Ready(env, View())
      ensures View() == WithOutput(old(View()), HostModel.GetCode(env, old(View().output.state), a).0)
      ensures err == HostModel.GetCode(env, old(View().output.state), a).2
    {
      hide VMHost.View, VMHost.Valid, Ready, HostModel.GetCode;
      SavedOutOfReach();
      AfterGetCode(env, View(), a);
      var code;
      code, err := GetCode(env, a);
    }

    method SendAway(env: Env, info: AsyncCallInfo) returns (err: Option<Error>)
      requires Valid()
      modifies Objects()
      ensures Valid() && Evolved()
      ensures BodyResult(View(), err) == SendAsync(env, old(View()), info)
    {
      hide VMHost.View, VMHost.Valid, SendAsync;
      SavedOutOfReach();
      err := SendAsyncCallToDestination(env, info);
    }

    /** The asynchronous call ends the body: sent away, or run here together with its callback. */
    method RunAsync(env: Env, c: AsyncCall) returns (err: Option<Error>)
      requires Valid() && Ready(env, View())
      modifies Objects()
      ensures Valid() && Evolved()
      ensures BodyResult(View(), err) == HostModel.RunAsync(env, old(View()), c)
      decreases c, 5
    {
      hide VMHost.View, VMHost.Valid, Ready, PrepareAsync, CallHere, SendAsync, AsyncInfoOf, HostModel.GetCode,
        HostModel.RunAsync, VMHost.Objects;
      RunAsyncSplits(env, View(), c);
      err := Offer(env, c);
      if err.Some? {
        return;
      }
      if c.parsed.None? {
        return Some(ErrInvalidCallData);
      }
      var info := runtime.asyncCallInfo.value;
      var e := FindDestination(env, c.destination);
      if e.Some? {
        err := SendAway(env, info);
      } else {
        RunHere(env, info, c);
      }
    }

    /** One action other than an asynchronous call; a failed call does not stop its caller. */
    method Step(env: Env, a: Action) returns (err: Option<Error>)
      requires Valid() && Ready(env, View()) && !a.Async?
      modifies Objects()
      ensures Valid() && Evolved()
      ensures Ready(env, View()) && BodyResult(View(), err) == StepOf(env, old(View()), a)
      decreases a, 4
    {
      hide VMHost.View, VMHost.Valid, Ready, Kept, CallInputOf, ExecuteOnDest, ExecuteOnSame, HostModel.LocalAction,
        RolledBack, VMHost.Objects;
      StepKeepsReady(env, View(), a);
      err := None;
      if a.CallDest? {
        InputIsRead(a.call);
        var _, _ := ExecuteOnDestContext(env, GetCallInput(a.call), a.call.start, a.call.body);
      } else if a.CallSame? {
        InputIsRead(a.call);
        var _ := ExecuteOnSameContext(env, GetCallInput(a.call), a.call.start, a.call.body);
      } else {
        err := LocalAction(env, a);
      }
    }

    /** A contract runs its script action by action. */
    method RunBody(env: Env, s: Script) returns (err: Option<Error>)
      requires Valid() && Ready(env, View())
      modifies Objects()
      ensures Valid() && Evolved()
      ensures BodyResult(View(), err) == HostModel.RunBody(env, old(View()), s)
      decreases s, 0
    {
      hide VMHost.View, VMHost.Valid, Ready, StepOf, HostModel.RunAsync, VMHost.Objects;
      RunBodySplits(env, View(), s);
      if s.Done? {
        return None;
      }
      if s.first.Async? {
        err := RunAsync(env, s.first.async);
        return;
      }
      err := Step(env, s.first);
      if err.None? {
        err := RunBody(env, s.rest);
      }
    }

    // -------------------------------------------------------------- a transaction

    method ResetContexts()
      requires Valid()
      modifies bigInt, output, runtime, metering, storage
      ensures Valid() && View() == HostModel.InitState(old(View()))
      ensures fresh(output.outputState) && output.outputState.accounts == map[] && output.stateStack == []
      ensures bigInt.values == map[] && bigInt.stateStack == []
    {
      hide BigIntContext.View, OutputContext.View, BigIntContext.Valid, Apart, RuntimeContext.View,
        MeteringContext.View;
      runtime.InitState();
      metering.InitState();
      storage.stateStack := [];
      bigInt.InitState();
      bigInt.ClearStateStack();
      bigInt.NotMine(output);
      output.Reset();
    }

    method AddTxValueToAccount(a: Address, value: int)
      requires Valid()
      modifies output.outputState, output.outputState.accounts.Values
      ensures Valid() && SameState()
      ensures View() == WithOutput(old(View()), AddDelta(old(View().output.state), a, value))
    {
      hide BigIntContext.View, OutputContext.View, BigIntContext.Valid, Apart, AddDelta;
      OutputAlone();
      output.AddTxValueToAccount(a, value);
    }

    method InitMachines(input: CallInput) returns (unlocked: CallInput)
      requires Valid()
      modifies runtime, metering, storage
      ensures Valid() && unlocked == Unlocked(input)
      ensures View() == old(View()).(
                runtime := InitRuntime(old(View().runtime), input),
                metering := InitMetering(old(View().metering), Unlocked(input)),
                storage := old(View().storage).(address := input.recipient))
    {
      hide BigIntContext.View, OutputContext.View, Apart, BigIntContext.Valid, AmountsOf, AmountsIn, AccountsIn,
        CellsOf, RuntimeContext.View, MeteringContext.View;
      bigInt.NotMine(runtime);
      output.NotMine(runtime);
      bigInt.NotMine(metering);
      output.NotMine(metering);
      bigInt.NotMine(storage);
      output.NotMine(storage);
      runtime.InitStateFromContractCallInput(input);
      unlocked := metering.InitStateFromContractCallInput(input);
      storage.address := input.recipient;
    }

    method EnterRoot(input: CallInput)
      requires Valid()
      modifies bigInt, output, runtime, metering, storage
      ensures Valid() && View() == HostModel.EnterRoot(old(View()), input)
      ensures fresh(output.outputState) && fresh(output.outputState.accounts.Values)
      ensures bigInt.values == map[] && output.stateStack == []
    {
      hide VMHost.View, VMHost.Valid, HostModel.InitState, InitRuntime, InitMetering, AddDelta;
      ResetContexts();
      var _ := InitMachines(input);
      AddTxValueToAccount(input.recipient, input.vmInput.callValue);
    }

    /** A contract called from another shard answers with all its gas left. */
    /** The code and the data of the output, as the text of an answer. */
    method AnswerText() returns (text: Bytes)
      requires Valid()
      ensures Valid() && View() == old(View()) && text == AnswerData(View().output.state)
    {
      hide BigIntContext.View, OutputContext.View, Apart, BigIntContext.Valid, AmountsOf, AmountsIn, AccountsIn,
        CellsOf, ReturnCodeText, Hex;
      bigInt.NotMine(this);
      output.NotMine(this);
      output.StateFields();
      var code, data := ReturnCodeText(output.outputState.returnCode), output.outputState.returnData;
      assert AnswerData(View().output.state) == JoinData([code] + data);
      text := [SEPARATOR] + Hex(code);
      FirstField(code, data);
      for i := 0 to |data|
        invariant text + JoinData(data[i..]) == JoinData([code] + data)
      {
        NextField(text, data, i);
        text := text + ([SEPARATOR] + Hex(data[i]));
      }
      assert data[|data|..] == [] && text + "" == text;
    }

    method SendCallbackToCaller(env: Env) returns (err: Option<Error>)
      requires Valid()
      modifies runtime, metering, output.outputState, output.outputState.accounts.Values
      ensures Valid() && SameState()
      ensures BodyResult(View(), err) == SendCallback(env, old(View()))
    {
      hide BigIntContext.View, OutputContext.View, MeteringContext.View, StorageContext.View, VMHost.Valid,
        TransferOut, UseGasOn, HostModel.ForwardGas, HostModel.Fault, HostModel.GasLeft, AnswerData;
      var me, input := runtime.scAddress, runtime.vmInput;
      PointsField();
      var answer := AnswerText();
      err := Transfer(env, input.callType.AsynchronousCall?, input.callerAddr, me, GasLeft(), 0, input.callValue,
                      answer, AsynchronousCallBack);
      if err.Some? {
        Fault(err.value);
        return;
      }
      PointsField();
      var left := GasLeft();
      ForwardGas(me, input.callerAddr, left);
      UseGas(left);
    }

    method Answer(env: Env) returns (err: Option<Error>)
      requires Valid()
      modifies Objects()
      ensures Valid() && Evolved()
      ensures BodyResult(View(), err) == SendCallback(env, old(View()))
    {
      hide VMHost.View, VMHost.Valid, SendCallback;
      SavedOutOfReach();
      err := SendCallbackToCaller(env);
    }

    /** The body of a transaction, once its contract is started. */
    method RunRoot(env: Env, input: CallInput, start: Start, body: Script) returns (err: Option<Error>)
      requires Valid() && Ready(env, View())
      modifies Objects()
      ensures Valid() && Evolved()
      ensures BodyResult(View(), err) == RootBody(env, old(View()), input, start, body)
    {
      hide VMHost.View, VMHost.Valid, HostModel.RunBody, Ready, SendCallback, VMHost.Objects;
      if input.callFunction.Init? {
        return Some(ErrInitFuncCalledInRun);
      }
      if input.callFunction.CallBack? {
        return Some(ErrCallBackFuncCalledInRun);
      }
      if start.FunctionMissing? {
        return Some(ErrFuncNotFound);
      }
      err := RunBody(env, body);
      PointsField();
      LimitField();
      if err.None? && runtime.GetPointsUsed() > metering.gasForExecution {
        err := Some(ErrNotEnoughGas);
      }
      if err.None? && input.vmInput.callType.AsynchronousCall? {
        err := Answer(env);
      }
    }

    /** The contexts start anew, so only new objects are touched from here on. */
    method StartRoot(env: Env, input: CallInput, start: Start) returns (err: Option<Error>)
      requires Valid() && Quiescent(View()) && input.vmInput.callValue >= 0
      modifies bigInt, output, runtime, metering, storage
      ensures Valid() && BodyResult(View(), err) == RootStart(env, old(View()), input, start)
      ensures fresh({output.outputState} + output.outputState.accounts.Values) && bigInt.values == map[]
      ensures err.None? ==> Ready(env, View())
    {
      hide VMHost.View, VMHost.Valid, HostModel.EnterRoot, HostModel.LoadAndStart, Within, Quiescent, Ready,
        RootError;
      ghost var h := View();
      EnterRootWithin(env, h, input);
      EnterRoot(input);
      RootStarts(env, h, input, View(), start);
      if input.vmInput.gasProvided < env.gas.getCode {
        return Some(ErrNotEnoughGas);
      }
      err := LoadAndStart(env, start);
      if err.Some? {
        err := Some(RootError(err.value));
      }
    }

    /** Everything up to the final output. */
    method DoRunSmartContractCall(env: Env, input: CallInput, start: Start, body: Script) returns (err: Option<Error>)
      requires Valid() && Quiescent(View())
      requires input.vmInput.callValue >= 0 && !input.vmInput.callType.AsynchronousCallBack?
      modifies bigInt, output, runtime, metering, storage
      ensures Valid() && fresh({output.outputState} + output.outputState.accounts.Values)
      ensures BodyResult(View(), err) == RootFrame(env, old(View()), input, start, body)
    {
      hide VMHost.View, VMHost.Valid, RootStart, RootBody, Quiescent, Ready, RootFrame;
      RootFrameSplits(env, View(), input, start, body);
      err := StartRoot(env, input, start);
      if err.None? {
        ghost var started := Objects();
        assert fresh(started - {bigInt, output, runtime, metering, storage});
        err := RunRoot(env, input, start, body);
        assert fresh(Objects() - {bigInt, output, runtime, metering, storage});
        output.NotMine(bigInt);
        output.NotMine(runtime);
        output.NotMine(metering);
        output.NotMine(storage);
        output.NotMine(output);
      }
    }

    method CleanWasmerInstance()
      requires Valid()
      modifies runtime
      ensures Valid() && View() == old(View()).(runtime := CleanInstance(old(View().runtime)))
    {
      hide BigIntContext.View, OutputContext.View, BigIntContext.Valid, Apart, MeteringContext.View;
      bigInt.NotMine(runtime);
      output.NotMine(runtime);
      runtime.CleanWasmerInstance();
    }

    /** A transaction calling a contract. The heap of shared amounts, accounts and states computes what
        the contexts as values do, so every property of those runs is a property of this method: the
        clauses after the first restate rollback of the stacks, value and gas on the objects. */
    method RunSmartContractCall(env: Env, input: CallInput, start: Start, body: Script)
      returns (out: Output, err: Option<Error>)
      requires Valid() && Quiescent(View())
      requires input.vmInput.callValue >= 0 && !input.vmInput.callType.AsynchronousCallBack?
      modifies bigInt, output, runtime, metering, storage
      ensures Valid() && Quiescent(View()) && StacksEmpty(View())
      ensures CallResult(View(), out.View(), err)
              == HostModel.RunSmartContractCall(env, old(View()), input, start, body)
      ensures TotalDelta(output.View().state.accounts) == input.vmInput.callValue
      ensures
        && input.vmInput.gasProvided <= MAX_I64
        && Distinct(body) && LeavesShard(env, body) && input.recipient !in Recipients(body)
        ==>
          && (out.returnCode.Ok? <==> err.None? && RootUnpaid(env, old(View()), input, start, body) == 0)
          && (out.returnCode.Ok? ==> TotalGas(out.View().accounts) + out.gasRemaining == input.vmInput.gasProvided)
    {
      hide VMHost.View, VMHost.Valid, Quiescent, StacksEmpty, RootFrame, HostModel.CalleeOutput, Output.View,
        CleanInstance, TotalDelta, TotalGas, AmountsOf;
      ghost var h := View();
      err := DoRunSmartContractCall(env, input, start, body);
      out := CalleeOutput(err);
      NotReached(out.accounts.Values, AmountsOf(out.accounts), runtime);
      OutAllocated(out);
      CleanWasmerInstance();
      assert out.View() == HostModel.RunSmartContractCall(env, h, input, start, body).output;
      TransactionKeepsHost(env, h, input, start, body);
      GasField(out);
      ViewParts();
      if Distinct(body) && LeavesShard(env, body) && input.recipient !in Recipients(body)
         && input.vmInput.gasProvided <= MAX_I64 {
        TransactionConservesGas(env, h, input, start, body);
      }
    }

    lemma ViewParts()
      ensures View().output == output.View()
    {
    }

    lemma GasField(out: Output)
      ensures out.View().returnCode == out.returnCode && out.View().gasRemaining == out.gasRemaining
    {
    }

    lemma OutAllocated(out: Output)
      ensures forall x :: x in out.accounts.Values ==> allocated(x)
      ensures forall x :: x in AmountsOf(out.accounts) ==> allocated(x)
    {
    }
  }
}
