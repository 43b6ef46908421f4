/** What every step of a contract keeps, whatever calls it makes: the shape of all stacks, the
    caller's instance, and the growth of the output. Rollback follows. */
module Frames {
  import opened Overflow
  import opened Wrappers
  import opened Types
  import opened OutputModel
  import opened HostModel
  import opened OutputGrowth

  // ---------------------------------------------------------------- instances

  /** Nothing but the points of the running instance changes, and every instance started since
      has been cleaned exactly once. */
  ghost predicate InstancesKept(r: Runtime, q: Runtime) {
    && |r.instances| <= |q.instances|
    && (forall i :: 0 <= i < |r.instances| ==> q.instances[i].cleaned == r.instances[i].cleaned)
    && (forall i :: 0 <= i < |r.instances| && r.instance != Some(i) ==> q.instances[i] == r.instances[i])
    && (forall i :: |r.instances| <= i < |q.instances| ==> q.instances[i].cleaned == 1)
  }

  /** The same seen from inside a frame: the frame's own instance, if it has one, is the only
      live one among those started since. */
  ghost predicate FrameInstances(r: Runtime, q: Runtime) {
    && |r.instances| <= |q.instances|
    && (forall i :: 0 <= i < |r.instances| ==> q.instances[i].cleaned == r.instances[i].cleaned)
    && (forall i :: 0 <= i < |r.instances| && r.instance != Some(i) ==> q.instances[i] == r.instances[i])
    && (q.instance == r.instance || q.instance.None? || |r.instances| <= q.instance.value < |q.instances|)
    && (forall i :: |r.instances| <= i < |q.instances| ==>
          q.instances[i].cleaned == if q.instance == Some(i) then 0 else 1)
  }

  lemma {:induction false} LiveCountOfSuffix(s: seq<Instance>, t: seq<Instance>, own: Option<nat>)
    requires |s| <= |t|
    requires forall i :: 0 <= i < |s| ==> t[i].cleaned == s[i].cleaned
    requires forall i :: |s| <= i < |t| ==> t[i].cleaned == if own == Some(i) then 0 else 1
    ensures LiveCount(t) == LiveCount(s) + if own.Some? && |s| <= own.value < |t| then 1 else 0
    decreases |t|
  {
    if |t| > |s| {
      LiveCountOfSuffix(s, t[..|t| - 1], own);
    } else if |t| > 0 {
      LiveCountOfSuffix(s[..|s| - 1], t[..|t| - 1], own);
    }
  }

  /** No more instances were ever live at once than the limit allows. */
  ghost predicate PeakBounded(env: Env, r: Runtime, q: Runtime) {
    q.peak <= r.peak || q.peak <= env.maxInstances
  }

  /** A running contract has an instance, which has not been cleaned; it and the instances below
      it on the stack are the live ones. */
  ghost predicate Ready(env: Env, h: Host) {
    && Sound(env, h.output.state)
    && NoneCleaned(h.runtime)
    && LiveCount(h.runtime.instances) == |h.runtime.instanceStack| + 1
  }

  /** There is a running instance, and neither it nor any on the instance stack has been cleaned. */
  ghost predicate NoneCleaned(r: Runtime) {
    && r.instance.Some? && r.instance.value < |r.instances| && r.instances[r.instance.value].cleaned == 0
    && (forall i :: 0 <= i < |r.instanceStack| ==>
          && r.instanceStack[i].Some? && r.instanceStack[i].value < |r.instances|
          && r.instances[r.instanceStack[i].value].cleaned == 0)
  }

  ghost predicate SameRuntimeState(s: RuntimeState, t: RuntimeState) {
    && t.scAddress == s.scAddress && t.callFunction == s.callFunction && t.readOnly == s.readOnly
    && t.vmInput == s.vmInput.(gasProvided := t.vmInput.gasProvided)
  }

  // ---------------------------------------------------------------- what a body keeps

  /** All stacks, the running contract's frame and instance, the gas triple and the storage
      address are those of before; the output has grown. */
  ghost predicate Kept(env: Env, h: Host, k: Host) {
    && k.bigInt.stack == h.bigInt.stack
    && k.output.stack == h.output.stack && k.output.codeUpdates == h.output.codeUpdates
    && k.runtime.stack == h.runtime.stack && k.runtime.instanceStack == h.runtime.instanceStack
    && SameRuntimeState(h.runtime.state, k.runtime.state)
    && k.runtime.instance == h.runtime.instance && InstancesKept(h.runtime, k.runtime)
    && PeakBounded(env, h.runtime, k.runtime)
    && k.metering.state == h.metering.state && k.metering.stack == h.metering.stack
    && (k.metering.totalUsedGas == h.metering.totalUsedGas || k.metering.totalUsedGas == 0)
    && k.storage == h.storage
    && Grows(env, h.output.state, k.output.state)
  }

  lemma KeptTransitive(env: Env, h: Host, k: Host, l: Host)
    requires Ready(env, h) && Kept(env, h, k) && Kept(env, k, l)
    ensures Kept(env, h, l) && Ready(env, k) && Ready(env, l)
  {
    KeptReady(env, h, k);
    KeptReady(env, k, l);
    GrowsTransitive(env, h.output.state, k.output.state, l.output.state);
  }

  lemma KeptReflexive(env: Env, h: Host)
    requires Ready(env, h)
    ensures Kept(env, h, h)
  {
    GrowsReflexive(env, h.output.state);
  }

  lemma KeptReady(env: Env, h: Host, k: Host)
    requires Ready(env, h) && Kept(env, h, k)
    ensures Ready(env, k) && NoneCleaned(k.runtime)
  {
    LiveCountOfSuffix(h.runtime.instances, k.runtime.instances, None);
  }

  lemma SoundWhenReady(env: Env, h: Host)
    requires Ready(env, h)
    ensures Sound(env, h.output.state)
  {
  }

  /** The observable state of a caller, as the finishers restore it after a failed call. */
  ghost predicate RolledBack(h: Host, k: Host) {
    && k.bigInt == h.bigInt
    && k.output == h.output
    && k.runtime.state == h.runtime.state && k.runtime.stack == h.runtime.stack
    && k.runtime.instance == h.runtime.instance && k.runtime.instanceStack == h.runtime.instanceStack
    && InstancesKept(h.runtime, k.runtime)
    && k.metering.state == h.metering.state && k.metering.stack == h.metering.stack
    && k.storage == h.storage
  }

  lemma RolledBackIsKept(env: Env, h: Host, k: Host)
    requires Ready(env, h) && RolledBack(h, k) && PeakBounded(env, h.runtime, k.runtime)
    requires k.metering.totalUsedGas == h.metering.totalUsedGas || k.metering.totalUsedGas == 0
    ensures Kept(env, h, k)
  {
  }

  lemma WithOutputKept(env: Env, h: Host, o: VMOutput)
    requires Ready(env, h) && Grows(env, h.output.state, o)
    ensures Kept(env, h, WithOutput(h, o))
  {
  }

  lemma SetPointsKept(env: Env, h: Host, points: uint64)
    requires Ready(env, h)
    ensures var k := h.(runtime := SetPointsUsed(h.runtime, points)); Kept(env, h, k) && Ready(env, k)
  {
    KeptReady(env, h, h.(runtime := SetPointsUsed(h.runtime, points)));
  }

  lemma UseGasKept(env: Env, h: Host, gas: uint64)
    requires Ready(env, h)
    ensures Kept(env, h, UseGasOn(h, gas)) && Ready(env, UseGasOn(h, gas))
  {
    SetPointsKept(env, h, AddUint64(PointsUsed(h.runtime), gas));
  }

  lemma ForwardGasKept(env: Env, h: Host, a: Address, b: Address, gas: uint64)
    requires Ready(env, h)
    ensures Kept(env, h, ForwardGas(h, a, b, gas))
  {
  }

  lemma FaultKept(env: Env, h: Host, e: Error)
    requires Ready(env, h)
    ensures Kept(env, h, Fault(h, e).host)
  {
    var h1 := UseGasOn(h, GasLeft(h));
    UseGasKept(env, h, GasLeft(h));
    var o := h1.output.state.(returnCode := ExecutionFailed, returnMessage := ErrorText(e));
    WithOutputKept(env, h1, o);
    KeptTransitive(env, h, h1, WithOutput(h1, o));
  }

  lemma ChargeKeyKept(env: Env, h: Host, key: Bytes)
    requires Ready(env, h)
    ensures Kept(env, h, ChargeKey(env, h, key)) && Ready(env, ChargeKey(env, h, key))
  {
    if |key| > ADDRESS_LEN {
      UseGasKept(env, h, MulUint64(env.gas.dataCopyPerByte, Len(key[ADDRESS_LEN..])));
    }
  }

  lemma OutputThenGasKept(env: Env, h: Host, o: VMOutput, gas: uint64)
    requires Ready(env, h) && Grows(env, h.output.state, o)
    ensures Kept(env, h, UseGasOn(WithOutput(h, o), gas))
  {
    WithOutputKept(env, h, o);
    UseGasKept(env, WithOutput(h, o), gas);
    KeptTransitive(env, h, WithOutput(h, o), UseGasOn(WithOutput(h, o), gas));
  }

  lemma ReadStorageKept(env: Env, h: Host, key: Bytes)
    requires Ready(env, h)
    ensures Kept(env, h, ReadStorage(env, h, key).0)
  {
    var h1 := ChargeKey(env, h, key);
    ChargeKeyKept(env, h, key);
    CachedReadGrows(env, h1.output.state, h1.storage.address, key);
    var (o, v) := CachedRead(env, h1.output.state, h1.storage.address, key);
    OutputThenGasKept(env, h1, o, MulUint64(env.gas.dataCopyPerByte, Len(v)));
    KeptTransitive(env, h, h1, ReadStorage(env, h, key).0);
  }

  lemma ReadStorageFromAddressKept(env: Env, h: Host, a: Address, key: Bytes)
    requires Ready(env, h)
    ensures Kept(env, h, ReadStorageFromAddress(env, h, a, key).0)
  {
    var h1 := ChargeKey(env, h, key);
    ChargeKeyKept(env, h, key);
    if !(a != h1.storage.address && (a !in env.accounts || !env.accounts[a].readable)) {
      CachedReadGrows(env, h1.output.state, a, key);
      var (o, v) := if HasPrefix(key, env.protectedKeyPrefix)
                    then (h1.output.state, HookStorage(env, a, key))
                    else CachedRead(env, h1.output.state, a, key);
      OutputThenGasKept(env, h1, o, MulUint64(env.gas.dataCopyPerByte, Len(v)));
      KeptTransitive(env, h, h1, ReadStorageFromAddress(env, h, a, key).0);
    }
  }

  lemma FreeGasGrows(env: Env, o: VMOutput, p: VMOutput, gas: uint64)
    requires Grows(env, o, p)
    ensures Grows(env, o, FreeGas(p, gas))
  {
    hide TotalDelta;
  }

  lemma WriteStorageKept(env: Env, h: Host, key: Bytes, value: Bytes)
    requires Ready(env, h)
    ensures Kept(env, h, WriteStorage(env, h, key, value).0)
  {
    hide Kept, Ready, ChargeKey, CachedRead, PriceOfChange, UseGasOn, FreeGas, Grows, Sound, SetAccount;
    if h.runtime.state.readOnly || HasPrefix(key, env.protectedKeyPrefix)
       || (HasPrefix(key, PROTECTED_STORAGE_PREFIX) && h.storage.protectionEnabled) {
      KeptReflexive(env, h);
    } else {
      var h1 := ChargeKey(env, h, key);
      ChargeKeyKept(env, h, key);
      SoundWhenReady(env, h1);
      var a := h1.storage.address;
      var (o, current) := CachedRead(env, h1.output.state, a, key);
      CachedReadGrows(env, h1.output.state, a, key);
      if current == value {
        OutputThenGasKept(env, h1, o, MulUint64(env.gas.dataCopyPerByte, Len(value)));
      } else {
        var e := PriceOfChange(env, Len(current), Len(value));
        StoredGrows(env, h1.output.state, a, key, value);
        var acc := o.accounts[a];
        var o1 := SetAccount(o, a, acc.(storage := acc.storage[key := value]));
        var o2 := if e.freed.Some? then FreeGas(o1, e.freed.value) else o1;
        FreeGasGrows(env, h1.output.state, o1, if e.freed.Some? then e.freed.value else 0);
        OutputThenGasKept(env, h1, o2, e.used);
      }
      KeptTransitive(env, h, h1, WriteStorage(env, h, key, value).0);
    }
  }

  lemma LocalActionKept(env: Env, h: Host, a: Action)
    requires Ready(env, h)
    requires !a.CallDest? && !a.CallSame? && !a.Async?
    ensures Kept(env, h, LocalAction(env, h, a).host)
  {
    hide Kept, Ready, TransferOut, WriteStorage, ReadStorage, ReadStorageFromAddress, UseGasOn, Fault, Grows;
    SoundWhenReady(env, h);
    var o := h.output.state;
    match a
    case UseGas(gas) => UseGasKept(env, h, gas);
    case Transfer(dest, value, gasLimit, data) =>
      var async := h.runtime.state.vmInput.callType.AsynchronousCall?;
      TransferOutGrows(env, o, async, dest, h.runtime.state.scAddress, gasLimit, 0, value, data, DirectCall);
      var (o1, err) := TransferOut(
        env, o, async, dest, h.runtime.state.scAddress, gasLimit, 0, value, data, DirectCall);
      WithOutputKept(env, h, o1);
      if err.Some? {
        KeptReady(env, h, WithOutput(h, o1));
        FaultKept(env, WithOutput(h, o1), err.value);
        KeptTransitive(env, h, WithOutput(h, o1), Fault(WithOutput(h, o1), err.value).host);
      }
    case SetStorage(key, value) =>
      WriteStorageKept(env, h, key, value);
      var (h1, _, err) := WriteStorage(env, h, key, value);
      if err.Some? {
        KeptReady(env, h, h1);
        FaultKept(env, h1, err.value);
        KeptTransitive(env, h, h1, Fault(h1, err.value).host);
      }
    case GetStorage(key) => ReadStorageKept(env, h, key);
    case GetStorageFromAddress(address, key) => ReadStorageFromAddressKept(env, h, address, key);
    case Fail(e) => FaultKept(env, h, e);
    case _ => PlainActionKept(env, h, a);
  }

  lemma PlainActionKept(env: Env, h: Host, a: Action)
    requires Ready(env, h) && (a.SetBigInt? || a.Finish? || a.WriteLog? || a.Signal?)
    ensures Kept(env, h, LocalAction(env, h, a).host)
  {
    hide TotalDelta;
  }

  // ---------------------------------------------------------------- inside a frame

  /** f is a state inside one frame pushed on top of h. */
  ghost predicate Inside(env: Env, h: Host, f: Host, own: bool) {
    && f.bigInt.stack == h.bigInt.stack + [h.bigInt.values]
    && f.output.stack == h.output.stack + [h.output.state] && f.output.codeUpdates == h.output.codeUpdates
    && f.runtime.stack == h.runtime.stack + [h.runtime.state]
    && f.runtime.instanceStack == h.runtime.instanceStack + [h.runtime.instance]
    && FrameInstances(h.runtime, f.runtime) && PeakBounded(env, h.runtime, f.runtime)
    && f.metering.stack == h.metering.stack + [h.metering.state]
    && (own || f.metering.totalUsedGas == h.metering.totalUsedGas || f.metering.totalUsedGas == 0)
    && f.storage == (if own
                     then h.storage.(stack := h.storage.stack + [h.storage.address], address := f.storage.address)
                     else h.storage)
    && Grows(env, h.output.state, f.output.state)
  }

  lemma EnterDestInside(env: Env, h: Host, input: CallInput)
    requires Ready(env, h)
    ensures Inside(env, h, EnterDest(h, input), true)
    ensures EnterDest(h, input).runtime.instances == h.runtime.instances
    ensures EnterDest(h, input).runtime.instance == h.runtime.instance
  {
    hide TotalDelta, Sound, Valid, Snapshot, CurrentTotalUsedGas, Extends, LiveCount, AccountExtends;
    SoundIsValid(env, h.output.state);
    SnapshotIsIdentity(h.output.state);
    CensoredGrows(env, h.output.state);
  }

  lemma CensoredGrows(env: Env, o: VMOutput)
    requires Sound(env, o)
    ensures Grows(env, o, Censored(o))
  {
    hide TotalDelta;
  }

  lemma EnterSameInside(env: Env, h: Host, input: CallInput)
    requires Ready(env, h)
    ensures Inside(env, h, EnterSame(h, input), false)
    ensures EnterSame(h, input).runtime.instances == h.runtime.instances
    ensures EnterSame(h, input).runtime.instance == h.runtime.instance
  {
    SoundIsValid(env, h.output.state);
    SnapshotIsIdentity(h.output.state);
  }

  lemma OutputInside(env: Env, h: Host, f: Host, own: bool, o: VMOutput)
    requires Inside(env, h, f, own) && Grows(env, f.output.state, o)
    ensures Inside(env, h, WithOutput(f, o), own)
  {
    GrowsTransitive(env, h.output.state, f.output.state, o);
  }

  /** A body running inside a frame stays inside it. */
  lemma KeptInside(env: Env, h: Host, f: Host, own: bool, k: Host)
    requires Ready(env, h) && Ready(env, f)
    requires Inside(env, h, f, own) && Kept(env, f, k)
    requires f.runtime.instance.value >= |h.runtime.instances|
    ensures Inside(env, h, k, own)
  {
    GrowsTransitive(env, h.output.state, f.output.state, k.output.state);
  }

  lemma StartInstanceInside(env: Env, r: Runtime, q: Runtime, start: Start)
    requires FrameInstances(r, q) && |q.instances| == |r.instances|
    requires r.instance.Some? && r.instance.value < |r.instances| && LiveCount(r.instances) == |q.instanceStack|
    ensures var (s, err) := StartInstance(env, q, start);
      && FrameInstances(r, s) && PeakBounded(env, q, s)
      && (err.None? ==> LiveCount(s.instances) == |q.instanceStack| + 1)
      && s == q.(instances := s.instances, instance := s.instance, peak := s.peak)
      && (err.None? ==> s.instance == Some(|r.instances|) && |s.instances| == |r.instances| + 1
                        && s.instances[|r.instances|] == Instance(0, 0))
  {
    LiveCountOfSuffix(r.instances, q.instances, None);
    LiveCountOfSuffix(r.instances, q.instances + [Instance(0, 0)], Some(|r.instances|));
  }

  /** A start that fails leaves no instance, and none that has not been cleaned. */
  lemma FailedStartCleans(env: Env, q: Runtime, start: Start)
    ensures var (s, err) := StartInstance(env, q, start);
      err.Some? ==>
        && s.instance.None? && |q.instances| <= |s.instances| && s.instances[..|q.instances|] == q.instances
        && (forall i :: |q.instances| <= i < |s.instances| ==> s.instances[i].cleaned == 1)
  {
    hide LiveCount;
  }

  lemma LoadAndStartInside(env: Env, h: Host, f: Host, own: bool, start: Start)
    requires Ready(env, h) && Inside(env, h, f, own)
    requires |f.runtime.instances| == |h.runtime.instances| && f.runtime.instance == h.runtime.instance
    ensures var p := LoadAndStart(env, f, start);
      && Inside(env, h, p.host, own)
      && (p.err.None? ==> Ready(env, p.host) && p.host.runtime.instance == Some(|h.runtime.instances|))
  {
    hide TotalDelta, Sound, Extends, GetCode, InitialCost, StartInstance;
    GetCodeGrows(env, f.output.state, f.runtime.state.scAddress);
    var (o, code, err) := GetCode(env, f.output.state, f.runtime.state.scAddress);
    OutputInside(env, h, f, own, o);
    var h1 := WithOutput(f, o);
    if err.None? {
      var h2 := h1.(runtime := h1.runtime.(codeSize := Len(code)));
      assert Inside(env, h, h2, own);
      var (h3, err3) := DeductInitialGas(env, h2, code);
      assert Inside(env, h, h3, own);
      if err3.None? {
        StartInstanceInside(env, h.runtime, h3.runtime, start);
      }
    }
  }

  lemma PrepareInside(env: Env, h: Host, f: Host, own: bool, input: CallInput, start: Start)
    requires Ready(env, h) && Inside(env, h, f, own)
    requires |f.runtime.instances| == |h.runtime.instances| && f.runtime.instance == h.runtime.instance
    ensures var p := Prepare(env, f, input, start);
      && Inside(env, h, p.host, own)
      && (p.err.None? ==> Ready(env, p.host) && p.host.runtime.instance == Some(|h.runtime.instances|))
  {
    if !(f.runtime.state.callFunction.Init? && !input.allowInit) {
      var g := UseGasOn(f, input.vmInput.gasProvided);
      assert Inside(env, h, g, own);
      LoadAndStartInside(env, h, g, own, start);
    }
  }

  lemma TransferInside(env: Env, h: Host, f: Host, own: bool, input: CallInput)
    requires Inside(env, h, f, own)
    ensures var t := TransferOnEntry(env, f, input).host;
      Inside(env, h, t, own) && t.runtime == f.runtime && t.metering == f.metering
  {
    TransferValueOnlyGrows(env, f.output.state, f.runtime.state.vmInput.callType.AsynchronousCall?,
                           input.recipient, input.vmInput.callerAddr, input.vmInput.callValue, false);
    OutputInside(env, h, f, own, TransferOnEntry(env, f, input).host.output.state);
  }

  lemma DestEntryInside(env: Env, h: Host, input: CallInput)
    requires Ready(env, h)
    ensures var t := DestEntry(env, h, input).host;
      && Inside(env, h, t, true)
      && t.runtime.instances == h.runtime.instances && t.runtime.instance == h.runtime.instance
  {
    EnterDestInside(env, h, input);
    TransferInside(env, h, EnterDest(h, input), true, input);
  }

  lemma SameEntryInside(env: Env, h: Host, input: CallInput)
    requires Ready(env, h)
    ensures var t := SameEntry(env, h, input).host;
      && Inside(env, h, t, false)
      && t.runtime.instances == h.runtime.instances && t.runtime.instance == h.runtime.instance
  {
    EnterSameInside(env, h, input);
    TransferInside(env, h, EnterSame(h, input), false, input);
  }

  // ---------------------------------------------------------------- leaving a frame

  /** Popping the runtime restores the caller's frame and instance, and cleans the callee's. */
  lemma PopRuntimeInside(r: Runtime, q: Runtime)
    requires r.instance.Some? && r.instance.value < |r.instances|
    requires FrameInstances(r, q)
    requires q.stack == r.stack + [r.state] && q.instanceStack == r.instanceStack + [r.instance]
    ensures var p := PopRuntime(q);
      && p.state == r.state && p.stack == r.stack
      && p.instance == r.instance && p.instanceStack == r.instanceStack
      && InstancesKept(r, p) && p.instances[r.instance.value] == q.instances[r.instance.value]
      && p.codeSize == q.codeSize && p.peak == q.peak
      && (NoneCleaned(r) ==> NoneCleaned(p))
  {
    var q1 := q.(state := q.stack[|q.stack| - 1], stack := q.stack[..|q.stack| - 1]);
    assert q1.instanceStack[..|q1.instanceStack| - 1] == r.instanceStack;
  }

  lemma LeaveDestKept(env: Env, h: Host, f: Host, out: VMOutput)
    requires Ready(env, h) && Inside(env, h, f, true)
    ensures Kept(env, h, LeaveDest(f, out))
    ensures !out.returnCode.Ok? ==> RolledBack(h, LeaveDest(f, out))
    ensures LeaveDest(f, out).metering.totalUsedGas == 0
  {
    hide TotalDelta, Sound, Extends, PopMerge, PopRuntime, LiveCount;
    var popped := f.(bigInt := PopBigInt(f.bigInt), metering := PopMetering(f.metering),
                     runtime := PopRuntime(f.runtime), storage := PopStorage(f.storage));
    PopRuntimeInside(h.runtime, f.runtime);
    assert popped.bigInt == h.bigInt && popped.storage == h.storage;
    assert popped.metering.state == h.metering.state && popped.metering.stack == h.metering.stack;
    var restored := RestoreGas(popped, out.gasRemaining);
    assert InstancesKept(h.runtime, restored.runtime);
    if out.returnCode.Ok? {
      MergedGrows(env, h.output.state, f.output.state);
    } else {
      GrowsReflexive(env, h.output.state);
    }
    assert f.output.stack[..|f.output.stack| - 1] == h.output.stack;
  }

  lemma LeaveSameKept(env: Env, h: Host, f: Host, out: VMOutput)
    requires Ready(env, h) && Inside(env, h, f, false)
    ensures Kept(env, h, KeepSame(f, out))
    ensures RolledBack(h, UndoSame(f))
  {
    PopRuntimeInside(h.runtime, f.runtime);
    assert f.output.stack[..|f.output.stack| - 1] == h.output.stack;
    assert f.bigInt.stack[..|f.bigInt.stack| - 1] == h.bigInt.stack;
    assert f.metering.stack[..|f.metering.stack| - 1] == h.metering.stack;
    var popped := f.(bigInt := DiscardBigInt(f.bigInt), output := PopDiscardOutput(f.output),
                     metering := PopMetering(f.metering), runtime := PopRuntime(f.runtime));
    var restored := RestoreGas(popped, out.gasRemaining);
    assert InstancesKept(h.runtime, restored.runtime);
  }

  lemma FinishDestKept(env: Env, h: Host, f: Host, err: Option<Error>)
    requires Ready(env, h) && Inside(env, h, f, true)
    ensures var r := FinishDest(f, err);
      && Kept(env, h, r.host)
      && (r.err.Some? ==> RolledBack(h, r.host))
      && (r.err.None? <==> r.output.returnCode.Ok?)
      && r.host.metering.totalUsedGas == 0
  {
    if err.None? {
      GetVMOutputGrows(env, f);
      OutputInside(env, h, f, true, GetVMOutput(f).0.output.state);
    }
    var (f1, out) := CalleeOutput(f, err);
    LeaveDestKept(env, h, f1, out);
  }

  lemma FinishSameKept(env: Env, h: Host, f: Host, err: Option<Error>)
    requires Ready(env, h) && Inside(env, h, f, false)
    ensures var r := FinishSame(f, err);
      && Kept(env, h, r.0)
      && (err.Some? || !f.output.state.returnCode.Ok? ==> RolledBack(h, r.0))
      && r.1 == err
  {
    LeaveSameKept(env, h, f, NEW_OUTPUT);
    RolledBackIsKept(env, h, UndoSame(f));
    if f.output.state.returnCode.Ok? && err.None? {
      GetVMOutputGrows(env, f);
      OutputInside(env, h, f, false, GetVMOutput(f).0.output.state);
      LeaveSameKept(env, h, GetVMOutput(f).0, GetVMOutput(f).1);
    }
  }

  // ---------------------------------------------------------------- every call, every script

  lemma {:induction false} ExecuteCallInside(
    env: Env, h: Host, f: Host, own: bool, input: CallInput, start: Start, body: Script)
    requires Ready(env, h) && Inside(env, h, f, own)
    requires |f.runtime.instances| == |h.runtime.instances| && f.runtime.instance == h.runtime.instance
    ensures Inside(env, h, ExecuteCall(env, f, input, start, body).host, own)
    decreases body, 1
  {
    hide Prepare, Grows;
    PrepareInside(env, h, f, own, input, start);
    var p := Prepare(env, f, input, start);
    if p.err.None? && !start.FunctionMissing? {
      BodyKept(env, p.host, body);
      KeptInside(env, h, p.host, own, RunBody(env, p.host, body).host);
    }
  }

  lemma {:induction false} DestFrameInside(env: Env, h: Host, input: CallInput, start: Start, body: Script)
    requires Ready(env, h)
    ensures Inside(env, h, DestFrame(env, h, input, start, body).host, true)
    decreases body, 2
  {
    DestEntryInside(env, h, input);
    var t := DestEntry(env, h, input);
    if t.err.None? {
      ExecuteCallInside(env, h, t.host, true, Unlocked(input), start, body);
    }
  }

  lemma {:induction false} SameFrameInside(env: Env, h: Host, input: CallInput, start: Start, body: Script)
    requires Ready(env, h)
    ensures Inside(env, h, SameFrame(env, h, input, start, body).host, false)
    decreases body, 2
  {
    SameEntryInside(env, h, input);
    var t := SameEntry(env, h, input);
    if t.err.None? {
      ExecuteCallInside(env, h, t.host, false, Unlocked(input), start, body);
    }
  }

  /** Every exit path of ExecuteOnDestContext restores all stacks, the caller's frame, instance,
      gas triple and storage address; a failed call, with any calls nested in it, leaves the
      caller's observable state exactly as it was. */
  lemma {:induction false} DestCallKept(env: Env, h: Host, input: CallInput, start: Start, body: Script)
    requires Ready(env, h)
    ensures var r := ExecuteOnDest(env, h, input, start, body);
      && Kept(env, h, r.host) && NoneCleaned(r.host.runtime)
      && (r.err.Some? ==> RolledBack(h, r.host))
      && (r.err.None? <==> r.output.returnCode.Ok?)
      && r.host.metering.totalUsedGas == 0
    decreases body, 3
  {
    hide Kept, Ready, RolledBack, Inside, DestFrame, FinishDest;
    DestFrameInside(env, h, input, start, body);
    var f := DestFrame(env, h, input, start, body);
    FinishDestKept(env, h, f.host, f.err);
    KeptReady(env, h, FinishDest(f.host, f.err).host);
  }

  /** A successful call merges: the callee's accounts, with every output transfer exactly once and
      in order, the caller's logs and return data followed by the callee's. The gas refund is the
      callee's alone, so refunds add up exactly when the caller's was 0. */
  lemma DestCallMerges(env: Env, h: Host, input: CallInput, start: Start, body: Script)
    requires Ready(env, h)
    ensures var r := ExecuteOnDest(env, h, input, start, body);
      var merged := r.host.output.state;
      r.err.None? ==>
        && merged.logs == h.output.state.logs + r.output.logs
        && merged.returnData == h.output.state.returnData + r.output.returnData
        && merged.accounts.Keys == r.output.accounts.Keys
        && Extends(h.output.state.accounts, merged.accounts)
        && (forall a :: a in merged.accounts ==> SameButCode(merged.accounts[a], r.output.accounts[a]))
        && merged.gasRefund == r.output.gasRefund && merged.gasRefund.Some? && h.output.state.gasRefund.Some?
        && (merged.gasRefund.value == h.output.state.gasRefund.value + r.output.gasRefund.value
            <==> h.output.state.gasRefund.value == 0)
  {
    hide DestFrame, GetVMOutput, PopMerge, Kept, RolledBack, ForwardGas, RestoreGas, TotalDelta, Sound, Ready,
      Extends, FrameInstances, PopRuntime, GasSpentByContract, LiveCount;
    DestFrameInside(env, h, input, start, body);
    DestCallKept(env, h, input, start, body);
    var f := DestFrame(env, h, input, start, body);
    if f.err.None? && GetVMOutput(f.host).1.returnCode.Ok? {
      SoundWhenReady(env, h);
      GetVMOutputGrows(env, f.host);
      var callee := GetVMOutput(f.host).0.output.state;
      GrowsTransitive(env, h.output.state, f.host.output.state, callee);
      SoundIsValid(env, h.output.state);
      SoundIsValid(env, callee);
      MergeOnSuccess(h.output.state, callee);
      MergedGrows(env, h.output.state, callee);
    }
  }

  /** Every exit path of ExecuteOnSameContext restores the same, and a failed call is undone. */
  lemma {:induction false} SameCallKept(env: Env, h: Host, input: CallInput, start: Start, body: Script)
    requires Ready(env, h)
    ensures var r := ExecuteOnSame(env, h, input, start, body);
      && Kept(env, h, r.0) && NoneCleaned(r.0.runtime)
      && (r.1.Some? ==> RolledBack(h, r.0))
    decreases body, 3
  {
    hide Kept, Ready, RolledBack, Inside, SameFrame, FinishSame;
    SameFrameInside(env, h, input, start, body);
    var f := SameFrame(env, h, input, start, body);
    FinishSameKept(env, h, f.host, f.err);
    KeptReady(env, h, FinishSame(f.host, f.err).0);
  }

  lemma {:induction false} BodyKept(env: Env, h: Host, s: Script)
    requires Ready(env, h)
    ensures Kept(env, h, RunBody(env, h, s).host) && NoneCleaned(RunBody(env, h, s).host.runtime)
    decreases s, 0
  {
    hide Kept, Ready, NoneCleaned, ExecuteOnDest, ExecuteOnSame, LocalAction, RunAsync, CallInputOf;
    match s
    case Done =>
      KeptReflexive(env, h);
      KeptReady(env, h, h);
    case Then(a, rest) =>
      match a
      case CallDest(c) =>
        DestCallKept(env, h, CallInputOf(h, c), c.start, c.body);
        var k := ExecuteOnDest(env, h, CallInputOf(h, c), c.start, c.body).host;
        KeptReady(env, h, k);
        BodyKept(env, k, rest);
        KeptTransitive(env, h, k, RunBody(env, k, rest).host);
      case CallSame(c) =>
        SameCallKept(env, h, CallInputOf(h, c), c.start, c.body);
        var k := ExecuteOnSame(env, h, CallInputOf(h, c), c.start, c.body).0;
        KeptReady(env, h, k);
        BodyKept(env, k, rest);
        KeptTransitive(env, h, k, RunBody(env, k, rest).host);
      case Async(c) =>
        AsyncKept(env, h, c);
        KeptReady(env, h, RunAsync(env, h, c).host);
      case _ =>
        LocalActionKept(env, h, a);
        var r := LocalAction(env, h, a);
        KeptReady(env, h, r.host);
        if r.err.None? {
          BodyKept(env, r.host, rest);
          KeptTransitive(env, h, r.host, RunBody(env, r.host, rest).host);
        }
  }

  lemma AsyncInfoKept(env: Env, h: Host, info: Option<AsyncCallInfo>, k: Host)
    requires Kept(env, h, k)
    ensures Kept(env, h, k.(runtime := k.runtime.(state := k.runtime.state.(asyncCallInfo := info))))
  {
    hide Grows;
  }

  lemma PrepareAsyncKept(env: Env, h: Host, dest: Address, data: Bytes, value: int)
    requires Ready(env, h)
    ensures Kept(env, h, PrepareAsync(env, h, dest, data, value).host)
  {
    hide Kept, Ready, UseGasOn, Fault, GasLeft, GasLockedForAsync;
    FaultKept(env, h, ErrNotEnoughGas);
    if GasLeft(h) > env.gas.asyncCallStep {
      var h1 := UseGasOn(h, env.gas.asyncCallStep);
      UseGasKept(env, h, env.gas.asyncCallStep);
      var lock := GasLockedForAsync(env, h1);
      FaultKept(env, h1, ErrNotEnoughGas);
      KeptTransitive(env, h, h1, Fault(h1, ErrNotEnoughGas).host);
      UseGasKept(env, h1, lock);
      KeptTransitive(env, h, h1, UseGasOn(h1, lock));
      var info := PrepareAsync(env, h, dest, data, value).host.runtime.state.asyncCallInfo;
      AsyncInfoKept(env, h, info, h1);
      AsyncInfoKept(env, h, info, UseGasOn(h1, lock));
    }
  }

  lemma SendAsyncKept(env: Env, h: Host, info: AsyncCallInfo)
    requires Ready(env, h)
    ensures Kept(env, h, SendAsync(env, h, info).host)
  {
    hide Kept, Ready, TransferOut, ForwardGas, UseGasOn, Fault, GasLeft, Grows;
    SoundWhenReady(env, h);
    var async := h.runtime.state.vmInput.callType.AsynchronousCall?;
    var a := h.runtime.state.scAddress;
    TransferOutGrows(env, h.output.state, async, info.destination, a, info.gasLimit, info.gasLocked,
                     info.value, info.data, AsynchronousCall);
    var (o, err) := TransferOut(env, h.output.state, async, info.destination, a, info.gasLimit, info.gasLocked,
                                info.value, info.data, AsynchronousCall);
    var h1 := WithOutput(h, o);
    WithOutputKept(env, h, o);
    KeptReady(env, h, h1);
    if err.Some? {
      FaultKept(env, h1, err.value);
      KeptTransitive(env, h, h1, Fault(h1, err.value).host);
    } else {
      var sent := (GasLeft(h1) + info.gasLocked) % TWO_64;
      var h2 := ForwardGas(h1, a, info.destination, sent);
      ForwardGasKept(env, h1, a, info.destination, sent);
      KeptTransitive(env, h, h1, h2);
      UseGasKept(env, h2, GasLeft(h1));
      KeptTransitive(env, h, h2, UseGasOn(h2, GasLeft(h1)));
    }
  }

  lemma ReportCallbackKept(env: Env, h: Host, out: VMOutput)
    requires Ready(env, h)
    ensures Kept(env, h, ReportCallback(h, out))
  {
  }

  lemma {:induction false} CallbackKept(
    env: Env, h: Host, info: AsyncCallInfo, out: VMOutput, ok: bool, c: AsyncCall)
    requires Ready(env, h)
    ensures Kept(env, h, RunCallback(env, h, info, out, ok, c).host)
    decreases c, 3
  {
    hide Kept, Ready, ExecuteOnDest, ReportCallback, UseGasOn, SetPointsUsed, CallbackInput, GasUsedForExecution,
      ErrorOutput, RolledBack;
    var input := CallbackInput(env, h, info, out, ok);
    ReportCallbackKept(env, h, ErrorOutput(h.output.state, ErrNotEnoughGas));
    if input.Some? {
      var h1 := h.(runtime := SetPointsUsed(h.runtime, 0));
      SetPointsKept(env, h, 0);
      KeptReady(env, h, h1);
      DestCallKept(env, h1, input.value, c.callbackStart, c.callbackBody);
      var d := ExecuteOnDest(env, h1, input.value, c.callbackStart, c.callbackBody);
      KeptTransitive(env, h, h1, d.host);
      var consumed := GasUsedForExecution(h);
      UseGasKept(env, d.host, consumed);
      KeptTransitive(env, h, d.host, UseGasOn(d.host, consumed));
      var h2 := if d.err.None? && d.output.returnCode.Ok? && ok then UseGasOn(d.host, consumed) else d.host;
      ReportCallbackKept(env, h2, d.output);
      KeptTransitive(env, h, h2, ReportCallback(h2, d.output));
    }
  }

  lemma {:induction false} AsyncKept(env: Env, h: Host, c: AsyncCall)
    requires Ready(env, h)
    ensures Kept(env, h, RunAsync(env, h, c).host)
    decreases c, 4
  {
    hide Kept, Ready, PrepareAsync, ExecuteOnDest, RunCallback, SendAsync, GetCode, RolledBack, Grows,
      DestinationInput;
    PrepareAsyncKept(env, h, c.destination, c.data, c.value);
    var p := PrepareAsync(env, h, c.destination, c.data, c.value);
    if p.err.None? && c.parsed.Some? {
      KeptReady(env, h, p.host);
      SoundWhenReady(env, p.host);
      var info := AsyncInfoOf(p.host);
      GetCodeGrows(env, p.host.output.state, c.destination);
      var (o, code, err) := GetCode(env, p.host.output.state, c.destination);
      var h1 := WithOutput(p.host, o);
      WithOutputKept(env, p.host, o);
      KeptTransitive(env, h, p.host, h1);
      if err.Some? {
        SendAsyncKept(env, h1, info);
        KeptTransitive(env, h, h1, SendAsync(env, h1, info).host);
      } else {
        DestCallKept(env, h1, DestinationInput(h1, c, info), c.start, c.body);
        var d := ExecuteOnDest(env, h1, DestinationInput(h1, c, info), c.start, c.body);
        KeptTransitive(env, h, h1, d.host);
        var ok := d.err.None? && d.output.returnCode.Ok?;
        CallbackKept(env, d.host, info, d.output, ok, c);
        KeptTransitive(env, h, d.host, RunCallback(env, d.host, info, d.output, ok, c).host);
      }
    }
  }
}
