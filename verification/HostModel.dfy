/** The five host contexts as values, and every operation on them as a function.
    A contract body is a script of the actions it performs on the host. */
module HostModel {
  import opened Overflow
  import opened Wrappers
  import opened Types
  import opened AnswerText
  import opened OutputModel

  // ---------------------------------------------------------------- contexts

  datatype BigInts = BigInts(values: map<int32, int>, stack: seq<map<int32, int>>)

  datatype Outputs = Outputs(state: VMOutput, stack: seq<VMOutput>, codeUpdates: set<Address>)

  datatype AsyncCallInfo = AsyncCallInfo(
    destination: Address, data: Bytes, gasLimit: uint64, gasLocked: uint64, value: int)

  datatype RuntimeState = RuntimeState(
    vmInput: VMInput, scAddress: Address, callFunction: FunctionName, readOnly: bool,
    asyncCallInfo: Option<AsyncCallInfo>)

  /** A Wasmer instance: the points it used, and how many times it was cleaned. */
  datatype Instance = Instance(points: uint64, cleaned: nat)

  /** Instances are named by their position in the list of all instances ever started;
      `peak` is the largest number of them that were live at once. */
  datatype Runtime = Runtime(
    state: RuntimeState, stack: seq<RuntimeState>,
    instance: Option<nat>, instanceStack: seq<Option<nat>>, instances: seq<Instance>,
    codeSize: uint64, peak: nat)

  datatype GasTriple = GasTriple(initialGasProvided: uint64, initialCost: uint64, gasForExecution: uint64)

  datatype GasState = GasState(forwarded: uint64, returned: uint64)

  datatype Metering = Metering(
    state: GasTriple, stack: seq<GasTriple>, gasStates: map<Address, GasState>, totalUsedGas: uint64)

  datatype Storage = Storage(address: Address, stack: seq<Address>, protectionEnabled: bool)

  datatype Host = Host(
    bigInt: BigInts, output: Outputs, runtime: Runtime, metering: Metering, storage: Storage)

  // ---------------------------------------------------------------- scripts

  /** How starting the callee's instance and finding its function turns out. */
  datatype Start = Started | BuildFailed | HashFailed | FunctionMissing

  datatype Action =
    | UseGas(gas: uint64)
    | Transfer(destination: Address, amount: int, gasLimit: uint64, data: Bytes)
    | SetStorage(key: Bytes, content: Bytes)
    | GetStorage(key: Bytes)
    | GetStorageFromAddress(address: Address, key: Bytes)
    | SetBigInt(handle: int32, number: int)
    | Finish(data: Bytes)
    | WriteLog(topics: seq<Bytes>, data: Bytes)
    | Fail(error: Error)
    | Signal(message: string)
    | CallDest(call: Call)
    | CallSame(call: Call)
    | Async(async: AsyncCall)

  datatype Call = Call(
    recipient: Address, value: int, callFunction: FunctionName, gasLimit: uint64,
    start: Start, body: Script)

  datatype AsyncCall = AsyncCall(
    destination: Address, data: Bytes, value: int, parsed: Option<FunctionName>,
    start: Start, body: Script, callbackStart: Start, callbackBody: Script)

  datatype Script = Done | Then(first: Action, rest: Script)

  // ---------------------------------------------------------------- runtime

  function PointsUsed(r: Runtime): uint64 {
    if r.instance.Some? && r.instance.value < |r.instances| then r.instances[r.instance.value].points else 0
  }

  function SetPointsUsed(r: Runtime, points: uint64): Runtime {
    if r.instance.Some? && r.instance.value < |r.instances| then
      var i := r.instance.value;
      var p := if points > MAX_I64 then MAX_I64 else points;
      r.(instances := r.instances[i := r.instances[i].(points := p)])
    else r
  }

  function CleanInstance(r: Runtime): Runtime {
    if r.instance.Some? && r.instance.value < |r.instances| then
      var i := r.instance.value;
      r.(instances := r.instances[i := r.instances[i].(cleaned := r.instances[i].cleaned + 1)], instance := None)
    else r
  }

  function PushRuntime(r: Runtime): Runtime {
    r.(stack := r.stack + [r.state], instanceStack := r.instanceStack + [r.instance])
  }

  function PopInstance(r: Runtime): Runtime {
    if r.instanceStack == [] then r else
      var previous := r.instanceStack[|r.instanceStack| - 1];
      var popped := r.(instanceStack := r.instanceStack[..|r.instanceStack| - 1]);
      if previous == r.instance then popped else CleanInstance(popped).(instance := previous)
  }

  function PopRuntime(r: Runtime): Runtime {
    if r.stack == [] then r else
      PopInstance(r.(state := r.stack[|r.stack| - 1], stack := r.stack[..|r.stack| - 1]))
  }

  function InitRuntime(r: Runtime, input: CallInput): Runtime {
    r.(state := RuntimeState(input.vmInput, input.recipient, input.callFunction, r.state.readOnly,
                             r.state.asyncCallInfo))
  }

  predicate OnTheStack(r: Runtime, a: Address) {
    exists i :: 0 <= i < |r.stack| && r.stack[i].scAddress == a
  }

  function LiveCount(instances: seq<Instance>): nat {
    if instances == [] then 0
    else LiveCount(instances[..|instances| - 1]) + if instances[|instances| - 1].cleaned == 0 then 1 else 0
  }

  function StartInstance(env: Env, r: Runtime, start: Start): (Runtime, Option<Error>) {
    if |r.instanceStack| >= env.maxInstances then
      (r.(instance := None), Some(ErrMaxInstancesReached))
    else if start.BuildFailed? then
      (r.(instance := None), Some(ErrInstanceCreation))
    else
      var all := r.instances + [Instance(0, 0)];
      var peak := if LiveCount(all) > r.peak then LiveCount(all) else r.peak;
      var started := r.(instances := all, instance := Some(|r.instances|), peak := peak);
      if start.HashFailed? then (CleanInstance(started), Some(ErrInstanceCreation)) else (started, None)
  }

  // ---------------------------------------------------------------- metering

  function UseGasOn(h: Host, gas: uint64): Host {
    h.(runtime := SetPointsUsed(h.runtime, AddUint64(PointsUsed(h.runtime), gas)))
  }

  function RestoreGas(h: Host, gas: uint64): Host {
    var used := PointsUsed(h.runtime);
    if gas <= used then h.(runtime := SetPointsUsed(h.runtime, used - gas)) else h
  }

  function GasLeft(h: Host): uint64 {
    var provided := h.metering.state.gasForExecution;
    var used := PointsUsed(h.runtime);
    if provided < used then 0 else provided - used
  }

  function BoundGasLimit(h: Host, limit: uint64): uint64 {
    if GasLeft(h) < limit then GasLeft(h) else limit
  }

  function GasStateOf(m: Metering, a: Address): GasState {
    if a in m.gasStates then m.gasStates[a] else GasState(0, 0)
  }

  function AddForwarded(m: Metering, a: Address, gas: uint64): Metering {
    var s := GasStateOf(m, a);
    m.(gasStates := m.gasStates[a := s.(forwarded := AddUint64(s.forwarded, gas))])
  }

  function AddReturned(m: Metering, a: Address, gas: uint64): Metering {
    var s := GasStateOf(m, a);
    m.(gasStates := m.gasStates[a := s.(returned := AddUint64(s.returned, gas))])
  }

  function ForwardGas(h: Host, source: Address, dest: Address, gas: uint64): Host {
    var m := AddForwarded(h.metering, source, gas);
    h.(metering := if source == dest || OnTheStack(h.runtime, dest) then AddReturned(m, dest, gas) else m)
  }

  function TotalForwarded(m: Metering, a: Address): uint64 {
    SubUint64(GasStateOf(m, a).forwarded, GasStateOf(m, a).returned).0
  }

  /** Gas used by the running contract itself, and what was forwarded beyond it. */
  function GasUsedByContract(h: Host): (uint64, uint64) {
    SubUint64(GasSpentByContract(h), TotalForwarded(h.metering, h.runtime.state.scAddress))
  }

  function GasSpentByContract(h: Host): uint64 {
    AddUint64(h.metering.state.initialCost, PointsUsed(h.runtime))
  }

  function GasUsedForExecution(h: Host): uint64 {
    SubUint64(GasUsedByContract(h).0, h.metering.state.initialCost).0
  }

  function PushMetering(m: Metering): Metering {
    m.(stack := m.stack + [m.state])
  }

  function PopMetering(m: Metering): Metering {
    if m.stack == [] then m else m.(state := m.stack[|m.stack| - 1], stack := m.stack[..|m.stack| - 1])
  }

  /** Locked gas is unlocked when a callback starts; the caller's input sees the change. */
  function Unlocked(input: CallInput): CallInput {
    if input.vmInput.callType.AsynchronousCallBack? then
      input.(vmInput := input.vmInput.(
        gasProvided := AddUint64(input.vmInput.gasProvided, input.vmInput.gasLocked), gasLocked := 0))
    else input
  }

  function InitMetering(m: Metering, unlocked: CallInput): Metering {
    m.(state := GasTriple(unlocked.vmInput.gasProvided, 0, unlocked.vmInput.gasProvided))
  }

  function InitialCost(env: Env, code: Bytes): uint64 {
    AddUint64(env.gas.getCode, MulUint64(Len(code), env.gas.aotPreparePerByte))
  }

  function DeductInitialGas(env: Env, h: Host, code: Bytes): (Host, Option<Error>) {
    var cost := InitialCost(env, code);
    var provided := h.runtime.state.vmInput.gasProvided;
    if cost > provided then (h, Some(ErrNotEnoughGas)) else
      (h.(metering := h.metering.(state := h.metering.state.(
         initialCost := cost, gasForExecution := provided - cost))), None)
  }

  function GasLockedForAsync(env: Env, h: Host): uint64 {
    var compilation := MulUint64(h.runtime.codeSize, env.gas.aotPreparePerByte);
    var execution := AddUint64(env.gas.asyncCallStep, env.gas.asyncCallbackGasLock);
    AddUint64(compilation, execution)
  }

  // ---------------------------------------------------------------- output

  function WithAccount(o: VMOutput, a: Address): VMOutput {
    if a in o.accounts then o else o.(accounts := o.accounts[a := NewAccount(a)])
  }

  function SetAccount(o: VMOutput, a: Address, acc: Account): VMOutput {
    o.(accounts := o.accounts[a := acc])
  }

  function WithOutput(h: Host, o: VMOutput): Host {
    h.(output := h.output.(state := o))
  }

  /** The balance view of an account: the cached or hook balance plus the pending delta. An
      account the hook does not know has balance 0 whatever its delta. */
  function Balance(env: Env, o: VMOutput, a: Address): (VMOutput, int) {
    var o1 := WithAccount(o, a);
    var acc := o1.accounts[a];
    if acc.balance.Some? then
      (o1, acc.balance.value + DeltaOf(acc))
    else if a !in env.accounts then
      (o1, 0)
    else
      var b := env.accounts[a].balance;
      (SetAccount(o1, a, acc.(balance := Some(b))), b + DeltaOf(acc))
  }

  function AddDelta(o: VMOutput, a: Address, v: int): VMOutput {
    var o1 := WithAccount(o, a);
    var acc := o1.accounts[a];
    SetAccount(o1, a, acc.(balanceDelta := Some(DeltaOf(acc) + v)))
  }

  function TransferValueOnly(
    env: Env, o: VMOutput, isAsyncCall: bool, dest: Address, sender: Address, value: int, checkPayable: bool)
    : (VMOutput, Option<Error>)
  {
    if value < 0 then (o, Some(ErrTransferNegativeValue)) else
      var (o1, balance) := Balance(env, o, sender);
      if balance < value then (o1, Some(ErrTransferInsufficientFunds))
      else if dest !in env.payable then (o1, Some(ErrPayableLookup))
      else if checkPayable && !env.payable[dest] && value > 0 && !isAsyncCall then (o1, Some(ErrAccountNotPayable))
      else
        (AddDelta(AddDelta(o1, sender, -value), dest, value), None)
  }

  function TransferOut(
    env: Env, o: VMOutput, isAsyncCall: bool, dest: Address, sender: Address,
    gasLimit: uint64, gasLocked: uint64, value: int, data: Bytes, callType: CallType)
    : (VMOutput, Option<Error>)
  {
    var (o1, err) := TransferValueOnly(
      env, o, isAsyncCall, dest, sender, value, gasLimit > 0 && !callType.AsynchronousCallBack?);
    if err.Some? then (o1, err) else
      var o2 := WithAccount(o1, dest);
      var acc := o2.accounts[dest];
      var t := OutputTransfer(value, gasLimit, gasLocked, data, callType, sender);
      (SetAccount(o2, dest, acc.(transfers := acc.transfers + [t])), None)
  }

  function Censored(o: VMOutput): VMOutput {
    o.(returnData := [], returnCode := Ok, returnMessage := "", gasRemaining := 0, gasRefund := Some(0), logs := [])
  }

  function PushOutput(o: Outputs): Outputs {
    o.(stack := o.stack + [Snapshot(o.state)])
  }

  function PopSetOutput(o: Outputs): Outputs {
    if o.stack == [] then o else o.(state := o.stack[|o.stack| - 1], stack := o.stack[..|o.stack| - 1])
  }

  function PopMergeOutput(o: Outputs): Outputs {
    if o.stack == [] then o else
      o.(state := PopMerge(o.stack[|o.stack| - 1], o.state), stack := o.stack[..|o.stack| - 1])
  }

  function PopDiscardOutput(o: Outputs): Outputs {
    if o.stack == [] then o else o.(stack := o.stack[..|o.stack| - 1])
  }

  function ErrorOutput(o: VMOutput, e: Error): VMOutput {
    var message := if e.ErrSignalError? || |o.returnMessage| > 0 then o.returnMessage else ErrorText(e);
    VMOutput([], ReturnCodeOf(e), message, 0, Some(0), map[], [])
  }

  function WithoutCode(m: map<Address, Account>, codeUpdates: set<Address>): map<Address, Account> {
    map a | a in m :: if a in codeUpdates then m[a] else m[a].(code := "", codeMetadata := "", codeDeployer := None)
  }

  /** Total gas in the output, saturating at the largest uint64 in whatever order it is added. */
  ghost function CurrentTotalUsedGas(o: VMOutput): uint64 {
    TotalGasNonNegative(o.accounts);
    if TotalGas(o.accounts) > MAX_U64 then MAX_U64 else TotalGas(o.accounts)
  }

  /** The running contract's account receives its gas before the output is handed out. */
  function RecordGas(h: Host): (VMOutput, uint64) {
    var o := WithAccount(h.output.state, h.runtime.state.scAddress);
    var acc := o.accounts[h.runtime.state.scAddress];
    if o.returnCode.Ok? then
      var (used, beyond) := GasUsedByContract(h);
      (SetAccount(o, h.runtime.state.scAddress, acc.(gasUsed := used)).(gasRemaining := GasLeft(h)), beyond)
    else
      (SetAccount(o, h.runtime.state.scAddress,
                  acc.(gasUsed := AddUint64(acc.gasUsed, h.metering.state.initialGasProvided))), 0)
  }

  /** The gas check: gas recorded since this frame began must not exceed the gas provided. */
  ghost function CheckedGas(h: Host, o: VMOutput, beyond: uint64): (VMOutput, bool) {
    var (remaining, beyond1) := SubUint64(o.gasRemaining, beyond);
    var o1 := o.(gasRemaining := remaining);
    var t1 := AddUint64(CurrentTotalUsedGas(o), remaining);
    var t2 := SubUint64(t1, beyond1).0;
    var t3 := SubUint64(t2, h.metering.totalUsedGas).0;
    (o1, t3 <= h.metering.state.initialGasProvided)
  }

  /** The host after GetVMOutput, and the output it returns. */
  ghost function GetVMOutput(h: Host): (Host, VMOutput) {
    var (o, beyond) := RecordGas(h);
    var o1 := o.(accounts := WithoutCode(o.accounts, h.output.codeUpdates));
    var (o2, fits) := CheckedGas(h, o1, beyond);
    (WithOutput(h, o2), if fits then o2 else ErrorOutput(o2, ErrInputAndOutputGasDoesNotMatch))
  }

  /** Looking up code caches it in the output account. */
  function GetCode(env: Env, o: VMOutput, a: Address): (VMOutput, Bytes, Option<Error>) {
    var o1 := WithAccount(o, a);
    var acc := o1.accounts[a];
    if |acc.code| > 0 then (o1, acc.code, None)
    else if a !in env.accounts then (o1, "", Some(ErrInvalidAccount))
    else if |env.accounts[a].code| == 0 then (o1, "", Some(ErrContractNotFound))
    else (SetAccount(o1, a, acc.(code := env.accounts[a].code)), env.accounts[a].code, None)
  }

  // ---------------------------------------------------------------- refund and storage

  function FreeGas(o: VMOutput, gas: uint64): VMOutput {
    var refund := (if o.gasRefund.Some? then o.gasRefund.value else 0) % TWO_64;
    o.(gasRefund := Some(WrapInt64(AddUint64(refund, gas))))
  }

  function HookStorage(env: Env, a: Address, key: Bytes): Bytes {
    if a in env.accounts && key in env.accounts[a].storage then env.accounts[a].storage[key] else ""
  }

  /** A read through the cache, which fills it. */
  function CachedRead(env: Env, o: VMOutput, a: Address, key: Bytes): (VMOutput, Bytes) {
    var o1 := WithAccount(o, a);
    var acc := o1.accounts[a];
    if key in acc.storage then (o1, acc.storage[key]) else
      var v := HookStorage(env, a, key);
      (SetAccount(o1, a, acc.(storage := acc.storage[key := v])), v)
  }

  predicate HasPrefix(key: Bytes, prefix: Bytes) {
    prefix <= key
  }

  function ChargeKey(env: Env, h: Host, key: Bytes): Host {
    if |key| > ADDRESS_LEN
    then UseGasOn(h, MulUint64(env.gas.dataCopyPerByte, Len(key[ADDRESS_LEN..])))
    else h
  }

  function ReadStorage(env: Env, h: Host, key: Bytes): (Host, Bytes) {
    var h1 := ChargeKey(env, h, key);
    var (o, v) := CachedRead(env, h1.output.state, h1.storage.address, key);
    (UseGasOn(WithOutput(h1, o), MulUint64(env.gas.dataCopyPerByte, Len(v))), v)
  }

  function ReadStorageFromAddress(env: Env, h: Host, a: Address, key: Bytes): (Host, Bytes) {
    var h1 := ChargeKey(env, h, key);
    if a != h1.storage.address && (a !in env.accounts || !env.accounts[a].readable) then (h1, "")
    else
      var (o, v) := if HasPrefix(key, env.protectedKeyPrefix)
                    then (h1.output.state, HookStorage(env, a, key))
                    else CachedRead(env, h1.output.state, a, key);
      (UseGasOn(WithOutput(h1, o), MulUint64(env.gas.dataCopyPerByte, Len(v))), v)
  }

  datatype StorageStatus = StorageUnchanged | StorageModified | StorageAdded | StorageDeleted

  /** Price of replacing one stored value by another: gas used, gas freed if any, and the status. */
  datatype StorageEffect = StorageEffect(used: uint64, freed: Option<uint64>, status: StorageStatus)

  function PriceOfChange(env: Env, oldLen: uint64, newLen: uint64): StorageEffect
    requires oldLen <= MAX_I64 && newLen <= MAX_I64
  {
    if oldLen == 0 then StorageEffect(MulUint64(env.gas.storePerByte, newLen), None, StorageAdded)
    else if newLen == 0 then StorageEffect(0, Some(MulUint64(env.gas.releasePerByte, oldLen)), StorageDeleted)
    else
      var extra := SubInt(newLen, oldLen);
      if extra > 0 then
        StorageEffect(AddUint64(MulUint64(env.gas.persistPerByte, oldLen), MulUint64(env.gas.storePerByte, extra)),
                      None, StorageModified)
      else if extra < 0 then
        StorageEffect(MulUint64(env.gas.persistPerByte, newLen), Some(MulUint64(env.gas.releasePerByte, -extra)),
                      StorageModified)
      else StorageEffect(0, None, StorageModified)
  }

  function WriteStorage(env: Env, h: Host, key: Bytes, value: Bytes): (Host, StorageStatus, Option<Error>) {
    if h.runtime.state.readOnly then (h, StorageUnchanged, None)
    else if HasPrefix(key, env.protectedKeyPrefix) then (h, StorageUnchanged, Some(ErrStoreReservedKey))
    else if HasPrefix(key, PROTECTED_STORAGE_PREFIX) && h.storage.protectionEnabled then
      (h, StorageUnchanged, Some(ErrCannotWriteProtectedKey))
    else
      var h1 := ChargeKey(env, h, key);
      var a := h1.storage.address;
      var (o, current) := CachedRead(env, h1.output.state, a, key);
      if current == value then
        (UseGasOn(WithOutput(h1, o), MulUint64(env.gas.dataCopyPerByte, Len(value))), StorageUnchanged, None)
      else
        var acc := o.accounts[a];
        var o1 := SetAccount(o, a, acc.(storage := acc.storage[key := value]));
        var e := PriceOfChange(env, Len(current), Len(value));
        var o2 := if e.freed.Some? then FreeGas(o1, e.freed.value) else o1;
        (UseGasOn(WithOutput(h1, o2), e.used), e.status, None)
  }

  // ---------------------------------------------------------------- frames

  ghost function EnterDest(h: Host, input: CallInput): Host {
    var bigInt := BigInts(map[], h.bigInt.stack + [h.bigInt.values]);
    var pushed := PushOutput(h.output);
    var output := pushed.(state := Censored(pushed.state));
    var runtime := InitRuntime(PushRuntime(h.runtime), input);
    var metering := InitMetering(PushMetering(h.metering), Unlocked(input))
                    .(totalUsedGas := CurrentTotalUsedGas(output.state));
    Host(bigInt, output, runtime, metering,
         h.storage.(stack := h.storage.stack + [h.storage.address], address := input.recipient))
  }

  function EnterSame(h: Host, input: CallInput): Host {
    h.(bigInt := h.bigInt.(stack := h.bigInt.stack + [h.bigInt.values]),
       output := PushOutput(h.output),
       runtime := InitRuntime(PushRuntime(h.runtime), input),
       metering := InitMetering(PushMetering(h.metering), Unlocked(input)))
  }

  function PopBigInt(b: BigInts): BigInts {
    if b.stack == [] then b else BigInts(b.stack[|b.stack| - 1], b.stack[..|b.stack| - 1])
  }

  function DiscardBigInt(b: BigInts): BigInts {
    if b.stack == [] then b else b.(stack := b.stack[..|b.stack| - 1])
  }

  function PopStorage(s: Storage): Storage {
    if s.stack == [] then s else s.(address := s.stack[|s.stack| - 1], stack := s.stack[..|s.stack| - 1])
  }

  /** The output of a finished callee: an error output, or what GetVMOutput says. */
  ghost function CalleeOutput(h: Host, err: Option<Error>): (Host, VMOutput) {
    if err.Some? then (h, ErrorOutput(h.output.state, err.value)) else GetVMOutput(h)
  }

  /** Leaving a destination frame, given the callee's output. */
  function LeaveDest(h: Host, out: VMOutput): Host {
    var child := h.runtime.state.scAddress;
    var spent := if out.returnCode.Ok? then GasSpentByContract(h) else 0;
    var popped := h.(bigInt := PopBigInt(h.bigInt), metering := PopMetering(h.metering),
                     runtime := PopRuntime(h.runtime), storage := PopStorage(h.storage));
    var restored := RestoreGas(popped, out.gasRemaining);
    var forwarded := ForwardGas(restored, restored.runtime.state.scAddress, child, spent);
    forwarded.(output := if out.returnCode.Ok? then PopMergeOutput(h.output) else PopSetOutput(h.output),
               metering := forwarded.metering.(totalUsedGas := 0))
  }

  datatype CallResult = CallResult(host: Host, output: VMOutput, err: Option<Error>)

  ghost function FinishDest(h: Host, err: Option<Error>): CallResult {
    var (h1, out) := CalleeOutput(h, err);
    CallResult(LeaveDest(h1, out), out,
               if err.Some? then err else if out.returnCode.Ok? then None else Some(ErrExecutionFailed))
  }

  function UndoSame(h: Host): Host {
    h.(bigInt := PopBigInt(h.bigInt), metering := PopMetering(h.metering),
       output := PopSetOutput(h.output), runtime := PopRuntime(h.runtime))
  }

  function KeepSame(h: Host, out: VMOutput): Host {
    var child := h.runtime.state.scAddress;
    var spent := if out.returnCode.Ok? then GasSpentByContract(h) else 0;
    var popped := h.(bigInt := DiscardBigInt(h.bigInt), output := PopDiscardOutput(h.output),
                     metering := PopMetering(h.metering), runtime := PopRuntime(h.runtime));
    var restored := RestoreGas(popped, out.gasRemaining);
    ForwardGas(restored, restored.runtime.state.scAddress, child, spent)
  }

  ghost function FinishSame(h: Host, err: Option<Error>): (Host, Option<Error>) {
    if !h.output.state.returnCode.Ok? || err.Some? then (UndoSame(h), err) else
      var (h1, out) := GetVMOutput(h);
      (KeepSame(h1, out), err)
  }

  // ---------------------------------------------------------------- bodies

  datatype BodyResult = BodyResult(host: Host, err: Option<Error>)

  /** An API call that fails burns the gas left and stops the contract. */
  function Fault(h: Host, e: Error): BodyResult {
    var h1 := UseGasOn(h, GasLeft(h));
    BodyResult(WithOutput(h1, h1.output.state.(returnCode := ExecutionFailed, returnMessage := ErrorText(e))),
               Some(ErrExecutionFailed))
  }

  /** The actions that make no call. */
  function LocalAction(env: Env, h: Host, a: Action): BodyResult
    requires !a.CallDest? && !a.CallSame? && !a.Async?
  {
    var o := h.output.state;
    match a
    case UseGas(gas) => BodyResult(UseGasOn(h, gas), None)
    case Transfer(dest, value, gasLimit, data) =>
      var (o1, err) := TransferOut(env, o, h.runtime.state.vmInput.callType.AsynchronousCall?, dest,
                                   h.runtime.state.scAddress, gasLimit, 0, value, data, DirectCall);
      if err.Some? then Fault(WithOutput(h, o1), err.value) else BodyResult(WithOutput(h, o1), None)
    case SetStorage(key, value) =>
      var (h1, _, err) := WriteStorage(env, h, key, value);
      if err.Some? then Fault(h1, err.value) else BodyResult(h1, None)
    case GetStorage(key) => BodyResult(ReadStorage(env, h, key).0, None)
    case GetStorageFromAddress(address, key) => BodyResult(ReadStorageFromAddress(env, h, address, key).0, None)
    case SetBigInt(handle, v) => BodyResult(h.(bigInt := h.bigInt.(values := h.bigInt.values[handle := v])), None)
    case Finish(data) => BodyResult(WithOutput(h, o.(returnData := o.returnData + [data])), None)
    case WriteLog(topics, data) =>
      BodyResult(if h.runtime.state.readOnly then h
                 else WithOutput(h, o.(logs := o.logs + [LogEntry(h.runtime.state.scAddress, topics, data)])), None)
    case Fail(e) => Fault(h, e)
    case Signal(message) =>
      BodyResult(WithOutput(h, o.(returnCode := UserError, returnMessage := message)), Some(ErrSignalError))
  }

  function CallInputOf(h: Host, c: Call): CallInput {
    CallInput(VMInput(h.runtime.state.scAddress, DirectCall, c.value, BoundGasLimit(h, c.gasLimit), 0),
              c.recipient, c.callFunction, false)
  }

  /** Load the contract's code, deduct the initial gas, and start an instance for it. */
  function LoadAndStart(env: Env, h: Host, start: Start): BodyResult {
    var (o, code, err) := GetCode(env, h.output.state, h.runtime.state.scAddress);
    var h1 := WithOutput(h, o);
    if err.Some? then BodyResult(h1, err) else
      var h2 := h1.(runtime := h1.runtime.(codeSize := Len(code)));
      var (h3, err3) := DeductInitialGas(env, h2, code);
      if err3.Some? then BodyResult(h3, err3) else
        var (r, err4) := StartInstance(env, h3.runtime, start);
        BodyResult(h3.(runtime := r), err4)
  }

  /** Everything before the callee's own code runs. All gas provided is charged to the caller. */
  function Prepare(env: Env, h: Host, input: CallInput, start: Start): BodyResult {
    if h.runtime.state.callFunction.Init? && !input.allowInit then
      BodyResult(h, Some(ErrInitFuncCalledInRun))
    else
      var p := LoadAndStart(env, UseGasOn(h, input.vmInput.gasProvided), start);
      if p.err.Some? then p
      else if start.FunctionMissing? && !h.runtime.state.callFunction.CallBack? then
        BodyResult(p.host, Some(ErrFuncNotFound))
      else p
  }

  /** Wasmer stops a contract that used more points than its limit. */
  function StopOverLimit(r: BodyResult): BodyResult {
    if r.err.None? && PointsUsed(r.host.runtime) > r.host.metering.state.gasForExecution
    then BodyResult(r.host, Some(ErrNotEnoughGas)) else r
  }

  function RequireOk(r: BodyResult): BodyResult {
    if r.err.None? && !r.host.output.state.returnCode.Ok?
    then BodyResult(r.host, Some(ErrReturnCodeNotOk)) else r
  }

  /** An indirect call to a contract; a callee without the default callback does nothing. */
  ghost function ExecuteCall(env: Env, h: Host, input: CallInput, start: Start, body: Script): BodyResult
    decreases body, 1
  {
    var p := Prepare(env, h, input, start);
    if p.err.Some? then p
    else RequireOk(StopOverLimit(if start.FunctionMissing? then p else RunBody(env, p.host, body)))
  }

  function TransferOnEntry(env: Env, h: Host, input: CallInput): BodyResult {
    var (o, err) := TransferValueOnly(env, h.output.state, h.runtime.state.vmInput.callType.AsynchronousCall?,
                                      input.recipient, input.vmInput.callerAddr, input.vmInput.callValue, false);
    BodyResult(WithOutput(h, o), err)
  }

  /** Push the contexts and transfer the call value; a callback carrying value moves none. */
  ghost function DestEntry(env: Env, h: Host, input: CallInput): BodyResult {
    var h1 := EnterDest(h, input);
    if !input.vmInput.callType.AsynchronousCallBack? || input.vmInput.callValue == 0
    then TransferOnEntry(env, h1, input) else BodyResult(h1, None)
  }

  ghost function DestFrame(env: Env, h: Host, input: CallInput, start: Start, body: Script): BodyResult
    decreases body, 2
  {
    var t := DestEntry(env, h, input);
    if t.err.Some? then t else ExecuteCall(env, t.host, Unlocked(input), start, body)
  }

  ghost function ExecuteOnDest(env: Env, h: Host, input: CallInput, start: Start, body: Script): CallResult
    decreases body, 3
  {
    var r := DestFrame(env, h, input, start, body);
    FinishDest(r.host, r.err)
  }

  function SameEntry(env: Env, h: Host, input: CallInput): BodyResult {
    TransferOnEntry(env, EnterSame(h, input), input)
  }

  ghost function SameFrame(env: Env, h: Host, input: CallInput, start: Start, body: Script): BodyResult
    decreases body, 2
  {
    var t := SameEntry(env, h, input);
    if t.err.Some? then t else ExecuteCall(env, t.host, Unlocked(input), start, body)
  }

  ghost function ExecuteOnSame(env: Env, h: Host, input: CallInput, start: Start, body: Script)
    : (Host, Option<Error>)
    decreases body, 3
  {
    var r := SameFrame(env, h, input, start, body);
    FinishSame(r.host, r.err)
  }

  /** A contract runs its script action by action; a failed call does not stop its caller. */
  ghost function RunBody(env: Env, h: Host, s: Script): BodyResult
    decreases s, 0
  {
    match s
    case Done => BodyResult(h, None)
    case Then(a, rest) =>
      match a
      case CallDest(c) =>
        RunBody(env, ExecuteOnDest(env, h, CallInputOf(h, c), c.start, c.body).host, rest)
      case CallSame(c) =>
        RunBody(env, ExecuteOnSame(env, h, CallInputOf(h, c), c.start, c.body).0, rest)
      case Async(c) => RunAsync(env, h, c)
      case _ =>
        var r := LocalAction(env, h, a);
        if r.err.Some? then r else RunBody(env, r.host, rest)
  }

  // ---------------------------------------------------------------- asynchronous calls

  /** ExecuteAsyncCall: pay for the step, lock gas for the callback, and offer the rest. */
  function PrepareAsync(env: Env, h: Host, dest: Address, data: Bytes, value: int): BodyResult {
    if GasLeft(h) <= env.gas.asyncCallStep then Fault(h, ErrNotEnoughGas) else
      var h1 := UseGasOn(h, env.gas.asyncCallStep);
      var lock := if h.runtime.state.scAddress in env.withCallback then GasLockedForAsync(env, h1) else 0;
      if h.runtime.state.scAddress in env.withCallback && GasLeft(h1) <= lock then Fault(h1, ErrNotEnoughGas) else
        var h2 := if h.runtime.state.scAddress in env.withCallback then UseGasOn(h1, lock) else h1;
        var info := AsyncCallInfo(dest, data, GasLeft(h2), lock, value);
        BodyResult(h2.(runtime := h2.runtime.(state := h2.runtime.state.(asyncCallInfo := Some(info)))), None)
  }

  /** The call leaves the shard: the transfer carries all gas left plus the locked gas. */
  function SendAsync(env: Env, h: Host, info: AsyncCallInfo): BodyResult {
    var (o, err) := TransferOut(env, h.output.state, h.runtime.state.vmInput.callType.AsynchronousCall?,
                                info.destination, h.runtime.state.scAddress, info.gasLimit, info.gasLocked,
                                info.value, info.data, AsynchronousCall);
    var h1 := WithOutput(h, o);
    if err.Some? then BodyResult(Fault(h1, err.value).host, err) else
      var left := GasLeft(h1);
      var sent := (left + info.gasLocked) % TWO_64;
      BodyResult(UseGasOn(ForwardGas(h1, h1.runtime.state.scAddress, info.destination, sent), left), None)
  }

  function CallbackDataLength(name: FunctionName, out: VMOutput, ok: bool): uint64 {
    var nameLength := match name { case Init => 4 case CallBack => 8 case Method(n) => Len(n) };
    if ok then AddUint64(nameLength, DataLength(out.returnData, 1))
    else AddUint64(nameLength, AddUint64(3, Len(out.returnMessage)))
  }

  function DataLength(data: seq<Bytes>, separators: uint64): uint64
    decreases |data|
  {
    if data == [] then separators else DataLength(data[1..], AddUint64(AddUint64(separators, 1), Len(data[0])))
  }

  function LastTransferValue(out: VMOutput, a: Address): int {
    if |out.returnData| > 0 || a !in out.accounts || out.accounts[a].transfers == [] then 0 else
      var t := out.accounts[a].transfers[|out.accounts[a].transfers| - 1];
      if |t.data| == 0 then t.value else 0
  }

  /** The callback input, or nothing when the gas that came back does not pay for it. */
  function CallbackInput(env: Env, h: Host, info: AsyncCallInfo, out: VMOutput, ok: bool): Option<CallInput> {
    var limit := (out.gasRemaining + info.gasLocked) % TWO_64;
    var cost := AddUint64(env.gas.asyncCallStep,
                          MulUint64(env.gas.dataCopyPerByte, CallbackDataLength(CallBack, out, ok)));
    if limit <= cost then None else
      Some(CallInput(VMInput(info.destination, AsynchronousCallBack,
                             LastTransferValue(out, h.runtime.state.scAddress), limit - cost, 0),
                     h.runtime.state.scAddress, CallBack, false))
  }

  /** A failed callback is reported in the caller's return data. */
  function ReportCallback(h: Host, out: VMOutput): Host {
    var o := h.output.state;
    WithOutput(h.(runtime := h.runtime.(state := h.runtime.state.(vmInput :=
                 h.runtime.state.vmInput.(gasProvided := 0)))),
               o.(returnMessage := out.returnMessage,
                  returnData := o.returnData + [ReturnCodeText(out.returnCode), ""]))
  }

  function DestinationInput(h: Host, c: AsyncCall, info: AsyncCallInfo): CallInput
    requires c.parsed.Some?
  {
    CallInput(VMInput(h.runtime.state.scAddress, AsynchronousCall, info.value, GasLeft(h), info.gasLocked),
              info.destination, c.parsed.value, false)
  }

  /** The asynchronous call ends the body: sent away, or run here together with its callback. */
  ghost function RunAsync(env: Env, h: Host, c: AsyncCall): BodyResult
    decreases c, 4
  {
    var p := PrepareAsync(env, h, c.destination, c.data, c.value);
    if p.err.Some? then p
    else if c.parsed.None? then BodyResult(p.host, Some(ErrInvalidCallData))
    else
      var info := AsyncInfoOf(p.host);
      var (o, code, err) := GetCode(env, p.host.output.state, c.destination);
      var h1 := WithOutput(p.host, o);
      if err.Some? then SendAsync(env, h1, info)
      else
        var d := ExecuteOnDest(env, h1, DestinationInput(h1, c, info), c.start, c.body);
        RunCallback(env, d.host, info, d.output, d.err.None? && d.output.returnCode.Ok?, c)
  }

  function AsyncInfoOf(h: Host): AsyncCallInfo {
    if h.runtime.state.asyncCallInfo.Some? then h.runtime.state.asyncCallInfo.value
    else AsyncCallInfo("", "", 0, 0, 0)
  }

  ghost function RunCallback(
    env: Env, h: Host, info: AsyncCallInfo, out: VMOutput, ok: bool, c: AsyncCall): BodyResult
    decreases c, 3
  {
    var input := CallbackInput(env, h, info, out, ok);
    if input.None? then
      BodyResult(ReportCallback(h, ErrorOutput(h.output.state, ErrNotEnoughGas)), None)
    else
      var consumed := GasUsedForExecution(h);
      var h1 := h.(runtime := SetPointsUsed(h.runtime, 0));
      var d := ExecuteOnDest(env, h1, input.value, c.callbackStart, c.callbackBody);
      var h2 := if d.err.None? && d.output.returnCode.Ok? && ok then UseGasOn(d.host, consumed) else d.host;
      BodyResult(if d.err.None? then h2 else ReportCallback(h2, d.output), None)
  }

  // ---------------------------------------------------------------- top level

  function InitState(h: Host): Host {
    Host(BigInts(map[], []), Outputs(NEW_OUTPUT, [], {}),
         h.runtime.(state := RuntimeState(VMInput("", DirectCall, 0, 0, 0), "", Method(""), false, None), stack := []),
         h.metering.(state := GasTriple(0, 0, 0), stack := [], gasStates := map[]),
         h.storage.(stack := []))
  }

  function EnterRoot(h: Host, input: CallInput): Host {
    var h1 := InitState(h);
    h1.(runtime := InitRuntime(h1.runtime, input),
        metering := InitMetering(h1.metering, Unlocked(input)),
        output := h1.output.(state := AddDelta(h1.output.state, input.recipient, input.vmInput.callValue)),
        storage := h1.storage.(address := input.recipient))
  }

  function RootError(e: Error): Error {
    match e
    case ErrInvalidAccount => ErrContractNotFound
    case ErrMaxInstancesReached => ErrContractInvalid
    case ErrInstanceCreation => ErrContractInvalid
    case _ => e
  }

  function AnswerData(o: VMOutput): Bytes {
    JoinData([ReturnCodeText(o.returnCode)] + o.returnData)
  }

  /** A contract called asynchronously from another shard answers with all its gas left. */
  function SendCallback(env: Env, h: Host): BodyResult {
    var input := h.runtime.state.vmInput;
    var (o, err) := TransferOut(env, h.output.state, input.callType.AsynchronousCall?, input.callerAddr,
                                h.runtime.state.scAddress, GasLeft(h), 0, input.callValue,
                                AnswerData(h.output.state), AsynchronousCallBack);
    var h1 := WithOutput(h, o);
    if err.Some? then BodyResult(Fault(h1, err.value).host, err) else
      var left := GasLeft(h1);
      BodyResult(UseGasOn(ForwardGas(h1, h1.runtime.state.scAddress, input.callerAddr, left), left), None)
  }

  ghost function RootFrame(env: Env, h: Host, input: CallInput, start: Start, body: Script): BodyResult
    requires !input.vmInput.callType.AsynchronousCallBack?
  {
    var h1 := EnterRoot(h, input);
    if input.vmInput.gasProvided < env.gas.getCode then BodyResult(h1, Some(ErrNotEnoughGas)) else
      var p := LoadAndStart(env, h1, start);
      if p.err.Some? then BodyResult(p.host, Some(RootError(p.err.value)))
      else if input.callFunction.Init? then BodyResult(p.host, Some(ErrInitFuncCalledInRun))
      else if input.callFunction.CallBack? then BodyResult(p.host, Some(ErrCallBackFuncCalledInRun))
      else if start.FunctionMissing? then BodyResult(p.host, Some(ErrFuncNotFound))
      else
        var r := StopOverLimit(RunBody(env, p.host, body));
        if r.err.None? && input.vmInput.callType.AsynchronousCall? then SendCallback(env, r.host) else r
  }

  /** A transaction calling a contract: the output handed to the node, and the host left behind. */
  ghost function RunSmartContractCall(env: Env, h: Host, input: CallInput, start: Start, body: Script): CallResult
    requires !input.vmInput.callType.AsynchronousCallBack?
  {
    var r := RootFrame(env, h, input, start, body);
    var (h1, out) := CalleeOutput(r.host, r.err);
    CallResult(h1.(runtime := CleanInstance(h1.runtime)), out, r.err)
  }
}
