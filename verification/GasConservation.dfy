/** Gas conservation over call trees: what contracts record and what remains adds up to what the
    transaction provided, whatever mix of successful and failed calls it makes. */
module GasConservation {
  import opened Overflow
  import opened Wrappers
  import opened Types
  import opened OutputModel
  import opened HostModel
  import opened OutputGrowth
  import opened Frames
  import opened GasLedger

  // ---------------------------------------------------------------- call trees

  /** The contracts called, directly or not, by a script. */
  function Recipients(s: Script): set<Address> {
    match s
    case Done => {}
    case Then(a, rest) => Called(a) + Recipients(rest)
  }

  function Called(a: Action): set<Address> {
    match a
    case CallDest(c) => {c.recipient} + Recipients(c.body)
    case CallSame(c) => {c.recipient} + Recipients(c.body)
    case _ => {}
  }

  /** No contract is called twice in the tree. */
  predicate Distinct(s: Script) {
    match s
    case Done => true
    case Then(a, rest) => DistinctAction(a) && Called(a) !! Recipients(rest) && Distinct(rest)
  }

  predicate DistinctAction(a: Action) {
    match a
    case CallDest(c) => c.recipient !in Recipients(c.body) && Distinct(c.body)
    case CallSame(c) => c.recipient !in Recipients(c.body) && Distinct(c.body)
    case _ => true
  }

  /** Asynchronous calls go to addresses without code, so they leave the shard. */
  predicate LeavesShard(env: Env, s: Script) {
    match s
    case Done => true
    case Then(a, rest) => LeavesShardAction(env, a) && LeavesShard(env, rest)
  }

  predicate LeavesShardAction(env: Env, a: Action) {
    match a
    case CallDest(c) => LeavesShard(env, c.body)
    case CallSame(c) => LeavesShard(env, c.body)
    case Async(c) => !HasCode(env, c.destination)
    case _ => true
  }

  /** Only destination calls, and no transfer that names gas without paying for it. */
  predicate Exact(s: Script) {
    match s
    case Done => true
    case Then(a, rest) => ExactAction(a) && Exact(rest)
  }

  predicate ExactAction(a: Action) {
    match a
    case CallDest(c) => Exact(c.body)
    case CallSame(c) => false
    case Transfer(_, _, gasLimit, _) => gasLimit == 0
    case _ => true
  }

  // ---------------------------------------------------------------- books of a running contract

  /** Gas recorded since the contract started, beyond what it forwarded; `base` is what was
      recorded when it started. */
  ghost function Slack(h: Host, base: int): int {
    Recorded(h.output.state) - base - GasStateOf(h.metering, h.runtime.state.scAddress).forwarded
  }

  /** The gas recorded since the contract started covers what it forwarded, which its points cover. */
  ghost predicate Books(env: Env, h: Host, base: int) {
    var a := h.runtime.state.scAddress;
    var forwarded := GasStateOf(h.metering, a).forwarded;
    && h.output.state.returnCode.Ok?
    && UsedAt(h.output.state, a) == 0
    && GasStateOf(h.metering, a).returned == 0
    && forwarded <= PointsUsed(h.runtime) <= MAX_I64 && forwarded <= h.metering.state.gasForExecution
    && h.metering.state.initialCost + h.metering.state.gasForExecution
       == h.metering.state.initialGasProvided <= MAX_I64
    && Slack(h, base) >= 0
    && ContractsOnStack(env, h.runtime)
  }

  ghost predicate ContractsOnStack(env: Env, r: Runtime) {
    && HasCode(env, r.state.scAddress)
    && (forall i :: 0 <= i < |r.stack| ==> HasCode(env, r.stack[i].scAddress))
  }

  ghost predicate Fresh(h: Host, addresses: set<Address>) {
    forall x :: x in addresses ==> UsedAt(h.output.state, x) == 0 && GasStateOf(h.metering, x) == GasState(0, 0)
  }

  ghost predicate StatesApart(h: Host, k: Host, addresses: set<Address>) {
    forall x :: x !in addresses ==> GasStateOf(k.metering, x) == GasStateOf(h.metering, x)
  }

  ghost predicate UsedApart(h: Host, k: Host, addresses: set<Address>) {
    forall x :: x !in addresses ==> UsedAt(k.output.state, x) == UsedAt(h.output.state, x)
  }

  // ---------------------------------------------------------------- actions without calls

  ghost predicate Calm(h: Host, k: Host) {
    && k.metering == h.metering
    && k.runtime.state.scAddress == h.runtime.state.scAddress && k.runtime.stack == h.runtime.stack
    && SameLedger(h.output.state, k.output.state)
    && PointsUsed(h.runtime) <= PointsUsed(k.runtime) <= MAX_I64
  }

  lemma CalmBooks(env: Env, h: Host, k: Host, base: int)
    requires Books(env, h, base) && Calm(h, k)
    ensures Books(env, k, base) && Slack(k, base) == Slack(h, base)
    ensures forall r :: UsedApart(h, k, r) && StatesApart(h, k, r)
  {
    SameLedgerRecorded(h.output.state, k.output.state);
  }

  lemma UseGasCalm(h: Host, gas: uint64)
    requires h.runtime.instance.Some? && h.runtime.instance.value < |h.runtime.instances|
    requires PointsUsed(h.runtime) <= MAX_I64
    ensures Calm(h, UseGasOn(h, gas))
    ensures PointsUsed(UseGasOn(h, gas).runtime)
            == if PointsUsed(h.runtime) + gas > MAX_I64 then MAX_I64 else PointsUsed(h.runtime) + gas
  {
    SameLedgerReflexive(h.output.state);
  }

  lemma CalmThenGas(h: Host, k: Host, gas: uint64)
    requires Calm(h, k)
    requires k.runtime.instance.Some? && k.runtime.instance.value < |k.runtime.instances|
    ensures Calm(h, UseGasOn(k, gas))
  {
    UseGasCalm(k, gas);
  }

  lemma StorageCalm(env: Env, h: Host, a: Action)
    requires Ready(env, h) && PointsUsed(h.runtime) <= MAX_I64
    requires a.SetStorage? || a.GetStorage? || a.GetStorageFromAddress?
    ensures var r := LocalAction(env, h, a); r.err.None? ==> Calm(h, r.host)
  {
    hide TotalGas, TotalDelta, CachedRead, WriteStorage, Sound, LiveCount;
    var h1 := ChargeKey(env, h, a.key);
    SameLedgerReflexive(h.output.state);
    if |a.key| > ADDRESS_LEN {
      UseGasCalm(h, MulUint64(env.gas.dataCopyPerByte, Len(a.key[ADDRESS_LEN..])));
    }
    match a
    case GetStorage(key) =>
      CachedReadLedger(env, h1.output.state, h1.storage.address, key);
      var (o, v) := CachedRead(env, h1.output.state, h1.storage.address, key);
      CalmThenGas(h, WithOutput(h1, o), MulUint64(env.gas.dataCopyPerByte, Len(v)));
    case GetStorageFromAddress(address, key) =>
      CachedReadLedger(env, h1.output.state, address, key);
      var (o, v) := if HasPrefix(key, env.protectedKeyPrefix)
                    then (h1.output.state, HookStorage(env, address, key))
                    else CachedRead(env, h1.output.state, address, key);
      CalmThenGas(h, WithOutput(h1, o), MulUint64(env.gas.dataCopyPerByte, Len(v)));
    case SetStorage(key, value) =>
      WriteCalm(env, h, key, value);
  }

  lemma FreeGasLedger(o: VMOutput, freed: Option<uint64>)
    ensures SameLedger(o, if freed.Some? then FreeGas(o, freed.value) else o)
  {
  }

  lemma WriteCalm(env: Env, h: Host, key: Bytes, value: Bytes)
    requires Ready(env, h) && PointsUsed(h.runtime) <= MAX_I64
    ensures Calm(h, WriteStorage(env, h, key, value).0)
  {
    hide CachedRead, PriceOfChange, AddUint64;
    SameLedgerReflexive(h.output.state);
    var h1 := ChargeKey(env, h, key);
    if |key| > ADDRESS_LEN {
      UseGasCalm(h, MulUint64(env.gas.dataCopyPerByte, Len(key[ADDRESS_LEN..])));
    }
    var a := h1.storage.address;
    CachedReadLedger(env, h1.output.state, a, key);
    var (o, current) := CachedRead(env, h1.output.state, a, key);
    CalmThenGas(h, WithOutput(h1, o), MulUint64(env.gas.dataCopyPerByte, Len(value)));
    var acc := o.accounts[a];
    var o1 := SetAccount(o, a, acc.(storage := acc.storage[key := value]));
    SetAccountLedger(o, a, acc.(storage := acc.storage[key := value]));
    SameLedgerTransitive(h.output.state, o, o1);
    if current != value {
      var e := PriceOfChange(env, Len(current), Len(value));
      var o2 := if e.freed.Some? then FreeGas(o1, e.freed.value) else o1;
      FreeGasLedger(o1, e.freed);
      SameLedgerTransitive(h.output.state, o1, o2);
      CalmThenGas(h, WithOutput(h1, o2), e.used);
    }
  }

  /** The gas limit a transfer names, which its sender does not pay for. */
  function NamedGas(a: Action): nat {
    if a.Transfer? then a.gasLimit else 0
  }

  lemma LocalActionGas(env: Env, h: Host, a: Action, base: int)
    requires Ready(env, h) && Books(env, h, base)
    requires !a.CallDest? && !a.CallSame? && !a.Async?
    ensures var r := LocalAction(env, h, a);
      && r.host.metering == h.metering
      && (r.err.None? ==>
            && Books(env, r.host, base) && UsedApart(h, r.host, {})
            && Slack(r.host, base) == Slack(h, base) + NamedGas(a))
  {
    hide TotalGas, TotalDelta, Sound, LiveCount, WriteStorage, ReadStorage, ReadStorageFromAddress, TransferOut;
    SameLedgerReflexive(h.output.state);
    if a.Transfer? {
      TransferActionGas(env, h, a, base);
    } else if a.SetStorage? || a.GetStorage? || a.GetStorageFromAddress? {
      LocalCalm(env, h, a, base);
    } else {
      if a.UseGas? {
        UseGasCalm(h, a.gas);
      }
      var r := LocalAction(env, h, a);
      if r.err.None? {
        CalmBooks(env, h, r.host, base);
      }
    }
  }

  lemma TransferActionGas(env: Env, h: Host, a: Action, base: int)
    requires Books(env, h, base) && a.Transfer?
    ensures var r := LocalAction(env, h, a);
      && r.host.metering == h.metering
      && (r.err.None? ==>
            && Books(env, r.host, base) && UsedApart(h, r.host, {})
            && Slack(r.host, base) == Slack(h, base) + a.gasLimit)
  {
    hide TotalGas, TransferOut;
    var async := h.runtime.state.vmInput.callType.AsynchronousCall?;
    var sender := h.runtime.state.scAddress;
    TransferOutLedger(env, h.output.state, async, a.destination, sender, a.gasLimit, 0, a.amount, a.data, DirectCall);
    var (o, err) := TransferOut(
      env, h.output.state, async, a.destination, sender, a.gasLimit, 0, a.amount, a.data, DirectCall);
    if err.None? {
      assert Recorded(o) == Recorded(h.output.state) + a.gasLimit;
      assert LocalAction(env, h, a).host == WithOutput(h, o);
    }
  }

  lemma LocalCalm(env: Env, h: Host, a: Action, base: int)
    requires Ready(env, h) && Books(env, h, base)
    requires a.SetStorage? || a.GetStorage? || a.GetStorageFromAddress?
    ensures var r := LocalAction(env, h, a);
      && r.host.metering == h.metering
      && (r.err.None? ==> Books(env, r.host, base) && UsedApart(h, r.host, {}) && Slack(r.host, base) == Slack(h, base))
  {
    StorageCalm(env, h, a);
    var r := LocalAction(env, h, a);
    if r.err.None? {
      CalmBooks(env, h, r.host, base);
    }
  }

  // ---------------------------------------------------------------- entering a call

  /** t is the host just after a direct call entered its frame on top of h. */
  ghost predicate Entered(h: Host, t: Host, input: CallInput) {
    && t.runtime.state.scAddress == input.recipient
    && t.runtime.state.vmInput == input.vmInput && t.runtime.state.callFunction == input.callFunction
    && t.runtime.stack == h.runtime.stack + [h.runtime.state]
    && t.runtime.instances == h.runtime.instances && t.runtime.instance == h.runtime.instance
    && t.metering.gasStates == h.metering.gasStates
    && t.metering.state == GasTriple(input.vmInput.gasProvided, 0, input.vmInput.gasProvided)
    && t.output.state.returnCode.Ok?
    && Recorded(t.output.state) == Recorded(h.output.state)
    && (forall a :: UsedAt(t.output.state, a) == UsedAt(h.output.state, a))
  }

  lemma TransferOnEntryGas(env: Env, t: Host, input: CallInput)
    ensures var u := TransferOnEntry(env, t, input).host;
      && u == WithOutput(t, u.output.state)
      && u.output.state.returnCode == t.output.state.returnCode
      && Recorded(u.output.state) == Recorded(t.output.state)
      && (forall a :: UsedAt(u.output.state, a) == UsedAt(t.output.state, a))
  {
    hide TransferValueOnly, TotalGas;
    var async := t.runtime.state.vmInput.callType.AsynchronousCall?;
    TransferValueOnlyLedger(env, t.output.state, async, input.recipient, input.vmInput.callerAddr,
                            input.vmInput.callValue, false);
    var o := TransferValueOnly(env, t.output.state, async, input.recipient, input.vmInput.callerAddr,
                               input.vmInput.callValue, false).0;
    SameLedgerRecorded(t.output.state, o);
  }

  lemma DestEntryGas(env: Env, h: Host, input: CallInput)
    requires input.vmInput.callType.DirectCall?
    ensures Entered(h, DestEntry(env, h, input).host, input)
  {
    hide TotalGas;
    TransferOnEntryGas(env, EnterDest(h, input), input);
  }

  lemma SameEntryGas(env: Env, h: Host, input: CallInput)
    requires input.vmInput.callType.DirectCall? && h.output.state.returnCode.Ok?
    ensures Entered(h, SameEntry(env, h, input).host, input)
    ensures SameEntry(env, h, input).host.metering.totalUsedGas == h.metering.totalUsedGas
  {
    hide TotalGas;
    TransferOnEntryGas(env, EnterSame(h, input), input);
  }

  // ---------------------------------------------------------------- the callee

  ghost function CallerPoints(h: Host, k: Host): uint64 {
    if h.runtime.instance.Some? && h.runtime.instance.value < |k.runtime.instances|
    then k.runtime.instances[h.runtime.instance.value].points else 0
  }

  ghost predicate Charged(h: Host, k: Host, gas: uint64) {
    CallerPoints(h, k) == PointsUsed(h.runtime) + gas
  }

  /** A call of the init function is refused before its caller is charged. */
  function ChargeOf(input: CallInput): uint64 {
    if input.callFunction.Init? && !input.allowInit then 0 else input.vmInput.gasProvided
  }

  lemma InitialCostAtLeast(env: Env, code: Bytes)
    ensures InitialCost(env, code) >= env.gas.getCode
  {
  }

  lemma LoadAndStartGas(env: Env, f: Host, start: Start)
    requires Sound(env, f.output.state)
    requires f.metering.state == GasTriple(f.runtime.state.vmInput.gasProvided, 0, f.runtime.state.vmInput.gasProvided)
    ensures var p := LoadAndStart(env, f, start);
      && p.host.metering == f.metering.(state := p.host.metering.state)
      && p.host.runtime.state == f.runtime.state && p.host.runtime.stack == f.runtime.stack
      && |f.runtime.instances| <= |p.host.runtime.instances|
      && (forall i :: 0 <= i < |f.runtime.instances| ==> p.host.runtime.instances[i] == f.runtime.instances[i])
      && p.host.output == f.output.(state := p.host.output.state) && SameLedger(f.output.state, p.host.output.state)
      && (p.err.None? ==>
            && PointsUsed(p.host.runtime) == 0
            && HasCode(env, f.runtime.state.scAddress)
            && p.host.metering.state.initialGasProvided == f.metering.state.initialGasProvided
            && p.host.metering.state.initialCost >= env.gas.getCode
            && p.host.metering.state.initialCost + p.host.metering.state.gasForExecution
               == f.metering.state.initialGasProvided)
  {
    hide SameLedger, Sound, InitialCost, LiveCount, TotalGas, GetCode, HasCode;
    var a := f.runtime.state.scAddress;
    InitialCostAtLeast(env, GetCode(env, f.output.state, a).1);
    GetCodeLedger(env, f.output.state, a);
    if !HasCode(env, a) {
      NoCodeToGet(env, f.output.state, a);
    }
  }

  lemma PrepareGas(env: Env, h: Host, t: Host, own: bool, input: CallInput, start: Start)
    requires Ready(env, h) && Inside(env, h, t, own) && Entered(h, t, input)
    requires ContractsOnStack(env, h.runtime) && h.metering.state.gasForExecution <= MAX_I64
    requires PointsUsed(h.runtime) <= MAX_I64 && input.vmInput.gasProvided <= GasLeft(h)
    requires Fresh(t, {input.recipient})
    ensures var p := Prepare(env, t, input, start);
      && p.host.metering.gasStates == h.metering.gasStates
      && p.host.metering.totalUsedGas == t.metering.totalUsedGas
      && p.host.runtime.state == t.runtime.state
      && Charged(h, p.host, ChargeOf(input))
      && (p.err.None? ==>
            && ChargeOf(input) == input.vmInput.gasProvided
            && Books(env, p.host, Recorded(h.output.state)) && Slack(p.host, Recorded(h.output.state)) == 0
            && PointsUsed(p.host.runtime) == 0
            && p.host.metering.state.initialCost >= env.gas.getCode
            && p.host.metering.state.initialGasProvided == input.vmInput.gasProvided
            && (forall a :: UsedAt(p.host.output.state, a) == UsedAt(t.output.state, a)))
  {
    hide TotalGas, LoadAndStart;
    if !(t.runtime.state.callFunction.Init? && !input.allowInit) {
      var g := UseGasOn(t, input.vmInput.gasProvided);
      UseGasCalm(t, input.vmInput.gasProvided);
      LoadAndStartGas(env, g, start);
      var p := LoadAndStart(env, g, start);
      SameLedgerRecorded(g.output.state, p.host.output.state);
    }
  }

  // ---------------------------------------------------------------- leaving a call

  lemma MergedLedger(env: Env, o: VMOutput, p: VMOutput)
    requires Sound(env, o) && Grows(env, o, p)
    ensures Recorded(PopMerge(o, p)) == Recorded(p)
    ensures PopMerge(o, p).returnCode == p.returnCode
    ensures forall a :: UsedAt(PopMerge(o, p), a) == UsedAt(p, a)
  {
    hide TotalGas, TotalDelta;
    SoundIsValid(env, o);
    SoundIsValid(env, p);
    MergeOnSuccess(o, p);
    var m := PopMerge(o, p);
    assert forall a :: a in m.accounts ==> SameButCode(m.accounts[a], p.accounts[a]);
    TotalsOfSame(m.accounts, p.accounts);
  }

  /** Forwarding to a finished callee adds to the caller's forwarded gas and no other's. */
  lemma ForwardGasStates(h: Host, a: Address, child: Address, gas: uint64)
    requires a != child
    ensures var k := ForwardGas(h, a, child, gas);
      && k == h.(metering := h.metering.(gasStates := k.metering.gasStates))
      && StatesApart(h, k, {a, child})
      && GasStateOf(k.metering, a)
         == GasStateOf(h.metering, a).(forwarded := AddUint64(GasStateOf(h.metering, a).forwarded, gas))
  {
  }

  /** What a callee leaves for its caller's books: the gas spent, recorded at least once. */
  ghost predicate Settled(h: Host, f: Host, out: VMOutput, gas: uint64, charge: uint64) {
    && Charged(h, f, charge) && charge <= gas
    && GasStateOf(f.metering, h.runtime.state.scAddress) == GasStateOf(h.metering, h.runtime.state.scAddress)
    && (!out.returnCode.Ok? ==> out.gasRemaining == 0)
    && (out.returnCode.Ok? ==>
          && charge == gas && out.gasRemaining <= gas
          && f.output.state.returnCode.Ok?
          && GasSpentByContract(f) == gas - out.gasRemaining
          && UsedAt(f.output.state, h.runtime.state.scAddress) == 0
          && Recorded(f.output.state) >= Recorded(h.output.state) + GasSpentByContract(f))
  }

  /** Gas a callee recorded beyond what it spent. */
  ghost function Excess(h: Host, f: Host): int {
    Recorded(f.output.state) - Recorded(h.output.state) - GasSpentByContract(f)
  }

  lemma LeaveDestGas(env: Env, h: Host, f: Host, out: VMOutput, gas: uint64, charge: uint64, base: int)
    requires Ready(env, h) && Books(env, h, base) && Inside(env, h, f, true)
    requires f.runtime.state.scAddress != h.runtime.state.scAddress
    requires Settled(h, f, out, gas, charge) && gas <= GasLeft(h)
    ensures var z := LeaveDest(f, out);
      && Books(env, z, base)
      && Slack(z, base) == Slack(h, base) + (if out.returnCode.Ok? then Excess(h, f) else 0)
      && StatesApart(f, z, {h.runtime.state.scAddress, f.runtime.state.scAddress})
      && Recorded(z.output.state) == Recorded(if out.returnCode.Ok? then f.output.state else h.output.state)
      && (forall x :: UsedAt(z.output.state, x)
                      == UsedAt(if out.returnCode.Ok? then f.output.state else h.output.state, x))
      && PointsUsed(z.runtime) == CallerPoints(h, f) - out.gasRemaining
  {
    hide TotalGas, TotalDelta, Grows, PopMerge, ForwardGas, GasSpentByContract, Sound, LiveCount;
    var popped := f.(bigInt := PopBigInt(f.bigInt), metering := PopMetering(f.metering),
                     runtime := PopRuntime(f.runtime), storage := PopStorage(f.storage));
    PopRuntimeInside(h.runtime, f.runtime);
    assert popped.metering.state == h.metering.state;
    assert PointsUsed(popped.runtime) == CallerPoints(h, f);
    var restored := RestoreGas(popped, out.gasRemaining);
    assert PointsUsed(restored.runtime) == CallerPoints(h, f) - out.gasRemaining;
    var spent := if out.returnCode.Ok? then GasSpentByContract(f) else 0;
    ForwardGasStates(restored, h.runtime.state.scAddress, f.runtime.state.scAddress, spent);
    if out.returnCode.Ok? {
      MergedLedger(env, h.output.state, f.output.state);
    }
  }

  lemma KeepSameGas(env: Env, h: Host, f: Host, out: VMOutput, gas: uint64, base: int)
    requires Ready(env, h) && Books(env, h, base) && Inside(env, h, f, false)
    requires f.runtime.state.scAddress != h.runtime.state.scAddress
    requires Settled(h, f, out, gas, gas) && gas <= GasLeft(h)
    requires f.output.state.returnCode.Ok? && UsedAt(f.output.state, h.runtime.state.scAddress) == 0
    requires Recorded(f.output.state) >= Recorded(h.output.state)
    ensures var z := KeepSame(f, out);
      && Books(env, z, base)
      && StatesApart(f, z, {h.runtime.state.scAddress, f.runtime.state.scAddress})
      && z.output.state == f.output.state
      && Slack(z, base) == Slack(h, base) + Excess(h, f) + (if out.returnCode.Ok? then 0 else GasSpentByContract(f))
      && PointsUsed(z.runtime) == PointsUsed(h.runtime) + gas - out.gasRemaining
  {
    hide TotalGas, TotalDelta, Grows, ForwardGas, GasSpentByContract;
    var popped := f.(bigInt := DiscardBigInt(f.bigInt), output := PopDiscardOutput(f.output),
                     metering := PopMetering(f.metering), runtime := PopRuntime(f.runtime));
    PopRuntimeInside(h.runtime, f.runtime);
    assert popped.metering.state == h.metering.state;
    assert PointsUsed(popped.runtime) == CallerPoints(h, f);
    var restored := RestoreGas(popped, out.gasRemaining);
    assert PointsUsed(restored.runtime) == CallerPoints(h, f) - out.gasRemaining;
    var spent := if out.returnCode.Ok? then GasSpentByContract(f) else 0;
    ForwardGasStates(restored, h.runtime.state.scAddress, f.runtime.state.scAddress, spent);
  }

  lemma UndoSameGas(env: Env, h: Host, f: Host, charge: uint64, base: int)
    requires Ready(env, h) && Books(env, h, base) && Inside(env, h, f, false)
    requires Charged(h, f, charge) && charge <= GasLeft(h)
    requires GasStateOf(f.metering, h.runtime.state.scAddress) == GasStateOf(h.metering, h.runtime.state.scAddress)
    ensures Books(env, UndoSame(f), base)
    ensures UndoSame(f).metering.gasStates == f.metering.gasStates && UndoSame(f).output.state == h.output.state
    ensures Slack(UndoSame(f), base) == Slack(h, base)
    ensures PointsUsed(UndoSame(f).runtime) == PointsUsed(h.runtime) + charge
  {
    hide TotalGas, TotalDelta, Grows;
    PopRuntimeInside(h.runtime, f.runtime);
  }

  /** A finished callee with balanced books settles with its caller. */
  lemma SettleGas(env: Env, h: Host, f: Host, own: bool, gas: uint64)
    requires Ready(env, h) && Inside(env, h, f, own)
    requires Charged(h, f, gas) && h.runtime.state.scAddress != f.runtime.state.scAddress
    requires Books(env, f, Recorded(h.output.state))
    requires PointsUsed(f.runtime) <= f.metering.state.gasForExecution
    requires f.metering.state.initialGasProvided == gas
    requires GasStateOf(f.metering, h.runtime.state.scAddress) == GasStateOf(h.metering, h.runtime.state.scAddress)
    requires UsedAt(f.output.state, h.runtime.state.scAddress) == 0
    ensures var (k, out) := GetVMOutput(f);
      && Inside(env, h, k, own)
      && Settled(h, k, out, gas, gas)
      && GasSpentByContract(k) == GasSpentByContract(f) <= gas
      && Excess(h, k) == Slack(f, Recorded(h.output.state))
      && k.output.state.returnCode.Ok? && k.metering == f.metering && k.runtime == f.runtime
      && Recorded(k.output.state) >= Recorded(h.output.state)
      && (forall x :: x != f.runtime.state.scAddress ==> UsedAt(k.output.state, x) == UsedAt(f.output.state, x))
  {
    hide TotalGas, TotalDelta, GetVMOutput, Sound, LiveCount, Extends;
    GetVMOutputGrows(env, f);
    OutputInside(env, h, f, own, GetVMOutput(f).0.output.state);
    assert TotalForwarded(f.metering, f.runtime.state.scAddress)
           == GasStateOf(f.metering, f.runtime.state.scAddress).forwarded;
    GetVMOutputLedger(f);
  }

  // ---------------------------------------------------------------- gas recorded and not paid for

  /** Gas that running a script records beyond what its contract forwards: the limits named by
      transfers, and what same-context callees spend when their own gas check fails. */
  ghost function Unpaid(env: Env, h: Host, s: Script): nat
    decreases s, 0
  {
    match s
    case Done => 0
    case Then(a, rest) =>
      match a
      case CallDest(c) =>
        DestUnpaid(env, h, c) + Unpaid(env, ExecuteOnDest(env, h, CallInputOf(h, c), c.start, c.body).host, rest)
      case CallSame(c) =>
        SameUnpaid(env, h, c) + Unpaid(env, ExecuteOnSame(env, h, CallInputOf(h, c), c.start, c.body).0, rest)
      case Async(c) => 0
      case _ =>
        var r := LocalAction(env, h, a);
        if r.err.Some? then 0 else NamedGas(a) + Unpaid(env, r.host, rest)
  }

  /** The same for a callee whose frame t has been entered. */
  ghost function FrameUnpaid(env: Env, t: Host, input: CallInput, start: Start, body: Script): nat
    decreases body, 1
  {
    var p := Prepare(env, t, input, start);
    if p.err.None? && !start.FunctionMissing? then Unpaid(env, p.host, body) else 0
  }

  /** A failed destination call leaves nothing behind. */
  ghost function DestUnpaid(env: Env, h: Host, c: Call): nat
    decreases c.body, 2
  {
    var input := CallInputOf(h, c);
    if ExecuteOnDest(env, h, input, c.start, c.body).err.Some? then 0
    else FrameUnpaid(env, DestEntry(env, h, input).host, input, c.start, c.body)
  }

  /** The gas check of a same-context callee that has finished. */
  ghost predicate SameCheckPasses(env: Env, h: Host, c: Call) {
    GetVMOutput(SameFrame(env, h, CallInputOf(h, c), c.start, c.body).host).1.returnCode.Ok?
  }

  /** A same-context callee that fails its gas check is kept, and reports nothing spent. */
  ghost function SameUnpaid(env: Env, h: Host, c: Call): nat
    decreases c.body, 2
  {
    var input := CallInputOf(h, c);
    var f := SameFrame(env, h, input, c.start, c.body);
    if f.err.Some? then 0 else
      FrameUnpaid(env, SameEntry(env, h, input).host, input, c.start, c.body)
      + if SameCheckPasses(env, h, c) then 0 else GasSpentByContract(f.host)
  }

  /** Scripts with destination calls only, whose transfers name no gas, pay for all they record. */
  lemma {:induction false} ExactIsPaid(env: Env, h: Host, s: Script)
    requires Exact(s)
    ensures Unpaid(env, h, s) == 0
    decreases s
  {
    hide ExecuteOnDest, ExecuteOnSame, LocalAction, CallInputOf, Prepare, DestEntry;
    if s.Then? && s.first.CallDest? {
      var c := s.first.call;
      var input := CallInputOf(h, c);
      ExactIsPaid(env, Prepare(env, DestEntry(env, h, input).host, input, c.start).host, c.body);
      ExactIsPaid(env, ExecuteOnDest(env, h, input, c.start, c.body).host, s.rest);
      assert FrameUnpaid(env, DestEntry(env, h, input).host, input, c.start, c.body) == 0;
      assert DestUnpaid(env, h, c) == 0;
    } else if s.Then? && !s.first.Async? {
      ExactIsPaid(env, LocalAction(env, h, s.first).host, s.rest);
    }
  }

  // ---------------------------------------------------------------- every call tree

  /** What a call may assume about the tree below it. */
  ghost predicate TreeReady(env: Env, h: Host, recipient: Address, body: Script) {
    && recipient !in Recipients(body) && Distinct(body) && LeavesShard(env, body)
    && h.runtime.state.scAddress !in {recipient} + Recipients(body)
    && Fresh(h, {recipient} + Recipients(body))
  }

  lemma {:induction false} ExecuteCallGas(
    env: Env, h: Host, t: Host, own: bool, input: CallInput, start: Start, body: Script)
    requires Ready(env, h) && Inside(env, h, t, own) && Entered(h, t, input)
    requires ContractsOnStack(env, h.runtime) && h.metering.state.gasForExecution <= MAX_I64
    requires PointsUsed(h.runtime) <= MAX_I64 && input.vmInput.gasProvided <= GasLeft(h)
    requires TreeReady(env, h, input.recipient, body)
    ensures var r := ExecuteCall(env, t, input, start, body);
      && StatesApart(h, r.host, {input.recipient} + Recipients(body))
      && Charged(h, r.host, ChargeOf(input))
      && r.host.runtime.state.scAddress == input.recipient
      && (r.err.None? ==>
            && ChargeOf(input) == input.vmInput.gasProvided && r.host.output.state.returnCode.Ok?
            && Books(env, r.host, Recorded(h.output.state))
            && Slack(r.host, Recorded(h.output.state)) == FrameUnpaid(env, t, input, start, body)
            && PointsUsed(r.host.runtime) <= r.host.metering.state.gasForExecution
            && r.host.metering.state.initialCost >= env.gas.getCode
            && r.host.metering.state.initialGasProvided == input.vmInput.gasProvided
            && UsedApart(h, r.host, Recipients(body)))
    decreases body, 1
  {
    hide TotalGas, TotalDelta, Prepare, Inside, Books, Slack, Kept, ContractsOnStack, Recorded, PointsUsed, GasLeft,
      Distinct, LeavesShard, Sound, LiveCount, UsedAt, RunBody, Ready, CallerPoints, InstancesKept, Unpaid;
    CallerInstance(env, h);
    PrepareGas(env, h, t, own, input, start);
    PrepareInside(env, h, t, own, input, start);
    var p := Prepare(env, t, input, start);
    if p.err.None? && !start.FunctionMissing? {
      CallerInstance(env, p.host);
      BodyGas(env, p.host, body, Recorded(h.output.state));
      BodyKept(env, p.host, body);
      CalleeKept(env, h, p.host, RunBody(env, p.host, body).host);
    }
  }

  lemma CallerInstance(env: Env, h: Host)
    requires Ready(env, h)
    ensures h.runtime.instance.Some? && h.runtime.instance.value < |h.runtime.instances|
  {
  }

  /** The callee's body leaves its caller's instance and its own gas triple alone. */
  lemma CalleeKept(env: Env, h: Host, p: Host, k: Host)
    requires Ready(env, p) && Kept(env, p, k)
    requires h.runtime.instance.Some? && p.runtime.instance.value != h.runtime.instance.value
    requires h.runtime.instance.value < |p.runtime.instances|
    ensures CallerPoints(h, k) == CallerPoints(h, p)
    ensures k.metering.state == p.metering.state && k.runtime.state.scAddress == p.runtime.state.scAddress
  {
  }

  /** A call is refused when its value cannot be transferred or it names the init function. */
  ghost predicate RefusedOnDest(env: Env, h: Host, c: Call) {
    DestEntry(env, h, CallInputOf(h, c)).err.Some? || c.callFunction.Init?
  }

  ghost predicate RefusedOnSame(env: Env, h: Host, c: Call) {
    SameEntry(env, h, CallInputOf(h, c)).err.Some? || c.callFunction.Init?
  }

  /** A destination call keeps its caller's books balanced, whether it succeeds or fails. A
      successful call costs what it was given less what remains, which is recorded; a failed call
      costs nothing if it was refused before execution, otherwise all the gas it was given. */
  lemma {:induction false} DestCallGas(env: Env, h: Host, c: Call, base: int)
    requires Ready(env, h) && Books(env, h, base)
    requires TreeReady(env, h, c.recipient, c.body)
    ensures var input := CallInputOf(h, c);
      var r := ExecuteOnDest(env, h, input, c.start, c.body);
      && Books(env, r.host, base) && Slack(r.host, base) == Slack(h, base) + DestUnpaid(env, h, c)
      && StatesApart(h, r.host, {h.runtime.state.scAddress, c.recipient} + Recipients(c.body))
      && UsedApart(h, r.host, {c.recipient} + Recipients(c.body))
      && (r.err.Some? ==> PointsUsed(r.host.runtime) == PointsUsed(h.runtime)
                          + if RefusedOnDest(env, h, c) then 0 else input.vmInput.gasProvided)
      && (r.err.Some? ==> Recorded(r.host.output.state) == Recorded(h.output.state))
      && (r.err.None? ==>
            var cost := input.vmInput.gasProvided - r.output.gasRemaining;
            && env.gas.getCode <= cost && PointsUsed(r.host.runtime) == PointsUsed(h.runtime) + cost
            && Recorded(r.host.output.state) == Recorded(h.output.state) + cost + DestUnpaid(env, h, c))
    decreases c.body, 3
  {
    hide TotalGas, TotalDelta, DestEntry, ExecuteCall, Inside, LeaveDest, GetVMOutput, FrameUnpaid, Slack, Books,
      Recorded;
    var input := CallInputOf(h, c);
    var g := input.vmInput.gasProvided;
    DestEntryInside(env, h, input);
    DestEntryGas(env, h, input);
    var t := DestEntry(env, h, input);
    DestFrameInside(env, h, input, c.start, c.body);
    CallFacts(env, h, base);
    if t.err.None? {
      ExecuteCallGas(env, h, t.host, true, input, c.start, c.body);
    }
    var f := DestFrame(env, h, input, c.start, c.body);
    var charge := if t.err.Some? then 0 else ChargeOf(input);
    assert Charged(h, f.host, charge);
    if f.err.None? {
      CalleeApart(env, h, f.host, c);
      SettleGas(env, h, f.host, true, g);
    }
    var (f1, out) := CalleeOutput(f.host, f.err);
    LeaveDestGas(env, h, f1, out, g, charge, base);
  }

  /** A call in the caller's context: one that ends in an error is undone, and costs nothing if it
      was refused and all its gas otherwise; one that ends without error is kept, and costs what it
      was given less what its output says remains, which is nothing when its gas check fails. */
  lemma {:induction false} SameCallGas(env: Env, h: Host, c: Call, base: int)
    requires Ready(env, h) && Books(env, h, base)
    requires TreeReady(env, h, c.recipient, c.body)
    ensures var input := CallInputOf(h, c);
      var f := SameFrame(env, h, input, c.start, c.body);
      var r := ExecuteOnSame(env, h, input, c.start, c.body);
      && r.1 == f.err
      && Books(env, r.0, base) && Slack(r.0, base) == Slack(h, base) + SameUnpaid(env, h, c)
      && StatesApart(h, r.0, {h.runtime.state.scAddress, c.recipient} + Recipients(c.body))
      && UsedApart(h, r.0, {c.recipient} + Recipients(c.body))
      && (r.1.Some? ==> PointsUsed(r.0.runtime) == PointsUsed(h.runtime)
                        + if RefusedOnSame(env, h, c) then 0 else input.vmInput.gasProvided)
      && (r.1.None? ==>
            && PointsUsed(r.0.runtime) == PointsUsed(h.runtime)
               + (if SameCheckPasses(env, h, c) then GasSpentByContract(f.host) else input.vmInput.gasProvided)
            && env.gas.getCode <= GasSpentByContract(f.host) <= input.vmInput.gasProvided
            && Recorded(r.0.output.state) == Recorded(h.output.state) + GasSpentByContract(f.host)
               + FrameUnpaid(env, SameEntry(env, h, input).host, input, c.start, c.body))
    decreases c.body, 3
  {
    hide TotalGas, TotalDelta, SameEntry, ExecuteCall, Inside, KeepSame, UndoSame, GetVMOutput, FrameUnpaid, Slack,
      Books, Recorded;
    var input := CallInputOf(h, c);
    var g := input.vmInput.gasProvided;
    SameEntryInside(env, h, input);
    CallFacts(env, h, base);
    SameEntryGas(env, h, input);
    var t := SameEntry(env, h, input);
    SameFrameInside(env, h, input, c.start, c.body);
    if t.err.None? {
      ExecuteCallGas(env, h, t.host, false, input, c.start, c.body);
    }
    var f := SameFrame(env, h, input, c.start, c.body);
    var charge := if t.err.Some? then 0 else ChargeOf(input);
    assert Charged(h, f.host, charge);
    if f.err.None? {
      CalleeApart(env, h, f.host, c);
      SettleGas(env, h, f.host, false, g);
      var (k, out) := GetVMOutput(f.host);
      KeepSameGas(env, h, k, out, g, base);
    } else {
      UndoSameGas(env, h, f.host, charge, base);
    }
  }

  /** What balanced books say about the gas a call can be given. */
  lemma CallFacts(env: Env, h: Host, base: int)
    requires Books(env, h, base)
    ensures ContractsOnStack(env, h.runtime) && h.metering.state.gasForExecution <= MAX_I64
    ensures PointsUsed(h.runtime) <= MAX_I64 && h.output.state.returnCode.Ok?
    ensures UsedAt(h.output.state, h.runtime.state.scAddress) == 0
  {
  }

  /** The callee's tree leaves the caller's records alone. */
  lemma CalleeApart(env: Env, h: Host, f: Host, c: Call)
    requires TreeReady(env, h, c.recipient, c.body) && UsedAt(h.output.state, h.runtime.state.scAddress) == 0
    requires StatesApart(h, f, {c.recipient} + Recipients(c.body)) && UsedApart(h, f, Recipients(c.body))
    ensures GasStateOf(f.metering, h.runtime.state.scAddress) == GasStateOf(h.metering, h.runtime.state.scAddress)
    ensures UsedAt(f.output.state, h.runtime.state.scAddress) == 0
    ensures h.runtime.state.scAddress != c.recipient
  {
  }

  lemma {:induction false} BodyGas(env: Env, h: Host, s: Script, base: int)
    requires Ready(env, h) && Books(env, h, base)
    requires Distinct(s) && LeavesShard(env, s)
    requires h.runtime.state.scAddress !in Recipients(s) && Fresh(h, Recipients(s))
    ensures var r := RunBody(env, h, s);
      && StatesApart(h, r.host, {h.runtime.state.scAddress} + Recipients(s))
      && (r.err.None? ==>
            && Books(env, r.host, base) && UsedApart(h, r.host, Recipients(s))
            && Slack(r.host, base) == Slack(h, base) + Unpaid(env, h, s))
    decreases s, 0
  {
    hide TotalGas, TotalDelta, Books, Slack, Kept, Ready, ExecuteOnDest, ExecuteOnSame, LocalAction, RunAsync,
      CallInputOf, GasStateOf, UsedAt, HasCode, DestUnpaid, SameUnpaid, SameFrame, FrameUnpaid, Recorded;
    match s
    case Done =>
    case Then(a, rest) =>
      match a
      case CallDest(c) =>
        DestCallGas(env, h, c, base);
        DestCallKept(env, h, CallInputOf(h, c), c.start, c.body);
        ThenGas(env, h, ExecuteOnDest(env, h, CallInputOf(h, c), c.start, c.body).host, a, rest, base);
      case CallSame(c) =>
        SameCallGas(env, h, c, base);
        SameCallKept(env, h, CallInputOf(h, c), c.start, c.body);
        ThenGas(env, h, ExecuteOnSame(env, h, CallInputOf(h, c), c.start, c.body).0, a, rest, base);
      case Async(c) => AsyncGas(env, h, c, base);
      case _ =>
        LocalActionGas(env, h, a, base);
        LocalActionKept(env, h, a);
        var r := LocalAction(env, h, a);
        if r.err.None? {
          ThenGas(env, h, r.host, a, rest, base);
        }
  }

  lemma {:induction false} ThenGas(env: Env, h: Host, k: Host, a: Action, rest: Script, base: int)
    requires Ready(env, h) && Kept(env, h, k) && Books(env, k, base)
    requires Called(a) !! Recipients(rest) && Distinct(rest) && LeavesShard(env, rest)
    requires h.runtime.state.scAddress !in Recipients(rest) && Fresh(h, Recipients(rest))
    requires StatesApart(h, k, {h.runtime.state.scAddress} + Called(a)) && UsedApart(h, k, Called(a))
    ensures var r := RunBody(env, k, rest);
      && StatesApart(h, r.host, {h.runtime.state.scAddress} + Called(a) + Recipients(rest))
      && (r.err.None? ==>
            && Books(env, r.host, base) && UsedApart(h, r.host, Called(a) + Recipients(rest))
            && Slack(r.host, base) == Slack(k, base) + Unpaid(env, k, rest))
    decreases rest, 1
  {
    hide TotalGas, TotalDelta, Books, Slack;
    KeptReady(env, h, k);
    BodyGas(env, k, rest, base);
  }

  lemma PrepareAsyncGas(env: Env, h: Host, dest: Address, data: Bytes, value: int, base: int)
    requires Ready(env, h) && Books(env, h, base)
    ensures var p := PrepareAsync(env, h, dest, data, value);
      && p.host.metering == h.metering
      && (p.err.None? ==>
            var info := AsyncInfoOf(p.host);
            && Books(env, p.host, base) && UsedApart(h, p.host, {}) && Slack(p.host, base) == Slack(h, base)
            && p.host.output == h.output
            && p.host.runtime.state.scAddress == h.runtime.state.scAddress
            && info.destination == dest && info.value == value && info.data == data
            && PointsUsed(p.host.runtime) == PointsUsed(h.runtime) + env.gas.asyncCallStep + info.gasLocked
            && info.gasLimit == GasLeft(p.host) > 0
            && GasLeft(h) == env.gas.asyncCallStep + info.gasLocked + info.gasLimit)
  {
    hide TotalGas, TotalDelta, GasLockedForAsync;
    if GasLeft(h) > env.gas.asyncCallStep {
      var h1 := UseGasOn(h, env.gas.asyncCallStep);
      UseGasCalm(h, env.gas.asyncCallStep);
      UseGasKept(env, h, env.gas.asyncCallStep);
      var lock := GasLockedForAsync(env, h1);
      if h.runtime.state.scAddress in env.withCallback && GasLeft(h1) > lock {
        UseGasCalm(h1, lock);
      }
    }
  }

  /** The transfer carries the gas limit and the locked gas, all of it forwarded by the caller,
      who is left with nothing. */
  lemma SendAsyncGas(env: Env, h: Host, info: AsyncCallInfo, base: int)
    requires Ready(env, h) && Books(env, h, base) && !HasCode(env, info.destination)
    requires info.gasLimit == GasLeft(h) > 0
    requires GasStateOf(h.metering, h.runtime.state.scAddress).forwarded + info.gasLocked <= PointsUsed(h.runtime)
    ensures var r := SendAsync(env, h, info);
      && StatesApart(h, r.host, {h.runtime.state.scAddress})
      && (r.err.None? ==> && Books(env, r.host, base) && UsedApart(h, r.host, {})
                          && Slack(r.host, base) == Slack(h, base) && GasLeft(r.host) == 0)
  {
    hide TotalGas, TotalDelta, TransferOut, Sound, LiveCount, Books, Slack, SetPointsUsed, ForwardGas, UsedAt;
    CallFacts(env, h, base);
    var a := h.runtime.state.scAddress;
    var async := h.runtime.state.vmInput.callType.AsynchronousCall?;
    TransferOutLedger(env, h.output.state, async, info.destination, a, info.gasLimit, info.gasLocked,
                      info.value, info.data, AsynchronousCall);
    var (o, err) := TransferOut(env, h.output.state, async, info.destination, a, info.gasLimit, info.gasLocked,
                                info.value, info.data, AsynchronousCall);
    if err.None? {
      SentBooks(env, h, o, info, base);
    }
  }

  lemma SentBooks(env: Env, h: Host, o: VMOutput, info: AsyncCallInfo, base: int)
    requires h.runtime.instance.Some? && h.runtime.instance.value < |h.runtime.instances|
    requires Books(env, h, base) && !HasCode(env, info.destination) && info.gasLimit == GasLeft(h) > 0
    requires GasStateOf(h.metering, h.runtime.state.scAddress).forwarded + info.gasLocked <= PointsUsed(h.runtime)
    requires Recorded(o) == Recorded(h.output.state) + info.gasLimit + info.gasLocked && o.returnCode.Ok?
    requires forall x :: UsedAt(o, x) == UsedAt(h.output.state, x)
    ensures var h1 := WithOutput(h, o);
      var left := GasLeft(h1);
      var sent := (left + info.gasLocked) % TWO_64;
      var k := UseGasOn(ForwardGas(h1, h.runtime.state.scAddress, info.destination, sent), left);
      && StatesApart(h, k, {h.runtime.state.scAddress}) && Books(env, k, base) && UsedApart(h, k, {})
      && Slack(k, base) == Slack(h, base) && GasLeft(k) == 0
  {
    hide TotalGas;
    var h1 := WithOutput(h, o);
    assert !OnTheStack(h1.runtime, info.destination);
    UseGasCalm(ForwardGas(h1, h.runtime.state.scAddress, info.destination, GasLeft(h1) + info.gasLocked), GasLeft(h1));
  }

  /** An asynchronous call that leaves the shard records in its transfer all the gas it takes. */
  lemma AsyncGas(env: Env, h: Host, c: AsyncCall, base: int)
    requires Ready(env, h) && Books(env, h, base) && !HasCode(env, c.destination)
    ensures var r := RunAsync(env, h, c);
      && StatesApart(h, r.host, {h.runtime.state.scAddress})
      && (r.err.None? ==> && Books(env, r.host, base) && UsedApart(h, r.host, {})
                          && Slack(r.host, base) == Slack(h, base) && GasLeft(r.host) == 0)
  {
    hide TotalGas, TotalDelta, PrepareAsync, GetCode, SendAsync;
    PrepareAsyncGas(env, h, c.destination, c.data, c.value, base);
    PrepareAsyncKept(env, h, c.destination, c.data, c.value);
    var p := PrepareAsync(env, h, c.destination, c.data, c.value);
    if p.err.None? && c.parsed.Some? {
      KeptReady(env, h, p.host);
      var (o, code, err) := GetCode(env, p.host.output.state, c.destination);
      NoCodeToGet(env, p.host.output.state, c.destination);
      GetCodeLedger(env, p.host.output.state, c.destination);
      GetCodeGrows(env, p.host.output.state, c.destination);
      var h1 := WithOutput(p.host, o);
      WithOutputKept(env, p.host, o);
      KeptReady(env, p.host, h1);
      CalmBooks(env, p.host, h1, base);
      SendAsyncGas(env, h1, AsyncInfoOf(p.host), base);
    }
  }

  lemma NoCodeToGet(env: Env, o: VMOutput, a: Address)
    requires Sound(env, o) && !HasCode(env, a)
    ensures GetCode(env, o, a).2.Some?
  {
    if a in o.accounts {
      assert AccountSound(env, a, o.accounts[a]);
    }
  }
}
