/** What every action costs the contract that performs it, and what a call costs its caller. */
module GasCosts {
  import opened Overflow
  import opened Wrappers
  import opened Types
  import opened OutputModel
  import opened HostModel
  import opened OutputGrowth
  import opened StorageCache
  import opened Frames
  import opened GasConservation
  import opened Transactions
  import opened Effects
  import opened TransactionEffects

  // ---------------------------------------------------------------- calls

  /** Gas given to a contract is at most the largest int64, and so are its points. */
  ghost predicate Metered(h: Host) {
    && h.metering.state.initialCost + h.metering.state.gasForExecution <= MAX_I64
    && PointsUsed(h.runtime) <= MAX_I64
  }

  /** A call that is refused before its callee starts costs nothing. */
  ghost predicate Refused(entry: BodyResult, input: CallInput) {
    entry.err.Some? || (input.callFunction.Init? && !input.allowInit)
  }

  /** The points of the caller's instance while a callee runs, and the most gas the callee can leave. */
  ghost predicate Running(h: Host, f: Host, charge: uint64, gas: uint64) {
    Charged(h, f, charge) && f.metering.state.gasForExecution <= gas
  }

  lemma PreparePoints(env: Env, h: Host, t: Host, own: bool, input: CallInput, start: Start)
    requires Ready(env, h) && Inside(env, h, t, own) && PointsUsed(h.runtime) + input.vmInput.gasProvided <= MAX_I64
    requires t.runtime.instances == h.runtime.instances && t.runtime.instance == h.runtime.instance
    requires t.runtime.state.callFunction == input.callFunction
    requires t.runtime.state.vmInput.gasProvided == input.vmInput.gasProvided
    requires t.metering.state == GasTriple(input.vmInput.gasProvided, 0, input.vmInput.gasProvided)
    ensures var p := Prepare(env, t, input, start);
      && Running(h, p.host, ChargeOf(input), input.vmInput.gasProvided)
      && (p.err.None? ==>
            && PointsUsed(p.host.runtime) == 0
            && p.host.metering.state.initialCost + p.host.metering.state.gasForExecution == input.vmInput.gasProvided
            && p.host.metering.state.initialGasProvided == input.vmInput.gasProvided)
  {
    hide LoadAndStart, Grows, LiveCount;
    if !(t.runtime.state.callFunction.Init? && !input.allowInit) {
      var g := UseGasOn(t, input.vmInput.gasProvided);
      InsideIsSound(env, h, t, own);
      LoadAndStartGas(env, g, start);
      StartedGas(env, g, start);
    }
  }

  lemma InsideIsSound(env: Env, h: Host, f: Host, own: bool)
    requires Inside(env, h, f, own)
    ensures Sound(env, f.output.state)
  {
  }

  lemma StartedGas(env: Env, f: Host, start: Start)
    requires f.metering.state == GasTriple(f.runtime.state.vmInput.gasProvided, 0, f.runtime.state.vmInput.gasProvided)
    ensures LoadAndStart(env, f, start).host.metering.state.gasForExecution <= f.runtime.state.vmInput.gasProvided
  {
    hide GetCode, InitialCost, StartInstance;
  }

  /** Running the callee leaves the caller charged as before. */
  lemma CalleePoints(env: Env, h: Host, t: Host, own: bool, input: CallInput, start: Start, body: Script)
    requires Ready(env, h) && Inside(env, h, t, own) && PointsUsed(h.runtime) + input.vmInput.gasProvided <= MAX_I64
    requires t.runtime.instances == h.runtime.instances && t.runtime.instance == h.runtime.instance
    requires t.runtime.state.callFunction == input.callFunction
    requires t.runtime.state.vmInput.gasProvided == input.vmInput.gasProvided
    requires t.metering.state == GasTriple(input.vmInput.gasProvided, 0, input.vmInput.gasProvided)
    ensures var r := ExecuteCall(env, t, input, start, body);
      && Running(h, r.host, ChargeOf(input), input.vmInput.gasProvided)
      && (r.err.None? ==> ChargeOf(input) == input.vmInput.gasProvided)
  {
    hide Prepare, Inside, Kept, Ready, RunBody, PointsUsed, CallerPoints, LiveCount;
    PreparePoints(env, h, t, own, input, start);
    PrepareInside(env, h, t, own, input, start);
    CallerInstance(env, h);
    var p := Prepare(env, t, input, start);
    if p.err.None? && !start.FunctionMissing? {
      BodyKept(env, p.host, body);
      CallerInstance(env, p.host);
      CalleeKept(env, h, p.host, RunBody(env, p.host, body).host);
    }
    if p.err.None? {
      NotRefused(env, t, input, start);
    }
  }

  lemma NotRefused(env: Env, t: Host, input: CallInput, start: Start)
    requires Prepare(env, t, input, start).err.None? && t.runtime.state.callFunction == input.callFunction
    ensures ChargeOf(input) == input.vmInput.gasProvided
  {
    hide LoadAndStart;
  }

  lemma RemainingGas(f: Host, gas: uint64)
    requires f.metering.state.gasForExecution <= gas && f.output.state.returnCode.Ok?
    ensures var (k, out) := GetVMOutput(f);
      && k.runtime == f.runtime && out.gasRemaining <= gas && (!out.returnCode.Ok? ==> out.gasRemaining == 0)
  {
    hide CurrentTotalUsedGas, WithoutCode, GasUsedByContract;
  }

  /** Every destination call, whatever its callee does: its caller pays for all gas it gives, and
      gets back what the callee's output says remains. */
  lemma DestPoints(env: Env, h: Host, input: CallInput, start: Start, body: Script)
    requires Ready(env, h) && Unlocked(input) == input
    requires PointsUsed(h.runtime) + input.vmInput.gasProvided <= MAX_I64
    ensures var r := ExecuteOnDest(env, h, input, start, body);
      var charge := if Refused(DestEntry(env, h, input), input) then 0 else input.vmInput.gasProvided;
      && r.output.gasRemaining <= charge
      && PointsUsed(r.host.runtime) == PointsUsed(h.runtime) + charge - r.output.gasRemaining
      && (r.err.Some? ==> r.output.gasRemaining == 0)
  {
    hide Inside, ExecuteCall, Ready, LeaveDest, GetVMOutput, PointsUsed, DestEntry;
    var t := DestEntry(env, h, input);
    var f := DestFrame(env, h, input, start, body);
    DestEntryInside(env, h, input);
    DestEntryFields(env, h, input);
    if t.err.None? {
      CalleePoints(env, h, t.host, true, input, start, body);
    }
    DestFrameInside(env, h, input, start, body);
    if f.err.None? {
      EndsOk(env, t.host, input, start, body);
      RemainingGas(f.host, input.vmInput.gasProvided);
    }
    OutputInsideToo(env, h, f.host, true);
    var (k, out) := CalleeOutput(f.host, f.err);
    LeaveDestPoints(env, h, k, out);
  }

  lemma DestEntryFields(env: Env, h: Host, input: CallInput)
    requires Ready(env, h) && Unlocked(input) == input
    ensures var t := DestEntry(env, h, input).host;
      && t.runtime.instances == h.runtime.instances && t.runtime.instance == h.runtime.instance
      && t.runtime.state.callFunction == input.callFunction
      && t.runtime.state.vmInput == input.vmInput && t.runtime.state.scAddress == input.recipient
      && t.metering.state == GasTriple(input.vmInput.gasProvided, 0, input.vmInput.gasProvided)
      && Charged(h, t, 0)
  {
    hide TransferValueOnly, CurrentTotalUsedGas, Snapshot;
  }

  /** A callback starts with the locked gas on top of what it was given, any other call without. */
  lemma EntersUnlocked(env: Env, h: Host, input: CallInput)
    ensures var v := input.vmInput;
      var gas := if v.callType.AsynchronousCallBack? then AddUint64(v.gasProvided, v.gasLocked) else v.gasProvided;
      && DestEntry(env, h, input).host.metering.state == GasTriple(gas, 0, gas)
      && Unlocked(input) == input.(vmInput := v.(gasProvided := gas, gasLocked :=
                                     if v.callType.AsynchronousCallBack? then 0 else v.gasLocked))
  {
    hide TransferValueOnly, CurrentTotalUsedGas, Snapshot;
  }

  lemma OutputInsideToo(env: Env, h: Host, f: Host, own: bool)
    requires Inside(env, h, f, own)
    ensures Inside(env, h, GetVMOutput(f).0, own)
  {
    hide GetVMOutput, FrameInstances, Extends, TotalDelta;
    GetVMOutputGrows(env, f);
    OutputInside(env, h, f, own, GetVMOutput(f).0.output.state);
  }

  lemma LeaveDestPoints(env: Env, h: Host, f: Host, out: VMOutput)
    requires Ready(env, h) && Inside(env, h, f, true) && out.gasRemaining <= CallerPoints(h, f) <= MAX_I64
    ensures PointsUsed(LeaveDest(f, out).runtime) == CallerPoints(h, f) - out.gasRemaining
  {
    hide Grows, PopMerge, LiveCount;
    PopRuntimeInside(h.runtime, f.runtime);
  }

  /** The same for a call in the caller's context; one that fails gets nothing back. */
  lemma SamePoints(env: Env, h: Host, input: CallInput, start: Start, body: Script)
    requires Ready(env, h) && Unlocked(input) == input
    requires PointsUsed(h.runtime) + input.vmInput.gasProvided <= MAX_I64
    ensures var r := ExecuteOnSame(env, h, input, start, body);
      var f := SameFrame(env, h, input, start, body);
      var charge := if Refused(SameEntry(env, h, input), input) then 0 else input.vmInput.gasProvided;
      var remaining := if f.err.None? then GetVMOutput(f.host).1.gasRemaining else 0;
      && r.1 == f.err && remaining <= charge
      && PointsUsed(r.0.runtime) == PointsUsed(h.runtime) + charge - remaining
  {
    hide Inside, ExecuteCall, Ready, KeepSame, UndoSame, GetVMOutput, PointsUsed, SameEntry;
    var t := SameEntry(env, h, input);
    var f := SameFrame(env, h, input, start, body);
    SameEntryInside(env, h, input);
    SameEntryFields(env, h, input);
    if t.err.None? {
      CalleePoints(env, h, t.host, false, input, start, body);
    }
    SameFrameInside(env, h, input, start, body);
    LeaveSamePoints(env, h, f.host, NEW_OUTPUT);
    if f.err.None? {
      EndsOk(env, t.host, input, start, body);
      RemainingGas(f.host, input.vmInput.gasProvided);
      OutputInsideToo(env, h, f.host, false);
      LeaveSamePoints(env, h, GetVMOutput(f.host).0, GetVMOutput(f.host).1);
    }
  }

  lemma SameEntryFields(env: Env, h: Host, input: CallInput)
    requires Ready(env, h) && Unlocked(input) == input
    ensures var t := SameEntry(env, h, input).host;
      && t.runtime.instances == h.runtime.instances && t.runtime.instance == h.runtime.instance
      && t.runtime.state.callFunction == input.callFunction
      && t.runtime.state.vmInput == input.vmInput && t.runtime.state.scAddress == input.recipient
      && t.metering.state == GasTriple(input.vmInput.gasProvided, 0, input.vmInput.gasProvided)
      && Charged(h, t, 0)
  {
    hide TransferValueOnly, Snapshot;
  }

  lemma LeaveSamePoints(env: Env, h: Host, f: Host, out: VMOutput)
    requires Ready(env, h) && Inside(env, h, f, false) && out.gasRemaining <= CallerPoints(h, f) <= MAX_I64
    ensures PointsUsed(KeepSame(f, out).runtime) == CallerPoints(h, f) - out.gasRemaining
    ensures PointsUsed(UndoSame(f).runtime) == CallerPoints(h, f)
  {
    hide Grows, LiveCount;
    PopRuntimeInside(h.runtime, f.runtime);
  }

  // ---------------------------------------------------------------- scripts

  /** The price of an action that makes no call. */
  function LocalCost(env: Env, h: Host, a: Action): nat {
    match a
    case UseGas(gas) => gas
    case SetStorage(key, value) => CostOf(env, BytesOfWrite(env, h, Write(h.storage.address, key, value)))
    case GetStorage(key) =>
      Price(env.gas.dataCopyPerByte, LongKey(key) + Len(Cell(env, h.output.state, h.storage.address, key)))
    case GetStorageFromAddress(b, key) =>
      var readable := b == h.storage.address || (b in env.accounts && env.accounts[b].readable);
      Price(env.gas.dataCopyPerByte, LongKey(key) + if readable then Len(Cell(env, h.output.state, b, key)) else 0)
    case _ => 0
  }

  /** Each action in turn; a call costs what it was given, less what is left of it. */
  ghost function CostOfBody(env: Env, h: Host, s: Script): int
    decreases s
  {
    if s.Done? || s.first.Async? then 0
    else if s.first.CallDest? then
      var c := s.first.call;
      var input := CallInputOf(h, c);
      var r := ExecuteOnDest(env, h, input, c.start, c.body);
      (if Refused(DestEntry(env, h, input), input) then 0 else input.vmInput.gasProvided - r.output.gasRemaining)
      + CostOfBody(env, r.host, s.rest)
    else if s.first.CallSame? then
      var c := s.first.call;
      var input := CallInputOf(h, c);
      var f := SameFrame(env, h, input, c.start, c.body);
      (if Refused(SameEntry(env, h, input), input) then 0
       else input.vmInput.gasProvided - if f.err.None? then GetVMOutput(f.host).1.gasRemaining else 0)
      + CostOfBody(env, ExecuteOnSame(env, h, input, c.start, c.body).0, s.rest)
    else
      var r := LocalAction(env, h, s.first);
      LocalCost(env, h, s.first) + if r.err.Some? then 0 else CostOfBody(env, r.host, s.rest)
  }

  /** The script makes no asynchronous call itself. */
  predicate NoAsync(s: Script) {
    s.Done? || (!s.first.Async? && NoAsync(s.rest))
  }

  lemma LocalUses(env: Env, h: Host, a: Action)
    requires Ready(env, h) && PointsUsed(h.runtime) <= MAX_I64
    requires !a.CallDest? && !a.CallSame? && !a.Async?
    ensures var r := LocalAction(env, h, a);
      r.err.None? ==> Used(h, r.host, LocalCost(env, h, a)) && PointsUsed(r.host.runtime) <= MAX_I64
  {
    hide Ready, TransferOut, WriteStorage, ReadStorage, ReadStorageFromAddress, UseGasOn, BytesOfWrite, CostOf, Price,
      PointsUsed, Cell, LongKey;
    CallerInstance(env, h);
    SoundWhenReady(env, h);
    match a
    case UseGas(gas) => UseGasAdds(h, gas);
    case SetStorage(key, value) =>
      PerformCharges(env, h, Write(h.storage.address, key, value));
      assert OnAddress(h, h.storage.address) == h;
    case GetStorage(key) =>
      ReadCharges(env, h, key);
      ReadStorageRefines(env, h, key);
    case GetStorageFromAddress(b, key) =>
      ReadFromAddressCharges(env, h, b, key);
      ReadStorageFromAddressRefines(env, h, b, key);
    case _ => NothingUsed(h, h);
  }

  /** What a script uses, whatever calls it makes, is the sum of what its actions cost. */
  lemma {:induction false} BodyUses(env: Env, h: Host, s: Script)
    requires Ready(env, h) && Metered(h) && NoAsync(s)
    ensures var r := RunBody(env, h, s);
      r.err.None? ==>
        && CostOfBody(env, h, s) >= 0 && PointsUsed(r.host.runtime) <= MAX_I64
        && Used(h, r.host, CostOfBody(env, h, s))
    decreases s, 0
  {
    hide Ready, Kept, ExecuteOnDest, ExecuteOnSame, LocalAction, CallInputOf, LocalCost, PointsUsed, DestEntry,
      SameEntry, SameFrame, GetVMOutput, RolledBack;
    CallerInstance(env, h);
    if s.Then? {
      if s.first.CallDest? {
        var c := s.first.call;
        InputWithin(h, c);
        DestPoints(env, h, CallInputOf(h, c), c.start, c.body);
        DestCallKept(env, h, CallInputOf(h, c), c.start, c.body);
        RestUses(env, h, ExecuteOnDest(env, h, CallInputOf(h, c), c.start, c.body).host, s.rest);
      } else if s.first.CallSame? {
        var c := s.first.call;
        InputWithin(h, c);
        SamePoints(env, h, CallInputOf(h, c), c.start, c.body);
        SameCallKept(env, h, CallInputOf(h, c), c.start, c.body);
        RestUses(env, h, ExecuteOnSame(env, h, CallInputOf(h, c), c.start, c.body).0, s.rest);
      } else {
        LocalUses(env, h, s.first);
        LocalActionKept(env, h, s.first);
        var r := LocalAction(env, h, s.first);
        if r.err.None? {
          RestUses(env, h, r.host, s.rest);
        }
      }
    }
  }

  lemma {:induction false} RestUses(env: Env, h: Host, k: Host, rest: Script)
    requires Ready(env, h) && Metered(h) && Kept(env, h, k) && PointsUsed(k.runtime) <= MAX_I64 && NoAsync(rest)
    ensures var r := RunBody(env, k, rest);
      r.err.None? ==>
        && CostOfBody(env, k, rest) >= 0 && PointsUsed(r.host.runtime) <= MAX_I64
        && Used(k, r.host, CostOfBody(env, k, rest))
    decreases rest, 1
  {
    hide Ready, LiveCount, PointsUsed, RunBody, CostOfBody;
    KeptReady(env, h, k);
    BodyUses(env, k, rest);
  }

  /** A call is given what its caller asks for, or all that is left. */
  lemma InputWithin(h: Host, c: Call)
    requires Metered(h)
    ensures var g := CallInputOf(h, c).vmInput.gasProvided;
      && PointsUsed(h.runtime) + g <= MAX_I64 && Unlocked(CallInputOf(h, c)) == CallInputOf(h, c)
      && g <= c.gasLimit && g <= GasLeft(h) && (g == c.gasLimit || g == GasLeft(h))
  {
  }

  // ---------------------------------------------------------------- callees

  /** What it costs to load a contract: looking up its code and compiling every byte of it. */
  function LoadCost(env: Env, a: Address): nat {
    env.gas.getCode + if HasCode(env, a) then Price(env.gas.aotPreparePerByte, Len(env.accounts[a].code)) else 0
  }

  lemma InitialCostIsLoadCost(env: Env, o: VMOutput, a: Address)
    requires Sound(env, o) && HasCode(env, a)
    ensures var (p, code, err) := GetCode(env, o, a);
      && err.None? && code == env.accounts[a].code
      && InitialCost(env, code) == if LoadCost(env, a) > MAX_U64 then MAX_U64 else LoadCost(env, a)
  {
    hide MulUint64, Price;
    if a in o.accounts {
      assert AccountSound(env, a, o.accounts[a]);
    }
    PriceSaturates(env.gas.aotPreparePerByte, Len(env.accounts[a].code));
  }

  lemma PriceSaturates(perByte: uint64, bytes: uint64)
    ensures MulUint64(bytes, perByte) == if Price(perByte, bytes) > MAX_U64 then MAX_U64 else Price(perByte, bytes)
  {
  }

  lemma StartedCost(env: Env, f: Host, start: Start)
    requires Sound(env, f.output.state) && f.runtime.state.vmInput.gasProvided <= MAX_I64
    requires LoadAndStart(env, f, start).err.None?
    ensures var a := f.runtime.state.scAddress;
      HasCode(env, a) && LoadAndStart(env, f, start).host.metering.state.initialCost == LoadCost(env, a)
  {
    hide GetCode, InitialCost, StartInstance, LoadCost, Sound;
    var a := f.runtime.state.scAddress;
    CodeToGet(env, f.output.state, a);
    if HasCode(env, a) {
      InitialCostIsLoadCost(env, f.output.state, a);
    }
  }

  lemma PreparedCost(env: Env, h: Host, t: Host, own: bool, input: CallInput, start: Start)
    requires Inside(env, h, t, own) && t.runtime.state.vmInput.gasProvided <= MAX_I64
    requires Prepare(env, t, input, start).err.None?
    ensures var a := t.runtime.state.scAddress;
      HasCode(env, a) && Prepare(env, t, input, start).host.metering.state.initialCost == LoadCost(env, a)
  {
    hide LoadAndStart, Inside, Sound, LoadCost, HasCode;
    InsideIsSound(env, h, t, own);
    StartedCost(env, UseGasOn(t, input.vmInput.gasProvided), start);
  }

  ghost function FrameCost(env: Env, t: Host, input: CallInput, start: Start, body: Script): int {
    if start.FunctionMissing? then 0 else CostOfBody(env, Prepare(env, t, input, start).host, body)
  }

  /** A callee that ends without error has left what it was given, less what it cost to load it and
      what its script cost. */
  lemma FrameLeaves(env: Env, h: Host, t: Host, own: bool, input: CallInput, start: Start, body: Script)
    requires Ready(env, h) && Inside(env, h, t, own) && PointsUsed(h.runtime) + input.vmInput.gasProvided <= MAX_I64
    requires t.runtime.instances == h.runtime.instances && t.runtime.instance == h.runtime.instance
    requires t.runtime.state.callFunction == input.callFunction
    requires t.runtime.state.vmInput.gasProvided == input.vmInput.gasProvided
    requires t.metering.state == GasTriple(input.vmInput.gasProvided, 0, input.vmInput.gasProvided)
    requires NoAsync(body)
    ensures var r := ExecuteCall(env, t, input, start, body);
      var cost := FrameCost(env, t, input, start, body);
      r.err.None? ==>
        && cost >= 0
        && input.vmInput.gasProvided == LoadCost(env, t.runtime.state.scAddress) + Counted(cost) + GasLeft(r.host)
  {
    hide Prepare, Inside, Kept, Ready, RunBody, LiveCount, CostOfBody, LoadCost, HasCode;
    var r := ExecuteCall(env, t, input, start, body);
    if r.err.None? {
      PreparePoints(env, h, t, own, input, start);
      PrepareInside(env, h, t, own, input, start);
      PreparedCost(env, h, t, own, input, start);
      var p := Prepare(env, t, input, start).host;
      if !start.FunctionMissing? {
        BodyUses(env, p, body);
        BodyKept(env, p, body);
        GasKept(env, p, RunBody(env, p, body).host);
      }
    }
  }

  lemma GasKept(env: Env, h: Host, k: Host)
    requires Kept(env, h, k)
    ensures k.metering.state == h.metering.state
  {
  }

  /** What the output says remains: the gas left, less what was forwarded beyond what was spent. */
  lemma OutputLeaves(f: Host)
    requires f.output.state.returnCode.Ok?
    ensures var out := GetVMOutput(f).1;
      out.returnCode.Ok? ==>
        out.gasRemaining == SubUint64(GasLeft(f), GasUsedByContract(f).1).0
  {
    hide CurrentTotalUsedGas, WithoutCode, GasUsedByContract, GasLeft;
  }

  /** The price of a successful destination call, by what its callee does: loading the contract and
      running its script. */
  lemma DestCallCosts(env: Env, h: Host, c: Call)
    requires Ready(env, h) && Metered(h) && NoAsync(c.body)
    ensures var input := CallInputOf(h, c);
      var r := ExecuteOnDest(env, h, input, c.start, c.body);
      var f := DestFrame(env, h, input, c.start, c.body);
      var cost := FrameCost(env, DestEntry(env, h, input).host, input, c.start, c.body);
      r.err.None? ==>
        && cost >= 0
        && input.vmInput.gasProvided == LoadCost(env, c.recipient) + Counted(cost) + GasLeft(f.host)
        && r.output.gasRemaining == SubUint64(GasLeft(f.host), GasUsedByContract(f.host).1).0
  {
    hide Ready, Inside, ExecuteCall, GetVMOutput, LeaveDest, DestEntry, FrameCost, LoadCost, GasLeft, GasUsedByContract,
      PointsUsed;
    var input := CallInputOf(h, c);
    InputWithin(h, c);
    DestEntryInside(env, h, input);
    DestEntryFields(env, h, input);
    var t := DestEntry(env, h, input);
    if ExecuteOnDest(env, h, input, c.start, c.body).err.None? {
      FrameLeaves(env, h, t.host, true, input, c.start, c.body);
      EndsOk(env, t.host, input, c.start, c.body);
      OutputLeaves(DestFrame(env, h, input, c.start, c.body).host);
    }
  }

  /** The same for a transaction: what it was given is the price of loading its contract, the cost of its
      script, and the gas left, which its output reports less what was forwarded beyond what was spent. */
  lemma TransactionCosts(env: Env, h: Host, input: CallInput, start: Start, body: Script)
    requires Quiescent(h) && input.vmInput.callValue >= 0 && input.vmInput.callType.DirectCall?
    requires input.vmInput.gasProvided <= MAX_I64 && NoAsync(body)
    ensures var p := RootStarted(env, h, input, start);
      var f := RunBody(env, p, body).host;
      var r := RunSmartContractCall(env, h, input, start, body);
      r.output.returnCode.Ok? ==>
        && CostOfBody(env, p, body) >= 0
        && input.vmInput.gasProvided == LoadCost(env, input.recipient) + Counted(CostOfBody(env, p, body)) + GasLeft(f)
        && r.output.gasRemaining == SubUint64(GasLeft(f), GasUsedByContract(f).1).0
  {
    hide Ready, EnterRoot, LoadAndStart, RunBody, GetVMOutput, Kept, LoadCost, CostOfBody, Sound, GasUsedByContract;
    EnterRootWithin(env, h, input);
    var h1 := EnterRoot(h, input);
    RootStarts(env, h, input, h1, start);
    RootEntered(env, h, input);
    var p := LoadAndStart(env, h1, start);
    if p.err.None? {
      StartedCost(env, h1, start);
      LoadAndStartGas(env, h1, start);
      BodyUses(env, p.host, body);
      BodyKept(env, p.host, body);
      GasKept(env, p.host, RunBody(env, p.host, body).host);
      BodyEndsOk(env, p.host, body);
      if RunBody(env, p.host, body).err.None? {
        OutputLeaves(RunBody(env, p.host, body).host);
      }
    }
  }

  lemma RootEntered(env: Env, h: Host, input: CallInput)
    requires input.vmInput.callType.DirectCall?
    ensures var h1 := EnterRoot(h, input);
      && h1.runtime.state.vmInput == input.vmInput && h1.runtime.state.scAddress == input.recipient
      && h1.metering.state == GasTriple(input.vmInput.gasProvided, 0, input.vmInput.gasProvided)
      && h1.output.state.returnCode.Ok?
    ensures Within(env, h, input, EnterRoot(h, input)) ==> Sound(env, EnterRoot(h, input).output.state)
  {
  }
}
