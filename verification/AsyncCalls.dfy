/** How an asynchronous call splits the gas of the contract that makes it. */
module AsyncCalls {
  import opened Overflow
  import opened Wrappers
  import opened Types
  import opened OutputModel
  import opened HostModel
  import opened OutputGrowth
  import opened Frames
  import opened GasLedger
  import opened GasConservation
  import opened Transactions
  import opened StorageCache
  import opened GasCosts

  /** The price of a callback: compiling the code loaded last again, and the least it takes to run. */
  function LockPrice(env: Env, h: Host): nat {
    Price(env.gas.aotPreparePerByte, h.runtime.codeSize) + env.gas.asyncCallStep + env.gas.asyncCallbackGasLock
  }

  lemma LockIsPriced(env: Env, h: Host)
    ensures GasLockedForAsync(env, h) == if LockPrice(env, h) > MAX_U64 then MAX_U64 else LockPrice(env, h)
  {
    hide MulUint64, Price;
    PriceSaturates(env.gas.aotPreparePerByte, h.runtime.codeSize);
  }

  /** A successful ExecuteAsyncCall splits the gas left exactly into the step cost, the gas locked
      for the callback and a positive limit for the call; it fails exactly when nothing would be
      left for the call. */
  lemma AsyncGasSplit(env: Env, h: Host, dest: Address, data: Bytes, value: int)
    requires h.runtime.instance.Some? && h.runtime.instance.value < |h.runtime.instances|
    requires h.metering.state.gasForExecution <= MAX_I64
    ensures var p := PrepareAsync(env, h, dest, data, value);
      var lock := if h.runtime.state.scAddress in env.withCallback then LockPrice(env, h) else 0;
      && (p.err.Some? <==> GasLeft(h) <= env.gas.asyncCallStep + lock)
      && (p.err.None? ==>
            && AsyncInfoOf(p.host) == AsyncCallInfo(dest, data, GasLeft(p.host), lock, value)
            && GasLeft(h) == env.gas.asyncCallStep + lock + GasLeft(p.host) && GasLeft(p.host) > 0
            && PointsUsed(p.host.runtime) == PointsUsed(h.runtime) + env.gas.asyncCallStep + lock)
  {
    hide GasLockedForAsync, LockPrice;
    LockIsPriced(env, h);
    LockIsPriced(env, UseGasOn(h, env.gas.asyncCallStep));
    SameCode(env, h, env.gas.asyncCallStep);
  }

  lemma SameCode(env: Env, h: Host, gas: uint64)
    ensures LockPrice(env, UseGasOn(h, gas)) == LockPrice(env, h)
  {
  }

  function LastTransfer(o: VMOutput, a: Address): Option<OutputTransfer> {
    if a in o.accounts && o.accounts[a].transfers != []
    then Some(o.accounts[a].transfers[|o.accounts[a].transfers| - 1]) else None
  }

  /** When the call then leaves the shard, the gas its contract used itself, the gas it had forwarded
      before, and the limit and the locked gas on the transfer are all the gas it was provided, and
      none is left. */
  lemma AsyncCallSpendsAll(env: Env, h: Host, c: AsyncCall, base: int)
    requires Ready(env, h) && Books(env, h, base) && !HasCode(env, c.destination)
    ensures var r := RunAsync(env, h, c); r.err.None? ==> SpentOn(h, r.host, c)
  {
    hide TotalGas, TotalDelta, PrepareAsync, GetCode, SendAsync, GasUsedByContract, Ready, Books, Kept, ForwardedBy,
      GasLeft, AsyncInfoOf;
    PrepareAsyncGas(env, h, c.destination, c.data, c.value, base);
    PrepareAsyncKept(env, h, c.destination, c.data, c.value);
    AsyncGas(env, h, c, base);
    var p := PrepareAsync(env, h, c.destination, c.data, c.value);
    if p.err.None? && c.parsed.Some? {
      var o := GetCode(env, p.host.output.state, c.destination).0;
      ReadyAfter(env, h, p.host);
      SoundWhenReady(env, p.host);
      NoCodeToGet(env, p.host.output.state, c.destination);
      SameForwarded(h, p.host, o);
      RoomForLock(env, h, p.host, base);
      SentSpendsAll(env, p.host, o, AsyncInfoOf(p.host), base);
    }
  }

  lemma RoomForLock(env: Env, h: Host, k: Host, base: int)
    requires Books(env, h, base) && k.metering == h.metering
    requires k.runtime.state.scAddress == h.runtime.state.scAddress
    requires PointsUsed(k.runtime) >= PointsUsed(h.runtime) + AsyncInfoOf(k).gasLocked
    ensures ForwardedBy(k) + AsyncInfoOf(k).gasLocked <= PointsUsed(k.runtime)
  {
    hide AsyncInfoOf, TotalGas, PointsUsed;
  }

  lemma SameForwarded(h: Host, k: Host, o: VMOutput)
    ensures ForwardedBy(WithOutput(k, o)) == ForwardedBy(k)
    ensures k.metering == h.metering && k.runtime.state.scAddress == h.runtime.state.scAddress ==>
              ForwardedBy(k) == ForwardedBy(h)
  {
  }

  function ForwardedBy(h: Host): uint64 {
    TotalForwarded(h.metering, h.runtime.state.scAddress)
  }

  /** In k, the contract of h has spent all its gas on a call that was sent away. */
  ghost predicate SpentOn(h: Host, k: Host, c: AsyncCall) {
    var t := LastTransfer(k.output.state, c.destination);
    && t.Some? && t.value.callType.AsynchronousCall? && t.value.value == c.value && t.value.data == c.data
    && t.value.sender == h.runtime.state.scAddress
    && GasUsedByContract(k).0 + ForwardedBy(h) + t.value.gasLimit + t.value.gasLocked
       == h.metering.state.initialGasProvided
    && t.value.gasLimit > 0 && GasLeft(k) == 0
  }

  lemma SentSpendsAll(env: Env, h: Host, o: VMOutput, info: AsyncCallInfo, base: int)
    requires Ready(env, h) && Books(env, h, base) && !HasCode(env, info.destination)
    requires info.gasLimit == GasLeft(h) > 0 && ForwardedBy(h) + info.gasLocked <= PointsUsed(h.runtime)
    ensures var r := SendAsync(env, WithOutput(h, o), info);
      r.err.None? ==>
        && LastTransfer(r.host.output.state, info.destination)
           == Some(OutputTransfer(info.value, info.gasLimit, info.gasLocked, info.data, AsynchronousCall,
                                  h.runtime.state.scAddress))
        && GasUsedByContract(r.host).0 + ForwardedBy(h) + info.gasLimit + info.gasLocked
           == h.metering.state.initialGasProvided
  {
    hide TransferOut, GasUsedByContract, ForwardGas, UseGasOn, ForwardedBy, LastTransfer, TotalGas, Sound, LiveCount;
    var a := h.runtime.state.scAddress;
    var async := h.runtime.state.vmInput.callType.AsynchronousCall?;
    TransferIsLast(env, o, async, info.destination, a, info.gasLimit, info.gasLocked, info.value, info.data);
    var p := TransferOut(env, o, async, info.destination, a, info.gasLimit, info.gasLocked,
                         info.value, info.data, AsynchronousCall).0;
    SameForwarded(h, h, p);
    ForwardedAll(WithOutput(h, p), info);
  }

  lemma TransferIsLast(
    env: Env, o: VMOutput, isAsyncCall: bool, dest: Address, sender: Address, gasLimit: uint64, gasLocked: uint64,
    value: int, data: Bytes)
    ensures var (p, err) := TransferOut(env, o, isAsyncCall, dest, sender, gasLimit, gasLocked, value, data,
                                        AsynchronousCall);
      err.None? ==>
        LastTransfer(p, dest) == Some(OutputTransfer(value, gasLimit, gasLocked, data, AsynchronousCall, sender))
  {
    hide TransferValueOnly;
  }

  /** All gas left and the gas locked is forwarded; what the contract had forwarded before is not counted as used. */
  lemma ForwardedAll(h: Host, info: AsyncCallInfo)
    requires h.runtime.instance.Some? && h.runtime.instance.value < |h.runtime.instances|
    requires info.gasLimit == GasLeft(h) > 0
    requires GasStateOf(h.metering, h.runtime.state.scAddress).returned == 0
    requires ForwardedBy(h) + info.gasLocked <= PointsUsed(h.runtime)
    requires !OnTheStack(h.runtime, info.destination) && info.destination != h.runtime.state.scAddress
    requires h.metering.state.initialCost + h.metering.state.gasForExecution
             == h.metering.state.initialGasProvided <= MAX_I64
    ensures var k := UseGasOn(ForwardGas(h, h.runtime.state.scAddress, info.destination,
                                         (GasLeft(h) + info.gasLocked) % TWO_64), GasLeft(h));
      && k.output == h.output
      && GasUsedByContract(k).0 + ForwardedBy(h) + info.gasLimit + info.gasLocked
         == h.metering.state.initialGasProvided
  {
    hide UseGasOn, PointsUsed, ForwardGas;
    var k := ForwardGas(h, h.runtime.state.scAddress, info.destination, (GasLeft(h) + info.gasLocked) % TWO_64);
    ForwardedGrows(h, info.destination, (GasLeft(h) + info.gasLocked) % TWO_64);
    UseGasCalm(k, GasLeft(h));
    var g := UseGasOn(k, GasLeft(h));
    OnlyPointsUsed(k, GasLeft(h));
    assert PointsUsed(g.runtime) == h.metering.state.gasForExecution;
  }

  lemma OnlyPointsUsed(h: Host, gas: uint64)
    ensures var k := UseGasOn(h, gas);
      k.output == h.output && k.metering == h.metering && k.runtime.state == h.runtime.state
  {
  }

  lemma ForwardedGrows(h: Host, dest: Address, gas: uint64)
    requires GasStateOf(h.metering, h.runtime.state.scAddress).returned == 0
    requires !OnTheStack(h.runtime, dest) && dest != h.runtime.state.scAddress
    ensures var k := ForwardGas(h, h.runtime.state.scAddress, dest, gas);
      && ForwardedBy(k) == AddUint64(ForwardedBy(h), gas)
      && k == h.(metering := k.metering) && k.metering.state == h.metering.state
  {
  }


  // ---------------------------------------------------------------- a whole transaction

  /** The script makes an asynchronous call; what would come after it is never reached. */
  predicate Sends(s: Script) {
    s.Then? && (s.first.Async? || Sends(s.rest))
  }

  function CallSent(s: Script): AsyncCall
    requires Sends(s)
  {
    if s.first.Async? then s.first.async else CallSent(s.rest)
  }

  ghost function AfterAction(env: Env, h: Host, a: Action): BodyResult
    requires !a.Async?
  {
    if a.CallDest? then
      BodyResult(ExecuteOnDest(env, h, CallInputOf(h, a.call), a.call.start, a.call.body).host, None)
    else if a.CallSame? then
      BodyResult(ExecuteOnSame(env, h, CallInputOf(h, a.call), a.call.start, a.call.body).0, None)
    else LocalAction(env, h, a)
  }

  /** The host in which the asynchronous call is made, if the script gets there. */
  ghost function HostAtSend(env: Env, h: Host, s: Script): Host
    requires Sends(s)
    decreases s
  {
    if s.first.Async? then h else HostAtSend(env, AfterAction(env, h, s.first).host, s.rest)
  }

  ghost predicate Runs(env: Env, h: Host, s: Script, base: int) {
    && Ready(env, h) && Books(env, h, base) && Distinct(s) && LeavesShard(env, s)
    && h.runtime.state.scAddress !in Recipients(s) && Fresh(h, Recipients(s))
  }

  lemma ActionRuns(env: Env, h: Host, a: Action, rest: Script, base: int)
    requires Runs(env, h, Then(a, rest), base) && !a.Async?
    ensures var r := AfterAction(env, h, a);
      r.err.None? ==>
        && Runs(env, r.host, rest, base) && r.host.metering.state == h.metering.state
        && r.host.runtime.state.scAddress == h.runtime.state.scAddress
        && RunBody(env, h, Then(a, rest)) == RunBody(env, r.host, rest)
    ensures var r := AfterAction(env, h, a); r.err.Some? ==> RunBody(env, h, Then(a, rest)) == r
  {
    hide Ready, Books, Kept, LocalAction, ExecuteOnDest, ExecuteOnSame, RolledBack, NoneCleaned, UsedAt, CallInputOf,
      RefusedOnDest, RefusedOnSame, SameFrame, Slack, TotalGas;
    if a.CallDest? {
      var c := a.call;
      TreeOfCall(env, h, a);
      DestCallGas(env, h, c, base);
      DestCallKept(env, h, CallInputOf(h, c), c.start, c.body);
    } else if a.CallSame? {
      var c := a.call;
      TreeOfCall(env, h, a);
      SameCallGas(env, h, c, base);
      SameCallKept(env, h, CallInputOf(h, c), c.start, c.body);
    } else {
      LocalActionGas(env, h, a, base);
      LocalActionKept(env, h, a);
    }
    var r := AfterAction(env, h, a);
    if r.err.None? {
      ReadyAfter(env, h, r.host);
    }
  }

  lemma TreeOfCall(env: Env, h: Host, a: Action)
    requires (a.CallDest? || a.CallSame?) && DistinctAction(a) && LeavesShardAction(env, a)
    requires h.runtime.state.scAddress !in Called(a) && Fresh(h, Called(a))
    ensures TreeReady(env, h, a.call.recipient, a.call.body)
  {
  }

  lemma ReadyAfter(env: Env, h: Host, k: Host)
    requires Ready(env, h) && Kept(env, h, k)
    ensures Ready(env, k) && k.runtime.state.scAddress == h.runtime.state.scAddress
    ensures k.metering.state == h.metering.state
  {
    hide Ready, LiveCount;
    KeptReady(env, h, k);
  }

  /** A script that ends with such a call, whatever calls it makes before. */
  lemma {:induction false} BodySpendsAll(env: Env, h: Host, s: Script, base: int)
    requires Runs(env, h, s, base) && Sends(s)
    ensures var r := RunBody(env, h, s);
      r.err.None? ==>
        var sent := HostAtSend(env, h, s);
        && SpentOn(sent, r.host, CallSent(s))
        && sent.runtime.state.scAddress == h.runtime.state.scAddress && sent.metering.state == h.metering.state
        && Slack(r.host, base) == Slack(sent, base)
        && GasStateOf(sent.metering, h.runtime.state.scAddress).returned == 0
        && GasStateOf(r.host.metering, r.host.runtime.state.scAddress).returned == 0
    decreases s
  {
    hide Ready, Kept, LocalAction, RunAsync, GasUsedByContract, GasLeft, LastTransfer, AfterAction, Slack,
      Distinct, Fresh, Recipients, HasCode, RunBody;
    if s.first.Async? {
      SendsNow(env, h, s);
      AsyncCallSpendsAll(env, h, s.first.async, base);
      AsyncGas(env, h, s.first.async, base);
    } else {
      ActionRuns(env, h, s.first, s.rest, base);
      var r := AfterAction(env, h, s.first);
      if r.err.None? {
        BodySpendsAll(env, r.host, s.rest, base);
      }
    }
  }

  lemma SendsNow(env: Env, h: Host, s: Script)
    requires s.Then? && s.first.Async? && LeavesShard(env, s)
    ensures RunBody(env, h, s) == RunAsync(env, h, s.first.async) && !HasCode(env, s.first.async.destination)
  {
  }

  lemma OutputKeepsTransfers(h: Host, a: Address)
    ensures TransfersAt(GetVMOutput(h).0.output.state.accounts, a) == TransfersAt(h.output.state.accounts, a)
  {
    hide TotalGas;
  }

  /** A direct call from the node to a contract that makes calls and then sends an asynchronous call
      out of the shard: if the output is Ok, it has the contract's own gas, and on the last transfer to
      the destination the limit and the locked gas; with the gas recorded before the call was sent,
      which is what the contract had forwarded, they are all the gas provided, and none remains. */
  lemma TransactionSpendsAll(env: Env, h: Host, input: CallInput, start: Start, body: Script)
    requires Quiescent(h) && input.vmInput.callValue >= 0 && input.vmInput.callType.DirectCall?
    requires input.vmInput.gasProvided <= MAX_I64 && Sends(body)
    requires Distinct(body) && LeavesShard(env, body) && input.recipient !in Recipients(body)
    ensures var r := RunSmartContractCall(env, h, input, start, body);
      var t := LastTransfer(r.output, CallSent(body).destination);
      var sent := HostAtSend(env, RootStarted(env, h, input, start), body);
      r.output.returnCode.Ok? ==>
        && r.output.gasRemaining == 0 && t.Some? && t.value.callType.AsynchronousCall? && t.value.gasLimit > 0
        && ForwardedBy(sent) == Recorded(sent.output.state)
        && UsedAt(r.output, input.recipient) + Recorded(sent.output.state) + t.value.gasLimit + t.value.gasLocked
           == input.vmInput.gasProvided
  {
    hide TotalGas, TotalDelta, LoadAndStart, EnterRoot, RunBody, Books, Ready, GetVMOutput, GasUsedByContract,
      GasLeft, RootUnpaid, Distinct, LeavesShard, Exact, Within, RootBooks, Recorded, HostAtSend, Fresh, Recipients;
    TransactionConservesGas(env, h, input, start, body);
    RootFrameGas(env, h, input, start, body);
    var h1 := EnterRoot(h, input);
    var p := LoadAndStart(env, h1, start);
    var f := RootFrame(env, h, input, start, body);
    if f.err.None? {
      EnterRootGas(env, h, input, start, Recipients(body));
      RootReady(env, h, input, start, body);
      BodySpendsAll(env, p.host, body, 0);
      RootOutput(f.host, input.recipient, CallSent(body).destination);
    }
  }

  lemma RootReady(env: Env, h: Host, input: CallInput, start: Start, body: Script)
    requires Quiescent(h) && input.vmInput.callValue >= 0 && input.vmInput.callType.DirectCall?
    ensures RootFrame(env, h, input, start, body).host.runtime.state.scAddress == input.recipient
    ensures var p := LoadAndStart(env, EnterRoot(h, input), start);
      p.err.None? ==> Ready(env, p.host) && p.host.runtime.state.scAddress == input.recipient
  {
    hide LoadAndStart, EnterRoot, Ready, RootFrame;
    RootFrameWithin(env, h, input, start, body);
    EnterRootWithin(env, h, input);
    RootStarts(env, h, input, EnterRoot(h, input), start);
  }

  /** What the output of a root that passes its check says about gas and transfers. */
  lemma RootOutput(f: Host, me: Address, a: Address)
    requires RootBooks(f) && f.runtime.state.scAddress == me
    ensures var out := GetVMOutput(f).1;
      out.returnCode.Ok? ==>
        && out.gasRemaining == GasLeft(f) && UsedAt(out, me) == GasUsedByContract(f).0
        && LastTransfer(out, a) == LastTransfer(f.output.state, a)
  {
    hide TotalGas, GetVMOutput;
    GetVMOutputLedger(f);
    OutputKeepsTransfers(f, a);
  }
}
