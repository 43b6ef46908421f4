/** Whole transactions: a call from the node, with everything it triggers. */
module Transactions {
  import opened Overflow
  import opened Wrappers
  import opened Types
  import opened OutputModel
  import opened HostModel
  import opened OutputGrowth
  import opened Frames
  import opened GasLedger
  import opened GasConservation

  /** Between transactions no instance is running or live, and no gas baseline is set. */
  ghost predicate Quiescent(h: Host) {
    && h.runtime.instance.None? && h.runtime.instanceStack == []
    && LiveCount(h.runtime.instances) == 0
    && h.metering.totalUsedGas == 0
  }

  ghost predicate StacksEmpty(h: Host) {
    && h.bigInt.stack == [] && h.output.stack == [] && h.runtime.stack == [] && h.runtime.instanceStack == []
    && h.metering.stack == [] && h.storage.stack == []
  }

  /** f is a state of the transaction that started from the quiescent host h. */
  ghost predicate Within(env: Env, h: Host, input: CallInput, f: Host) {
    && StacksEmpty(f)
    && Sound(env, f.output.state) && TotalDelta(f.output.state.accounts) == input.vmInput.callValue
    && f.metering.totalUsedGas == 0
    && FrameInstances(h.runtime, f.runtime) && PeakBounded(env, h.runtime, f.runtime)
    && f.runtime.state.scAddress == input.recipient
  }

  lemma EnterRootWithin(env: Env, h: Host, input: CallInput)
    requires Quiescent(h) && input.vmInput.callValue >= 0
    ensures Within(env, h, input, EnterRoot(h, input))
    ensures EnterRoot(h, input).output.state.returnCode.Ok?
    ensures EnterRoot(h, input).runtime.instances == h.runtime.instances
    ensures EnterRoot(h, input).runtime.instance.None?
  {
    hide TotalDelta, AddDelta;
    NothingDelta();
    AddDeltaSound(env, NEW_OUTPUT, input.recipient, input.vmInput.callValue);
    AddDeltaLedger(NEW_OUTPUT, input.recipient, input.vmInput.callValue);
  }

  lemma NothingDelta()
    ensures TotalDelta(NEW_OUTPUT.accounts) == 0
    ensures Recorded(NEW_OUTPUT) == 0
  {
    assert DeltasOf(NEW_OUTPUT.accounts) == map[];
    assert GasOf(NEW_OUTPUT.accounts) == map[];
  }

  /** The first instance of a transaction is the only live one. */
  lemma FirstInstance(env: Env, r: Runtime, q: Runtime, start: Start)
    requires FrameInstances(r, q) && q.instances == r.instances && q.instance.None?
    requires r.instance.None? && q.instanceStack == [] && LiveCount(r.instances) == 0
    ensures var (s, err) := StartInstance(env, q, start);
      && FrameInstances(r, s) && PeakBounded(env, q, s)
      && s == q.(instances := s.instances, instance := s.instance, peak := s.peak)
      && (err.None? ==> && s.instance == Some(|r.instances|) && LiveCount(s.instances) == 1
                        && |s.instances| == |r.instances| + 1 && s.instances[|r.instances|].cleaned == 0)
  {
    LiveCountOfSuffix(r.instances, r.instances + [Instance(0, 0)], Some(|r.instances|));
  }

  lemma RootStarts(env: Env, h: Host, input: CallInput, f: Host, start: Start)
    requires Quiescent(h) && Within(env, h, input, f)
    requires f.runtime.instances == h.runtime.instances && f.runtime.instance.None?
    ensures var p := LoadAndStart(env, f, start);
      && Within(env, h, input, p.host)
      && (p.err.None? ==> Ready(env, p.host) && p.host.runtime.instance.value >= |h.runtime.instances|)
  {
    hide TotalDelta, GetCode, Sound, Extends, InitialCost, StartInstance, LiveCount;
    GetCodeGrows(env, f.output.state, f.runtime.state.scAddress);
    var (o, code, err) := GetCode(env, f.output.state, f.runtime.state.scAddress);
    if err.None? {
      var h2 := WithOutput(f, o).(runtime := f.runtime.(codeSize := Len(code)));
      var (h3, err3) := DeductInitialGas(env, h2, code);
      FirstInstance(env, h.runtime, h3.runtime, start);
    }
  }

  lemma BodyWithin(env: Env, h: Host, input: CallInput, p: Host, k: Host)
    requires Within(env, h, input, p) && Ready(env, p) && Kept(env, p, k)
    requires p.runtime.instance.value >= |h.runtime.instances|
    ensures Within(env, h, input, k)
  {
    hide TotalDelta;
  }

  lemma SendCallbackKept(env: Env, h: Host)
    requires Ready(env, h)
    ensures Kept(env, h, SendCallback(env, h).host)
  {
    var input := h.runtime.state.vmInput;
    var a := h.runtime.state.scAddress;
    TransferOutGrows(env, h.output.state, input.callType.AsynchronousCall?, input.callerAddr, a, GasLeft(h), 0,
                     input.callValue, AnswerData(h.output.state), AsynchronousCallBack);
    var (o, err) := TransferOut(env, h.output.state, input.callType.AsynchronousCall?, input.callerAddr, a,
                                GasLeft(h), 0, input.callValue, AnswerData(h.output.state), AsynchronousCallBack);
    var h1 := WithOutput(h, o);
    WithOutputKept(env, h, o);
    if err.Some? {
      FaultKept(env, h1, err.value);
      KeptTransitive(env, h, h1, Fault(h1, err.value).host);
    } else {
      var left := GasLeft(h1);
      var h2 := ForwardGas(h1, a, input.callerAddr, left);
      ForwardGasKept(env, h1, a, input.callerAddr, left);
      KeptTransitive(env, h, h1, h2);
      UseGasKept(env, h2, left);
      KeptTransitive(env, h, h2, UseGasOn(h2, left));
    }
  }

  lemma RootFrameWithin(env: Env, h: Host, input: CallInput, start: Start, body: Script)
    requires Quiescent(h) && input.vmInput.callValue >= 0 && !input.vmInput.callType.AsynchronousCallBack?
    ensures Within(env, h, input, RootFrame(env, h, input, start, body).host)
  {
    hide Within, EnterRoot, LoadAndStart, SendCallback, Kept, Ready;
    EnterRootWithin(env, h, input);
    var h1 := EnterRoot(h, input);
    RootStarts(env, h, input, h1, start);
    var p := LoadAndStart(env, h1, start);
    if p.err.None? {
      BodyKept(env, p.host, body);
      var k := RunBody(env, p.host, body).host;
      BodyWithin(env, h, input, p.host, k);
      KeptReady(env, p.host, k);
      SendCallbackKept(env, k);
      KeptTransitive(env, p.host, k, SendCallback(env, k).host);
      BodyWithin(env, h, input, p.host, SendCallback(env, k).host);
    }
  }

  /** Every transaction: all stacks end empty; every instance it started was cleaned exactly once,
      none from before was touched, and never were more live at once than the limit; the balance
      deltas sum to the call value, no account is overdrawn, and cached balances, code and
      protected storage are the node's. */
  lemma TransactionKeepsHost(env: Env, h: Host, input: CallInput, start: Start, body: Script)
    requires Quiescent(h) && input.vmInput.callValue >= 0 && !input.vmInput.callType.AsynchronousCallBack?
    ensures var r := RunSmartContractCall(env, h, input, start, body);
      && Quiescent(r.host) && StacksEmpty(r.host)
      && h.runtime.instances <= r.host.runtime.instances
      && (forall i :: |h.runtime.instances| <= i < |r.host.runtime.instances| ==>
            r.host.runtime.instances[i].cleaned == 1)
      && PeakBounded(env, h.runtime, r.host.runtime)
      && Sound(env, r.host.output.state)
      && TotalDelta(r.host.output.state.accounts) == input.vmInput.callValue
      && (r.output.returnCode.Ok? ==> r.output == r.host.output.state)
  {
    hide TotalDelta, RootFrame, GetVMOutput;
    RootFrameWithin(env, h, input, start, body);
    var f := RootFrame(env, h, input, start, body);
    if f.err.None? {
      GetVMOutputGrows(env, f.host);
    }
    var h1 := CalleeOutput(f.host, f.err).0;
    assert FrameInstances(h.runtime, h1.runtime) && h1.metering == f.host.metering;
    LiveCountOfSuffix(h.runtime.instances, CleanInstance(h1.runtime).instances, None);
  }

  // ---------------------------------------------------------------- gas

  /** The books of a root contract that has finished. */
  ghost predicate RootBooks(h: Host) {
    var a := h.runtime.state.scAddress;
    var forwarded := TotalForwarded(h.metering, a);
    && h.output.state.returnCode.Ok?
    && UsedAt(h.output.state, a) == 0
    && forwarded <= PointsUsed(h.runtime) <= h.metering.state.gasForExecution
    && h.metering.state.initialCost + h.metering.state.gasForExecution
       == h.metering.state.initialGasProvided <= MAX_I64
    && h.metering.totalUsedGas == 0
    && RootSlack(h) >= 0
  }

  /** Gas recorded beyond what the root forwarded. */
  ghost function RootSlack(h: Host): int {
    Recorded(h.output.state) - TotalForwarded(h.metering, h.runtime.state.scAddress)
  }

  /** The root's gas check passes exactly when the gas recorded is the gas forwarded, and then
      what is recorded and what remains add up to what was provided. */
  lemma RootSettles(h: Host)
    requires RootBooks(h)
    ensures var out := GetVMOutput(h).1;
      && (out.returnCode.Ok? <==> RootSlack(h) == 0)
      && (out.returnCode.Ok? ==> TotalGas(out.accounts) + out.gasRemaining == h.metering.state.initialGasProvided)
  {
    hide TotalGas, GetVMOutput;
    GetVMOutputLedger(h);
  }

  /** An answer carries all gas left; sent to the contract itself, it counts as returned too. */
  lemma SendCallbackGas(env: Env, h: Host)
    requires Ready(env, h) && Books(env, h, 0) && h.metering.totalUsedGas == 0 && h.runtime.stack == []
    requires PointsUsed(h.runtime) <= h.metering.state.gasForExecution
    ensures var r := SendCallback(env, h);
      r.err.None? ==>
        && RootBooks(r.host)
        && RootSlack(r.host) == Slack(h, 0)
           + if h.runtime.state.vmInput.callerAddr == h.runtime.state.scAddress then GasLeft(h) else 0
  {
    hide TotalGas, TransferOut, AnswerData, LiveCount, Sound;
    var input := h.runtime.state.vmInput;
    var a := h.runtime.state.scAddress;
    TransferOutLedger(env, h.output.state, input.callType.AsynchronousCall?, input.callerAddr, a, GasLeft(h), 0,
                      input.callValue, AnswerData(h.output.state), AsynchronousCallBack);
    var (o, err) := TransferOut(env, h.output.state, input.callType.AsynchronousCall?, input.callerAddr, a,
                                GasLeft(h), 0, input.callValue, AnswerData(h.output.state), AsynchronousCallBack);
    var h1 := WithOutput(h, o);
    if err.None? {
      UseGasCalm(ForwardGas(h1, a, input.callerAddr, GasLeft(h1)), GasLeft(h1));
    }
  }

  lemma EnterRootGas(env: Env, h: Host, input: CallInput, start: Start, addresses: set<Address>)
    requires Quiescent(h) && input.vmInput.callValue >= 0 && !input.vmInput.callType.AsynchronousCallBack?
    requires input.vmInput.gasProvided <= MAX_I64
    ensures var p := LoadAndStart(env, EnterRoot(h, input), start);
      p.err.None? ==>
        && Books(env, p.host, 0) && Slack(p.host, 0) == 0 && Fresh(p.host, addresses)
        && p.host.metering.state.initialGasProvided == input.vmInput.gasProvided
        && p.host.runtime.stack == [] && p.host.runtime.state.vmInput == input.vmInput
  {
    hide TotalGas, TotalDelta, AddDelta, LoadAndStart;
    EnterRootWithin(env, h, input);
    NothingDelta();
    var h1 := EnterRoot(h, input);
    AddDeltaLedger(NEW_OUTPUT, input.recipient, input.vmInput.callValue);
    SameLedgerRecorded(NEW_OUTPUT, h1.output.state);
    LoadAndStartGas(env, h1, start);
    SameLedgerRecorded(h1.output.state, LoadAndStart(env, h1, start).host.output.state);
  }

  /** The host in which the root contract's body starts. */
  function RootStarted(env: Env, h: Host, input: CallInput, start: Start): Host {
    LoadAndStart(env, EnterRoot(h, input), start).host
  }

  /** Gas a transaction records and does not pay for: what its script leaves unpaid, and the gas
      of an answer that a contract called asynchronously sends to itself. */
  ghost function RootUnpaid(env: Env, h: Host, input: CallInput, start: Start, body: Script): nat {
    var p := RootStarted(env, h, input, start);
    Unpaid(env, p, body)
    + if input.vmInput.callType.AsynchronousCall? && input.vmInput.callerAddr == input.recipient
      then GasLeft(RunBody(env, p, body).host) else 0
  }

  /** The root contract's body, up to its exit. */
  lemma RootBodyGas(env: Env, p: Host, body: Script)
    requires Ready(env, p) && Books(env, p, 0) && Slack(p, 0) == 0 && p.metering.totalUsedGas == 0
    requires p.runtime.stack == [] && Distinct(body) && LeavesShard(env, body)
    requires p.runtime.state.scAddress !in Recipients(body) && Fresh(p, Recipients(body))
    ensures var r := StopOverLimit(RunBody(env, p, body));
      r.err.None? ==>
        && Ready(env, r.host) && Books(env, r.host, 0) && RootBooks(r.host)
        && RootSlack(r.host) == Slack(r.host, 0) == Unpaid(env, p, body)
        && r.host.metering.state == p.metering.state && r.host.metering.totalUsedGas == 0
        && r.host.runtime.stack == []
        && r.host.runtime.state.scAddress == p.runtime.state.scAddress
        && r.host.runtime.state.vmInput.callerAddr == p.runtime.state.vmInput.callerAddr
  {
    hide TotalGas, TotalDelta, RunBody, Unpaid, Sound, LiveCount, Distinct, LeavesShard;
    BodyGas(env, p, body, 0);
    BodyKept(env, p, body);
    KeptReady(env, p, RunBody(env, p, body).host);
  }

  lemma RootFrameGas(env: Env, h: Host, input: CallInput, start: Start, body: Script)
    requires Quiescent(h) && input.vmInput.callValue >= 0 && !input.vmInput.callType.AsynchronousCallBack?
    requires input.vmInput.gasProvided <= MAX_I64
    requires Distinct(body) && LeavesShard(env, body) && input.recipient !in Recipients(body)
    ensures var r := RootFrame(env, h, input, start, body);
      r.err.None? ==>
        && RootBooks(r.host) && RootSlack(r.host) == RootUnpaid(env, h, input, start, body)
        && r.host.metering.state.initialGasProvided == input.vmInput.gasProvided
  {
    hide TotalGas, TotalDelta, EnterRoot, LoadAndStart, SendCallback, RunBody, Books, Slack, Ready, Fresh, Unpaid,
      FrameInstances, Sound, RootBooks, RootSlack, GasLeft, Distinct, LeavesShard, PointsUsed;
    EnterRootWithin(env, h, input);
    var h1 := EnterRoot(h, input);
    RootStarts(env, h, input, h1, start);
    EnterRootGas(env, h, input, start, Recipients(body));
    var p := LoadAndStart(env, h1, start);
    if p.err.None? {
      RootBodyGas(env, p.host, body);
      var r := StopOverLimit(RunBody(env, p.host, body));
      if r.err.None? {
        SendCallbackGas(env, r.host);
        SendCallbackKept(env, r.host);
      }
    }
  }

  /** Gas conservation: in a transaction whose call tree repeats no contract address, with any mix
      of destination and same-context calls, successful or failed, the output of a root that ends
      without error is Ok exactly when no gas was recorded unpaid; then the gas recorded over all
      output accounts (used, and carried by transfers) plus the gas remaining is exactly the gas
      provided. With destination calls only, and transfers that name no gas, it always is. */
  lemma TransactionConservesGas(env: Env, h: Host, input: CallInput, start: Start, body: Script)
    requires Quiescent(h) && input.vmInput.callValue >= 0 && !input.vmInput.callType.AsynchronousCallBack?
    requires input.vmInput.gasProvided <= MAX_I64
    requires Distinct(body) && LeavesShard(env, body) && input.recipient !in Recipients(body)
    ensures var r := RunSmartContractCall(env, h, input, start, body);
      && (r.output.returnCode.Ok? <==> r.err.None? && RootUnpaid(env, h, input, start, body) == 0)
      && (r.output.returnCode.Ok? ==>
            TotalGas(r.output.accounts) + r.output.gasRemaining == input.vmInput.gasProvided)
      && (Exact(body) && AnswersElsewhere(input) ==> RootUnpaid(env, h, input, start, body) == 0)
  {
    hide TotalGas, TotalDelta, RootFrame, GetVMOutput, Unpaid, RunBody, RootBooks, RootSlack;
    RootFrameGas(env, h, input, start, body);
    var f := RootFrame(env, h, input, start, body);
    if f.err.None? {
      RootSettles(f.host);
    }
    if Exact(body) {
      ExactIsPaid(env, RootStarted(env, h, input, start), body);
    }
  }

  /** A contract called asynchronously sends its answer to another address. */
  predicate AnswersElsewhere(input: CallInput) {
    input.vmInput.callType.AsynchronousCall? ==> input.vmInput.callerAddr != input.recipient
  }
}
