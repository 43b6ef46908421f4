/** An asynchronous call that runs in this shard, with its callback: what the callback is given, and
    what it all costs. */
module AsyncHere {
  import opened Overflow
  import opened Wrappers
  import opened Types
  import opened OutputModel
  import opened HostModel
  import opened OutputGrowth
  import opened StorageCache
  import opened Frames
  import opened GasConservation
  import opened Effects
  import opened GasCosts
  import opened AsyncCalls
  import opened Recursion

  // ---------------------------------------------------------------- the callback's input

  /** Every piece of data behind its separator. */
  function SeparatedLength(data: seq<Bytes>): nat
    decreases |data|
  {
    if data == [] then 0 else 1 + Len(data[0]) + SeparatedLength(data[1..])
  }

  /** The length of the call data of a callback: its name, the return code (no byte for success, one
      for an error), and the returned data or the error message. */
  function CallDataLength(out: VMOutput, ok: bool): nat {
    |"callBack"| + if ok then 1 + SeparatedLength(out.returnData) else 2 + 1 + Len(out.returnMessage)
  }

  function CallbackCost(env: Env, out: VMOutput, ok: bool): nat {
    env.gas.asyncCallStep + Price(env.gas.dataCopyPerByte, CallDataLength(out, ok))
  }

  lemma {:induction false} DataLengthCounts(data: seq<Bytes>, separators: uint64)
    ensures DataLength(data, separators)
            == if separators + SeparatedLength(data) > MAX_U64 then MAX_U64 else separators + SeparatedLength(data)
    decreases |data|
  {
    if data != [] {
      DataLengthCounts(data[1..], AddUint64(AddUint64(separators, 1), Len(data[0])));
    }
  }

  lemma CallDataLengthCounts(out: VMOutput, ok: bool)
    ensures CallbackDataLength(CallBack, out, ok)
            == if CallDataLength(out, ok) > MAX_U64 then MAX_U64 else CallDataLength(out, ok)
  {
    DataLengthCounts(out.returnData, 1);
  }

  /** The saturating price of a saturating length is the true price, or too large either way. */
  lemma LengthPrice(perByte: uint64, length: nat)
    ensures var counted := if length > MAX_U64 then MAX_U64 else length;
      var price := Price(perByte, length);
      MulUint64(perByte, counted) == if price > MAX_U64 then MAX_U64 else price
  {
    if length > MAX_U64 && perByte > 0 {
      assert perByte * length >= length;
      assert perByte * MAX_U64 >= MAX_U64;
    }
  }

  lemma CallbackCostCounts(env: Env, out: VMOutput, ok: bool)
    ensures AddUint64(env.gas.asyncCallStep,
                      MulUint64(env.gas.dataCopyPerByte, CallbackDataLength(CallBack, out, ok)))
            == if CallbackCost(env, out, ok) > MAX_U64 then MAX_U64 else CallbackCost(env, out, ok)
  {
    hide MulUint64, Price, CallbackDataLength, CallDataLength;
    CallDataLengthCounts(out, ok);
    LengthPrice(env.gas.dataCopyPerByte, CallDataLength(out, ok));
  }

  /** The value the destination sent back: that of its last transfer to the caller, if it returned no
      data and the transfer carries none. */
  function ValueBack(out: VMOutput, caller: Address): int {
    var ts := TransfersAt(out.accounts, caller);
    if out.returnData == [] && ts != [] && ts[|ts| - 1].data == "" then ts[|ts| - 1].value else 0
  }

  /** The callback is called by the destination, with the value that came back, and with the gas that
      came back and the locked gas, less the price of the step and of its call data; there is none
      exactly when nothing would be left. */
  lemma CallbackGets(env: Env, h: Host, info: AsyncCallInfo, out: VMOutput, ok: bool)
    ensures var limit := (out.gasRemaining + info.gasLocked) % TWO_64;
      var cost := CallbackCost(env, out, ok);
      var r := CallbackInput(env, h, info, out, ok);
      && (r.None? <==> limit <= cost)
      && (r.Some? ==>
            var v := r.value.vmInput;
            && v.gasProvided + cost == limit && v.gasLocked == 0
            && v.callerAddr == info.destination && v.callType.AsynchronousCallBack?
            && v.callValue == ValueBack(out, h.runtime.state.scAddress)
            && r.value.recipient == h.runtime.state.scAddress && r.value.callFunction.CallBack?)
  {
    hide CallbackCost, AddUint64, MulUint64, CallbackDataLength;
    CallbackCostCounts(env, out, ok);
  }

  // ---------------------------------------------------------------- what the call costs

  /** The host that makes the call, with the gas for the step and the lock already used. */
  ghost function Sender(env: Env, h: Host, c: AsyncCall): Host {
    var p := PrepareAsync(env, h, c.destination, c.data, c.value).host;
    WithOutput(p, GetCode(env, p.output.state, c.destination).0)
  }

  ghost function DestinationCall(env: Env, h: Host, c: AsyncCall): CallResult
    requires c.parsed.Some?
  {
    var h1 := Sender(env, h, c);
    ExecuteOnDest(env, h1, DestinationInput(h1, c, AsyncInfoOf(h1)), c.start, c.body)
  }

  ghost function CallbackCall(env: Env, h: Host, c: AsyncCall, input: CallInput): CallResult
    requires c.parsed.Some?
  {
    var d := DestinationCall(env, h, c).host;
    ExecuteOnDest(env, d.(runtime := SetPointsUsed(d.runtime, 0)), input, c.callbackStart, c.callbackBody)
  }

  ghost function CallbackOf(env: Env, h: Host, c: AsyncCall): Option<CallInput>
    requires c.parsed.Some?
  {
    var d := DestinationCall(env, h, c);
    CallbackInput(env, d.host, AsyncInfoOf(Sender(env, h, c)), d.output, d.err.None?)
  }

  /** The points of a contract that were not spent by contracts it called. */
  function OwnPoints(h: Host): nat {
    var forwarded := TotalForwarded(h.metering, h.runtime.state.scAddress);
    if PointsUsed(h.runtime) > forwarded then PointsUsed(h.runtime) - forwarded else 0
  }

  lemma OwnPointsRead(h: Host)
    requires Metered(h)
    ensures GasUsedForExecution(h) == OwnPoints(h)
  {
  }

  lemma SenderFacts(env: Env, h: Host, c: AsyncCall)
    requires Ready(env, h) && Metered(h) && PrepareAsync(env, h, c.destination, c.data, c.value).err.None?
    ensures var h1 := Sender(env, h, c);
      var info := AsyncInfoOf(h1);
      && Ready(env, h1) && Metered(h1) && Kept(env, h, h1) && h1.metering.state == h.metering.state
      && info == AsyncInfoOf(PrepareAsync(env, h, c.destination, c.data, c.value).host)
      && info.destination == c.destination && info.gasLimit == GasLeft(h1)
      && PointsUsed(h1.runtime) == PointsUsed(h.runtime) + env.gas.asyncCallStep + info.gasLocked
      && PointsUsed(h1.runtime) + GasLeft(h1) == h.metering.state.gasForExecution
  {
    hide GetCode, PrepareAsync, Kept, LiveCount, Sound, Ready, LockPrice;
    var p := PrepareAsync(env, h, c.destination, c.data, c.value).host;
    PrepareAsyncKept(env, h, c.destination, c.data, c.value);
    KeptReady(env, h, p);
    SoundWhenReady(env, p);
    GetCodeGrows(env, p.output.state, c.destination);
    WithOutputKept(env, p, GetCode(env, p.output.state, c.destination).0);
    KeptTransitive(env, h, p, Sender(env, h, c));
    GasKept(env, h, p);
    CallerInstance(env, h);
    AsyncGasSplit(env, h, c.destination, c.data, c.value);
  }

  /** What an asynchronous call that runs here costs: the step, the lock, and what the destination did
      not send back. The callback then starts on a counter of 0; if it and the destination both
      succeeded, what the contract had spent itself is added again, and otherwise not. */
  lemma AsyncHereUses(env: Env, h: Host, c: AsyncCall)
    requires Ready(env, h) && Metered(h) && HasCode(env, c.destination) && c.parsed.Some?
    requires PrepareAsync(env, h, c.destination, c.data, c.value).err.None?
    ensures var h1 := Sender(env, h, c);
      var info := AsyncInfoOf(h1);
      var input := DestinationInput(h1, c, info);
      var d := DestinationCall(env, h, c);
      var given := if Refused(DestEntry(env, h1, input), input) then 0 else info.gasLimit;
      var r := RunAsync(env, h, c);
      && r.err.None? && d.output.gasRemaining <= given
      && PointsUsed(d.host.runtime)
         == PointsUsed(h.runtime) + env.gas.asyncCallStep + info.gasLocked + given - d.output.gasRemaining
      && (CallbackOf(env, h, c).None? ==> PointsUsed(r.host.runtime) == PointsUsed(d.host.runtime))
      && (CallbackOf(env, h, c).Some? ==>
            var back := CallbackOf(env, h, c).value;
            var e := CallbackCall(env, h, c, back);
            var h2 := d.host.(runtime := SetPointsUsed(d.host.runtime, 0));
            var taken := if Refused(DestEntry(env, h2, back), back) then 0 else back.vmInput.gasProvided;
            && back.vmInput.gasProvided + CallbackCost(env, d.output, d.err.None?)
               == d.output.gasRemaining + info.gasLocked
            && e.output.gasRemaining <= taken
            && PointsUsed(r.host.runtime)
               == Counted(taken - e.output.gasRemaining
                          + if d.err.None? && e.err.None? then OwnPoints(d.host) else 0))
  {
    hide Ready, Kept, PrepareAsync, GetCode, ExecuteOnDest, CallbackInput, CallbackCost, DestEntry, RolledBack,
      PointsUsed, OwnPoints, SetPointsUsed;
    var h1 := Sender(env, h, c);
    SenderFacts(env, h, c);
    RunsHere(env, h, c);
    var info := AsyncInfoOf(h1);
    var input := DestinationInput(h1, c, info);
    DestPoints(env, h1, input, c.start, c.body);
    DestCallKept(env, h1, input, c.start, c.body);
    var d := DestinationCall(env, h, c);
    KeptReady(env, h1, d.host);
    CallbackGets(env, d.host, info, d.output, d.err.None?);
    GasKept(env, h1, d.host);
    CallbackUses(env, d.host, info, d.output, d.err.None?, c);
  }

  lemma RunsHere(env: Env, h: Host, c: AsyncCall)
    requires Ready(env, h) && HasCode(env, c.destination) && c.parsed.Some?
    requires PrepareAsync(env, h, c.destination, c.data, c.value).err.None?
    ensures var d := DestinationCall(env, h, c);
      RunAsync(env, h, c)
      == RunCallback(env, d.host, AsyncInfoOf(Sender(env, h, c)), d.output, d.err.None?, c)
  {
    hide PrepareAsync, Kept, Ready, ExecuteOnDest, RunCallback, GetCode, RolledBack, HasCode;
    var p := PrepareAsync(env, h, c.destination, c.data, c.value).host;
    PrepareAsyncKept(env, h, c.destination, c.data, c.value);
    KeptReady(env, h, p);
    SoundWhenReady(env, p);
    CodeToGet(env, p.output.state, c.destination);
    GetCodeGrows(env, p.output.state, c.destination);
    WithOutputKept(env, p, GetCode(env, p.output.state, c.destination).0);
    var h1 := Sender(env, h, c);
    KeptReady(env, p, h1);
    DestCallKept(env, h1, DestinationInput(h1, c, AsyncInfoOf(h1)), c.start, c.body);
  }

  lemma CallbackUses(env: Env, k: Host, info: AsyncCallInfo, out: VMOutput, ok: bool, c: AsyncCall)
    requires Ready(env, k) && Metered(k) && out.gasRemaining + info.gasLocked <= MAX_I64
    ensures var input := CallbackInput(env, k, info, out, ok);
      var r := RunCallback(env, k, info, out, ok, c);
      && r.err.None?
      && (input.None? ==> PointsUsed(r.host.runtime) == PointsUsed(k.runtime))
      && (input.Some? ==>
            var k0 := k.(runtime := SetPointsUsed(k.runtime, 0));
            var e := ExecuteOnDest(env, k0, input.value, c.callbackStart, c.callbackBody);
            var taken := if Refused(DestEntry(env, k0, input.value), input.value) then 0
                         else input.value.vmInput.gasProvided;
            && e.output.gasRemaining <= taken
            && PointsUsed(r.host.runtime)
               == Counted(taken - e.output.gasRemaining + if e.err.None? && ok then OwnPoints(k) else 0))
  {
    hide Ready, Kept, ExecuteOnDest, CallbackInput, CallbackCost, DestEntry, RolledBack, OwnPoints, GasUsedForExecution,
      SetPointsUsed, LiveCount;
    var input := CallbackInput(env, k, info, out, ok);
    CallbackGets(env, k, info, out, ok);
    OwnPointsRead(k);
    if input.Some? {
      var k0 := k.(runtime := SetPointsUsed(k.runtime, 0));
      SetPointsKept(env, k, 0);
      NoPoints(env, k);
      DestPoints(env, k0, input.value, c.callbackStart, c.callbackBody);
      DestCallKept(env, k0, input.value, c.callbackStart, c.callbackBody);
      var e := ExecuteOnDest(env, k0, input.value, c.callbackStart, c.callbackBody);
      KeptReady(env, k0, e.host);
      CallerInstance(env, e.host);
      UseGasAdds(e.host, OwnPoints(k));
    }
  }

  lemma NoPoints(env: Env, k: Host)
    requires Ready(env, k)
    ensures PointsUsed(SetPointsUsed(k.runtime, 0)) == 0
  {
  }

  /** Every destination call gives its caller back exactly the frame it had, its input included. */
  lemma DestKeepsFrame(env: Env, h: Host, input: CallInput, start: Start, body: Script)
    requires Ready(env, h)
    ensures ExecuteOnDest(env, h, input, start, body).host.runtime.state == h.runtime.state
  {
    hide DestFrame, GetVMOutput, PopMerge, Grows, LiveCount, GasSpentByContract, CurrentTotalUsedGas;
    DestFrameInside(env, h, input, start, body);
    var f := DestFrame(env, h, input, start, body).host;
    OutputInsideToo(env, h, f, true);
    PopRuntimeInside(h.runtime, f.runtime);
    OutputRuntime(f);
  }

  lemma OutputRuntime(f: Host)
    ensures GetVMOutput(f).0.runtime == f.runtime
  {
    hide RecordGas, CheckedGas, WithoutCode;
  }

  /** A callback that was reported leaves its contract an input without gas, and any other leaves the
      input alone. */
  lemma ReportedInput(env: Env, k: Host, info: AsyncCallInfo, out: VMOutput, ok: bool, c: AsyncCall)
    requires Ready(env, k)
    ensures var input := CallbackInput(env, k, info, out, ok);
      var k0 := k.(runtime := SetPointsUsed(k.runtime, 0));
      var reported := input.None?
                      || ExecuteOnDest(env, k0, input.value, c.callbackStart, c.callbackBody).err.Some?;
      var v := k.runtime.state.vmInput;
      RunCallback(env, k, info, out, ok, c).host.runtime.state.vmInput == if reported then v.(gasProvided := 0) else v
  {
    hide Ready, Kept, ExecuteOnDest, CallbackInput, GasUsedForExecution, LiveCount;
    var input := CallbackInput(env, k, info, out, ok);
    if input.Some? {
      SetPointsKept(env, k, 0);
      DestKeepsFrame(env, k.(runtime := SetPointsUsed(k.runtime, 0)), input.value, c.callbackStart, c.callbackBody);
    }
  }

  // ---------------------------------------------------------------- the lock after a call

  lemma LocalKeepsCodeSize(env: Env, h: Host, a: Action)
    requires !a.CallDest? && !a.CallSame? && !a.Async?
    ensures LocalAction(env, h, a).host.runtime.codeSize == h.runtime.codeSize
  {
    hide TransferOut, CachedRead, PriceOfChange, HasPrefix;
  }

  lemma {:induction false} BodyKeepsCodeSize(env: Env, h: Host, s: Script)
    requires NoCalls(s)
    ensures RunBody(env, h, s).host.runtime.codeSize == h.runtime.codeSize
    decreases s
  {
    hide LocalAction;
    if s.Then? {
      LocalKeepsCodeSize(env, h, s.first);
      BodyKeepsCodeSize(env, LocalAction(env, h, s.first).host, s.rest);
    }
  }

  lemma StartSetsCodeSize(env: Env, f: Host, start: Start)
    requires Sound(env, f.output.state) && HasCode(env, f.runtime.state.scAddress)
    ensures LoadAndStart(env, f, start).host.runtime.codeSize == Len(env.accounts[f.runtime.state.scAddress].code)
  {
    hide InitialCost, LiveCount;
    if f.runtime.state.scAddress in f.output.state.accounts {
      assert AccountSound(env, f.runtime.state.scAddress, f.output.state.accounts[f.runtime.state.scAddress]);
    }
  }

  lemma PrepareSetsCodeSize(env: Env, t: Host, input: CallInput, start: Start)
    requires Sound(env, t.output.state) && Prepare(env, t, input, start).err.None?
    ensures var a := t.runtime.state.scAddress;
      HasCode(env, a) && Prepare(env, t, input, start).host.runtime.codeSize == Len(env.accounts[a].code)
  {
    hide LoadAndStart;
    var g := UseGasOn(t, input.vmInput.gasProvided);
    LoadedCode(env, g, start);
    StartSetsCodeSize(env, g, start);
  }

  lemma LoadedCode(env: Env, f: Host, start: Start)
    requires Sound(env, f.output.state) && LoadAndStart(env, f, start).err.None?
    ensures HasCode(env, f.runtime.state.scAddress)
  {
    hide InitialCost, StartInstance;
    CodeToGet(env, f.output.state, f.runtime.state.scAddress);
  }

  /** The size of the code is not among what a frame saves: after a call, the lock of the caller's next
      asynchronous call is priced with the callee's code, not with its own. */
  lemma LockAfterCall(env: Env, h: Host, c: Call)
    requires Ready(env, h) && FrameEnds(env, h, c) && NoCalls(c.body)
    ensures HasCode(env, c.recipient)
    ensures LockPrice(env, Recursion.Called(env, h, c).host)
            == Price(env.gas.aotPreparePerByte, Len(env.accounts[c.recipient].code))
               + env.gas.asyncCallStep + env.gas.asyncCallbackGasLock
  {
    hide Ready, Inside, GetVMOutput, DestEntry, Prepare, RunBody, HasCode, CallInputOf, Price, DestFrame;
    var input := CallInputOf(h, c);
    InputOfCall(h, c);
    CalleeEnds(env, h, c);
    var t := DestEntry(env, h, input).host;
    DestEntryInside(env, h, input);
    InsideIsSound(env, h, t, true);
    EntryAddress(env, h, input);
    PrepareSetsCodeSize(env, t, input, c.start);
    BodyKeepsCodeSize(env, CalleeStarts(env, h, c).host, c.body);
    LeaveKeepsCodeSize(Callee(env, h, c));
  }

  lemma LeaveKeepsCodeSize(f: Host)
    ensures FinishDest(f, None).host.runtime.codeSize == f.runtime.codeSize
  {
    hide PopMerge, OnTheStack, CurrentTotalUsedGas, GasSpentByContract, GasUsedByContract;
  }
}
