/** Four transactions: a gas check that fails at a nested destination call although no gas is lost, a
    same-context call that is counted twice, gas that is named and not paid for, and a lost refund. */
module GasExamples {
  import opened Overflow
  import opened Wrappers
  import opened Types
  import opened OutputModel
  import opened HostModel
  import opened OutputGrowth
  import opened Frames
  import opened GasLedger
  import opened GasConservation
  import opened GasCheck
  import opened Transactions

  const CONTRACT := HookAccount(0, "code", false, map[])
  const ROOT := HookAccount(0, "code", false, map["k" := "old"])
  const NODE: map<Address, HookAccount> := map["root" := ROOT, "b" := CONTRACT, "c" := CONTRACT, "d" := CONTRACT]
  const PAYABLE: map<Address, bool> := map["root" := true, "b" := true, "c" := true, "d" := true]

  /** Loading a contract costs one unit of gas, and nothing else costs any; a released byte refunds one. */
  const ENV := Env(NODE, PAYABLE, {}, GasSchedule(0, 1, 0, 0, 0, 0, 1, 0), 10, "protected")

  const INPUT := CallInput(VMInput("user", DirectCall, 0, 100, 0), "root", Method("main"), false)

  function CallTo(a: Address, gas: uint64, body: Script): Call {
    Call(a, 0, Method("run"), gas, Started, body)
  }

  const TO_B := CallTo("b", 10, Done)
  const TO_D := CallTo("d", 5, Done)
  const TO_C := CallTo("c", 10, Then(CallDest(TO_D), Done))
  const SAME_C := CallTo("c", 10, Done)

  const NESTED := Then(CallDest(TO_B), Then(CallDest(TO_C), Done))
  const COUNTED_TWICE := Then(CallDest(TO_B), Then(CallSame(SAME_C), Done))

  // ---------------------------------------------------------------- starting contracts

  lemma CostIsOne(code: Bytes)
    ensures InitialCost(ENV, code) == 1
  {
  }

  lemma KnownCode(o: VMOutput, a: Address)
    requires a in NODE
    ensures GetCode(ENV, o, a).2.None?
  {
  }

  /** A transfer of nothing to a known contract succeeds. */
  lemma NothingToPay(o: VMOutput, isAsyncCall: bool, dest: Address, sender: Address)
    requires Sound(ENV, o) && dest in NODE
    ensures TransferValueOnly(ENV, o, isAsyncCall, dest, sender, 0, false).1.None?
  {
    if sender in o.accounts {
      assert AccountSound(ENV, sender, o.accounts[sender]);
    }
  }

  lemma LoadsAndStarts(f: Host)
    requires f.runtime.state.scAddress in NODE && f.runtime.state.vmInput.gasProvided >= 1
    requires |f.runtime.instanceStack| < 10
    ensures LoadAndStart(ENV, f, Started).err.None?
  {
    hide GetCode, InitialCost;
    KnownCode(f.output.state, f.runtime.state.scAddress);
    CostIsOne(GetCode(ENV, f.output.state, f.runtime.state.scAddress).1);
  }

  /** A callee with gas for loading its code, and room for its instance, is prepared. */
  lemma Prepares(h: Host, t: Host, own: bool, input: CallInput)
    requires Ready(ENV, h) && Inside(ENV, h, t, own) && Entered(h, t, input)
    requires input.recipient in NODE && input.callFunction.Method? && input.vmInput.gasProvided >= 1
    requires |h.runtime.instanceStack| < 9
    ensures Prepare(ENV, t, input, Started).err.None?
  {
    hide LoadAndStart, Ready, LiveCount, FrameInstances, PeakBounded, Grows;
    LoadsAndStarts(UseGasOn(t, input.vmInput.gasProvided));
  }

  /** Both bodies of the examples end without error. */
  lemma Executes(h: Host, t: Host, own: bool, input: CallInput, body: Script)
    requires Ready(ENV, h) && Inside(ENV, h, t, own) && Entered(h, t, input)
    requires ContractsOnStack(ENV, h.runtime) && h.metering.state.gasForExecution <= MAX_I64
    requires PointsUsed(h.runtime) <= MAX_I64 && input.vmInput.gasProvided <= GasLeft(h)
    requires TreeReady(ENV, h, input.recipient, body)
    requires input.recipient in NODE && input.callFunction.Method? && input.vmInput.gasProvided >= 1
    requires |h.runtime.instanceStack| < 9
    requires body == Done || body == Then(CallDest(TO_D), Done)
    ensures ExecuteCall(ENV, t, input, Started, body).err.None?
  {
    hide Prepare, Ready, Inside, Kept, ExecuteOnDest, TotalGas, RolledBack, NoneCleaned, RefusedOnDest, DestUnpaid;
    Prepares(h, t, own, input);
    PrepareGas(ENV, h, t, own, input, Started);
    PrepareInside(ENV, h, t, own, input, Started);
    var p := Prepare(ENV, t, input, Started).host;
    if body != Done {
      DestCallGas(ENV, p, TO_D, Recorded(h.output.state));
      DestCallKept(ENV, p, CallInputOf(p, TO_D), Started, Done);
      KeptFields(p, ExecuteOnDest(ENV, p, CallInputOf(p, TO_D), Started, Done).host);
    }
  }

  lemma KeptFields(h: Host, k: Host)
    requires Kept(ENV, h, k)
    ensures k.metering.state == h.metering.state && k.runtime.instanceStack == h.runtime.instanceStack
    ensures k.runtime.stack == h.runtime.stack && k.runtime.state.scAddress == h.runtime.state.scAddress
    ensures k.runtime.state.vmInput.callType == h.runtime.state.vmInput.callType
  {
  }

  // ---------------------------------------------------------------- the calls

  /** A running contract of the examples that can afford another call. */
  ghost predicate Running(h: Host) {
    && Ready(ENV, h) && Books(ENV, h, 0) && Slack(h, 0) == 0
    && h.metering.totalUsedGas == 0 && h.runtime.instanceStack == [] && h.runtime.stack == []
    && h.runtime.state.scAddress == "root" && h.runtime.state.vmInput.callType.DirectCall?
    && h.metering.state.initialGasProvided == 100 && h.metering.state.gasForExecution >= 50
    && PointsUsed(h.runtime) <= 10
  }

  predicate InExamples(c: Call) {
    c == TO_B || c == TO_C || c == SAME_C
  }

  lemma DestCompletes(h: Host, c: Call)
    requires Running(h) && InExamples(c) && TreeReady(ENV, h, c.recipient, c.body)
    ensures DestFrame(ENV, h, CallInputOf(h, c), Started, c.body).err.None?
  {
    hide Ready, Books, Inside, TreeReady, ExecuteCall, TransferValueOnly, Sound, Grows, TotalGas;
    var input := CallInputOf(h, c);
    SoundWhenReady(ENV, h);
    CensoredSound(h.output.state);
    CallFacts(ENV, h, 0);
    DestEntryInside(ENV, h, input);
    DestEntryGas(ENV, h, input);
    NothingToPay(EnterDest(h, input).output.state, false, input.recipient, "root");
    Executes(h, DestEntry(ENV, h, input).host, true, input, c.body);
  }

  lemma CensoredSound(o: VMOutput)
    requires Sound(ENV, o)
    ensures Sound(ENV, Censored(o))
  {
  }

  lemma SameCompletes(h: Host, c: Call)
    requires Running(h) && InExamples(c) && TreeReady(ENV, h, c.recipient, c.body)
    ensures SameFrame(ENV, h, CallInputOf(h, c), Started, c.body).err.None?
  {
    hide Ready, Books, Inside, TreeReady, ExecuteCall, TransferValueOnly, Sound, Grows, TotalGas;
    var input := CallInputOf(h, c);
    SoundWhenReady(ENV, h);
    CallFacts(ENV, h, 0);
    SameEntryInside(ENV, h, input);
    SameEntryGas(ENV, h, input);
    NothingToPay(EnterSame(h, input).output.state, false, input.recipient, "root");
    Executes(h, SameEntry(ENV, h, input).host, false, input, c.body);
  }

  // ---------------------------------------------------------------- the transactions

  lemma Begins(h: Host)
    requires Quiescent(h)
    ensures LoadAndStart(ENV, EnterRoot(h, INPUT), Started).err.None?
    ensures var p := RootStarted(ENV, h, INPUT, Started);
      Running(p) && Recorded(p.output.state) == 0 && PointsUsed(p.runtime) == 0 && Fresh(p, {"b", "c", "d"})
  {
    hide LoadAndStart, Ready, Books, TotalGas, TotalDelta;
    EnterRootWithin(ENV, h, INPUT);
    LoadsAndStarts(EnterRoot(h, INPUT));
    EnterRootGas(ENV, h, INPUT, Started, {"root", "b", "c", "d"});
    RootStarts(ENV, h, INPUT, EnterRoot(h, INPUT), Started);
    StartedGas(EnterRoot(h, INPUT));
  }

  lemma StartedGas(f: Host)
    requires f.runtime.state.vmInput.gasProvided == 100
    requires LoadAndStart(ENV, f, Started).err.None?
    ensures var p := LoadAndStart(ENV, f, Started).host;
      PointsUsed(p.runtime) == 0 && p.metering.state.gasForExecution == 99 && p.runtime.state == f.runtime.state
  {
    hide GetCode, InitialCost;
    CostIsOne(GetCode(ENV, f.output.state, f.runtime.state.scAddress).1);
  }

  ghost function AfterB(h: Host): Host {
    ExecuteOnDest(ENV, h, CallInputOf(h, TO_B), Started, Done).host
  }

  lemma PaidB(p: Host)
    ensures DestUnpaid(ENV, p, TO_B) == 0
  {
    hide Prepare, DestEntry, ExecuteOnDest;
  }

  /** The first destination call succeeds, and its gas is recorded. */
  lemma CallsB(p: Host)
    requires Running(p) && Recorded(p.output.state) == 0 && PointsUsed(p.runtime) == 0 && Fresh(p, {"b", "c", "d"})
    ensures ExecuteOnDest(ENV, p, CallInputOf(p, TO_B), Started, Done).err.None?
    ensures var k := AfterB(p); Running(k) && Recorded(k.output.state) >= 1 && Fresh(k, {"c", "d"})
    ensures DestUnpaid(ENV, p, TO_B) == 0
  {
    hide Ready, Books, ExecuteOnDest, DestFrame, TotalGas, Kept, RolledBack, NoneCleaned, RefusedOnDest, DestUnpaid,
      UsedAt, GasLeft, Recorded;
    PaidB(p);
    DestCompletes(p, TO_B);
    ExactDestCallCheck(ENV, p, TO_B, 0);
    DestCallGas(ENV, p, TO_B, 0);
    DestCallKept(ENV, p, CallInputOf(p, TO_B), Started, Done);
    KeptReady(ENV, p, AfterB(p));
    KeptFields(p, AfterB(p));
  }

  /** A nested failure: called after anything was recorded, a contract that itself completes a
      destination call fails, although its frame ended without error and paid for all it recorded.
      The transaction ends Ok, with all gas accounted for and that contract's effects gone. */
  lemma NestedCheckFails(h: Host)
    requires Quiescent(h)
    ensures var k := AfterB(RootStarted(ENV, h, INPUT, Started));
      var input := CallInputOf(k, TO_C);
      && DestFrame(ENV, k, input, Started, TO_C.body).err.None?
      && FrameUnpaid(ENV, DestEntry(ENV, k, input).host, input, Started, TO_C.body) == 0
      && ExecuteOnDest(ENV, k, input, Started, TO_C.body).err == Some(ErrExecutionFailed)
    ensures var out := RunSmartContractCall(ENV, h, INPUT, Started, NESTED).output;
      out.returnCode.Ok? && TotalGas(out.accounts) + out.gasRemaining == 100
  {
    hide Ready, Books, ExecuteOnDest, DestFrame, TotalGas, RunBody, Unpaid, RootStarted, AfterB,
      RunSmartContractCall, Recorded, CallInputOf, FrameUnpaid, DestEntry, Distinct, LeavesShard, Recipients, Slack,
      Fresh, Exact;
    Begins(h);
    var p := RootStarted(ENV, h, INPUT, Started);
    CallsB(p);
    var k := AfterB(p);
    CallsC(k);
    RunsNested(p);
    RootEnds(h, NESTED, ExecuteOnDest(ENV, k, CallInputOf(k, TO_C), Started, TO_C.body).host);
    TreeOfNested();
    TransactionConservesGas(ENV, h, INPUT, Started, NESTED);
  }

  lemma RunsNested(p: Host)
    ensures var k := AfterB(p);
      RunBody(ENV, p, NESTED)
      == BodyResult(ExecuteOnDest(ENV, k, CallInputOf(k, TO_C), Started, TO_C.body).host, None)
  {
    hide ExecuteOnDest, CallInputOf;
    var rest := Then(CallDest(TO_C), Done);
    var k := AfterB(p);
    assert RunBody(ENV, p, NESTED) == RunBody(ENV, k, rest);
    assert RunBody(ENV, k, rest)
           == RunBody(ENV, ExecuteOnDest(ENV, k, CallInputOf(k, TO_C), Started, TO_C.body).host, Done);
  }

  lemma TreeOfNested()
    ensures Distinct(NESTED) && LeavesShard(ENV, NESTED) && Recipients(NESTED) == {"b", "c", "d"} && Exact(NESTED)
  {
    var rest := Then(CallDest(TO_C), Done);
    assert Recipients(Done) == {} && Distinct(Done) && LeavesShard(ENV, Done) && Exact(Done);
    assert Called(CallDest(TO_B)) == {"b"} && Called(CallDest(TO_D)) == {"d"};
    assert Recipients(TO_C.body) == {"d"} && Distinct(TO_C.body) && LeavesShard(ENV, TO_C.body) && Exact(TO_C.body);
    assert Called(CallDest(TO_C)) == {"c", "d"};
    assert Recipients(rest) == {"c", "d"} && Distinct(rest) && LeavesShard(ENV, rest) && Exact(rest);
  }

  lemma TreeOfC(k: Host)
    requires Fresh(k, {"c", "d"}) && k.runtime.state.scAddress == "root"
    ensures TreeReady(ENV, k, "c", TO_C.body) && Exact(TO_C.body) && CallsDest(TO_C.body)
  {
    assert Recipients(Done) == {} && Distinct(Done) && LeavesShard(ENV, Done) && Exact(Done);
    assert Called(CallDest(TO_D)) == {"d"};
    assert Recipients(TO_C.body) == {"d"};
  }

  lemma CallsC(k: Host)
    requires Running(k) && Recorded(k.output.state) >= 1 && Fresh(k, {"c", "d"})
    ensures var input := CallInputOf(k, TO_C);
      && DestFrame(ENV, k, input, Started, TO_C.body).err.None?
      && FrameUnpaid(ENV, DestEntry(ENV, k, input).host, input, Started, TO_C.body) == 0
      && ExecuteOnDest(ENV, k, input, Started, TO_C.body).err == Some(ErrExecutionFailed)
      && var z := ExecuteOnDest(ENV, k, input, Started, TO_C.body).host;
         PointsUsed(z.runtime) <= 20 && z.metering.state == k.metering.state
  {
    hide Ready, Books, DestFrame, TotalGas, DestEntry, Prepare, Unpaid, CalleeOutput, LeaveDest, RefusedOnDest,
      Kept, RolledBack, NoneCleaned, DestUnpaid;
    var input := CallInputOf(k, TO_C);
    TreeOfC(k);
    DestCompletes(k, TO_C);
    ExactIsPaid(ENV, Prepare(ENV, DestEntry(ENV, k, input).host, input, Started).host, TO_C.body);
    ExactDestCallCheck(ENV, k, TO_C, 0);
    DestCallGas(ENV, k, TO_C, 0);
    DestCallKept(ENV, k, input, Started, TO_C.body);
    KeptFields(k, ExecuteOnDest(ENV, k, input, Started, TO_C.body).host);
  }

  lemma CallsSameC(k: Host)
    requires Running(k) && Recorded(k.output.state) >= 1 && Fresh(k, {"c", "d"})
    ensures var r := ExecuteOnSame(ENV, k, CallInputOf(k, SAME_C), Started, Done);
      && r.1.None? && !SameCheckPasses(ENV, k, SAME_C)
      && Recorded(r.0.output.state) > Recorded(k.output.state)
      && GasStateOf(r.0.metering, "root") == GasStateOf(k.metering, "root")
      && SameUnpaid(ENV, k, SAME_C) >= 1
      && PointsUsed(r.0.runtime) <= 20 && r.0.metering.state == k.metering.state
      && r.0.output.state.returnCode.Ok?
  {
    hide Ready, SameFrame, ExecuteOnSame, TotalGas, SameEntry, Prepare, SameCheckPasses, Kept, RolledBack,
      NoneCleaned, RefusedOnSame, Recorded;
    var input := CallInputOf(k, SAME_C);
    SameCompletes(k, SAME_C);
    SameCallAtRoot(ENV, k, SAME_C, 0);
    SameCallCheck(ENV, k, SAME_C, 0);
    SameCallGas(ENV, k, SAME_C, 0);
    SameCallKept(ENV, k, input, Started, Done);
    KeptFields(k, ExecuteOnSame(ENV, k, input, Started, Done).0);
  }

  /** The script of the second example, action by action. */
  lemma RunsTwice(p: Host)
    ensures var k := AfterB(p);
      && RunBody(ENV, p, COUNTED_TWICE)
         == BodyResult(ExecuteOnSame(ENV, k, CallInputOf(k, SAME_C), Started, Done).0, None)
      && Unpaid(ENV, p, COUNTED_TWICE) == DestUnpaid(ENV, p, TO_B) + SameUnpaid(ENV, k, SAME_C)
  {
    hide ExecuteOnDest, ExecuteOnSame, CallInputOf, DestUnpaid, SameUnpaid;
    var rest := Then(CallSame(SAME_C), Done);
    var k := AfterB(p);
    assert RunBody(ENV, p, COUNTED_TWICE) == RunBody(ENV, k, rest);
    var k2 := ExecuteOnSame(ENV, k, CallInputOf(k, SAME_C), Started, Done).0;
    assert RunBody(ENV, k, rest) == RunBody(ENV, k2, Done);
    assert Unpaid(ENV, k, rest) == SameUnpaid(ENV, k, SAME_C) + Unpaid(ENV, k2, Done);
  }

  lemma TreeOfTwice()
    ensures Distinct(COUNTED_TWICE) && LeavesShard(ENV, COUNTED_TWICE) && Recipients(COUNTED_TWICE) == {"b", "c"}
  {
    var rest := Then(CallSame(SAME_C), Done);
    assert Recipients(Done) == {} && Distinct(Done) && LeavesShard(ENV, Done);
    assert Called(CallDest(TO_B)) == {"b"} && Called(CallSame(SAME_C)) == {"c"};
    assert Recipients(rest) == {"c"} && Distinct(rest) && LeavesShard(ENV, rest);
  }

  /** A transaction of the examples whose script ends within its gas reaches its gas check. */
  lemma RootEnds(h: Host, body: Script, k: Host)
    requires LoadAndStart(ENV, EnterRoot(h, INPUT), Started).err.None?
    requires RunBody(ENV, RootStarted(ENV, h, INPUT, Started), body) == BodyResult(k, None)
    requires PointsUsed(k.runtime) <= k.metering.state.gasForExecution
    ensures RunSmartContractCall(ENV, h, INPUT, Started, body).err.None?
  {
    hide LoadAndStart, EnterRoot, RunBody, GetVMOutput;
  }

  /** A double count: a same-context call made after anything was recorded ends without error, and
      is kept; what it spent is recorded and not counted as forwarded, so the root's own check fails
      and the whole transaction with it. */
  lemma SameCallCountsTwice(h: Host)
    requires Quiescent(h)
    ensures var k := AfterB(RootStarted(ENV, h, INPUT, Started));
      var r := ExecuteOnSame(ENV, k, CallInputOf(k, SAME_C), Started, Done);
      && r.1.None? && !SameCheckPasses(ENV, k, SAME_C)
      && Recorded(r.0.output.state) > Recorded(k.output.state)
      && GasStateOf(r.0.metering, "root") == GasStateOf(k.metering, "root")
    ensures var r := RunSmartContractCall(ENV, h, INPUT, Started, COUNTED_TWICE);
      r.err.None? && !r.output.returnCode.Ok?
  {
    hide Ready, Books, ExecuteOnDest, ExecuteOnSame, TotalGas, RunBody, Unpaid, RootStarted, SameCheckPasses,
      AfterB, RunSmartContractCall, Recorded, GasStateOf, CallInputOf, SameUnpaid, DestUnpaid, Distinct,
      LeavesShard, Recipients, Slack, Fresh;
    Begins(h);
    var p := RootStarted(ENV, h, INPUT, Started);
    CallsB(p);
    var k := AfterB(p);
    CallsSameC(k);
    RunsTwice(p);
    RootEnds(h, COUNTED_TWICE, ExecuteOnSame(ENV, k, CallInputOf(k, SAME_C), Started, Done).0);
    TreeOfTwice();
    TransactionConservesGas(ENV, h, INPUT, Started, COUNTED_TWICE);
  }

  // ---------------------------------------------------------------- gas named and not paid for

  const NAMES_GAS := Then(Transfer("b", 0, 5, ""), Done)

  /** A transfer that names a gas limit its sender does not pay for fails the root's check. */
  lemma NamedGasFails(h: Host)
    requires Quiescent(h)
    ensures var r := RunSmartContractCall(ENV, h, INPUT, Started, NAMES_GAS);
      r.err.None? && !r.output.returnCode.Ok?
  {
    hide Ready, Books, TotalGas, RunBody, Unpaid, RootStarted, RunSmartContractCall, Recorded, Slack, Fresh,
      LocalAction, Distinct, LeavesShard, Recipients;
    Begins(h);
    var p := RootStarted(ENV, h, INPUT, Started);
    TransfersNothing(p);
    RootEnds(h, NAMES_GAS, LocalAction(ENV, p, NAMES_GAS.first).host);
    TransactionConservesGas(ENV, h, INPUT, Started, NAMES_GAS);
  }

  lemma TransfersNothing(p: Host)
    requires Ready(ENV, p) && p.runtime.state.vmInput.callType.DirectCall?
    ensures var r := LocalAction(ENV, p, NAMES_GAS.first);
      && r.err.None? && r.host.runtime == p.runtime && r.host.metering == p.metering
      && RunBody(ENV, p, NAMES_GAS) == r && Unpaid(ENV, p, NAMES_GAS) == 5
    ensures Distinct(NAMES_GAS) && LeavesShard(ENV, NAMES_GAS) && Recipients(NAMES_GAS) == {}
  {
    var o := p.output.state;
    var sender := p.runtime.state.scAddress;
    assert "b" in ENV.payable && ENV.payable["b"];
    if sender in o.accounts {
      assert AccountSound(ENV, sender, o.accounts[sender]);
    }
    assert TransferOut(ENV, o, false, "b", sender, 5, 0, 0, "", DirectCall).1.None?;
    var r := LocalAction(ENV, p, NAMES_GAS.first);
    assert RunBody(ENV, r.host, Done) == BodyResult(r.host, None);
    assert Unpaid(ENV, r.host, Done) == 0;
    assert Recipients(Done) == {} && Distinct(Done) && LeavesShard(ENV, Done);
  }

  // ---------------------------------------------------------------- a lost refund

  const ERASE := SetStorage("k", "")
  const ERASES_AND_CALLS := Then(ERASE, Then(CallDest(TO_B), Done))

  /** The contract releases three bytes and is credited for them; the call it then makes succeeds and
      releases nothing, and the refund of the transaction is 0. */
  lemma RefundIsLost(h: Host)
    requires Quiescent(h)
    ensures var w := LocalAction(ENV, RootStarted(ENV, h, INPUT, Started), ERASE).host;
      && w.output.state.gasRefund == Some(3)
      && ExecuteOnDest(ENV, w, CallInputOf(w, TO_B), Started, Done).err.None?
    ensures var out := RunSmartContractCall(ENV, h, INPUT, Started, ERASES_AND_CALLS).output;
      out.returnCode.Ok? && out.gasRefund == Some(0)
  {
    hide Ready, Books, ExecuteOnDest, DestFrame, TotalGas, RunBody, RootUnpaid, RootStarted, RunSmartContractCall,
      Recorded, CallInputOf, Distinct, LeavesShard, Recipients, Slack, Fresh, Exact, LocalAction, AfterB;
    Begins(h);
    var p := RootStarted(ENV, h, INPUT, Started);
    StartedStorage(h);
    Erases(p);
    var w := LocalAction(ENV, p, ERASE).host;
    CallsB(w);
    RefundAfterB(w);
    RunsErases(p);
    RootEnds(h, ERASES_AND_CALLS, AfterB(w));
    TreeOfErases();
    TransactionConservesGas(ENV, h, INPUT, Started, ERASES_AND_CALLS);
    RootRefund(h, ERASES_AND_CALLS, AfterB(w));
  }

  /** When the script starts, nothing of the root's storage is cached and nothing was refunded. */
  lemma StartedStorage(h: Host)
    requires LoadAndStart(ENV, EnterRoot(h, INPUT), Started).err.None?
    ensures var p := RootStarted(ENV, h, INPUT, Started);
      && p.storage.address == "root" && !p.runtime.state.readOnly && p.output.state.gasRefund == Some(0)
      && "root" in p.output.state.accounts && p.output.state.accounts["root"].storage == map[]
  {
  }

  lemma Erases(p: Host)
    requires Running(p) && Recorded(p.output.state) == 0 && PointsUsed(p.runtime) == 0 && Fresh(p, {"b", "c", "d"})
    requires p.storage.address == "root" && !p.runtime.state.readOnly && p.output.state.gasRefund == Some(0)
    requires "root" in p.output.state.accounts && p.output.state.accounts["root"].storage == map[]
    ensures var r := LocalAction(ENV, p, ERASE);
      && r.err.None? && r.host.output.state.gasRefund == Some(3)
      && Running(r.host) && Recorded(r.host.output.state) == 0 && PointsUsed(r.host.runtime) == 0
      && Fresh(r.host, {"b", "c", "d"})
  {
    hide Ready, Books, Recorded, UsedAt, WriteStorage, NoneCleaned, Kept;
    HasInstance(p);
    Written(p);
    LocalActionGas(ENV, p, ERASE, 0);
    LocalActionKept(ENV, p, ERASE);
    var k := LocalAction(ENV, p, ERASE).host;
    KeptReady(ENV, p, k);
    KeptFields(p, k);
  }

  lemma HasInstance(p: Host)
    requires Ready(ENV, p)
    ensures p.runtime.instance.Some? && p.runtime.instance.value < |p.runtime.instances|
  {
  }

  lemma Written(p: Host)
    requires p.runtime.instance.Some? && p.runtime.instance.value < |p.runtime.instances|
    requires PointsUsed(p.runtime) == 0
    requires p.storage.address == "root" && !p.runtime.state.readOnly && p.output.state.gasRefund == Some(0)
    requires "root" in p.output.state.accounts && p.output.state.accounts["root"].storage == map[]
    ensures var (k, _, err) := WriteStorage(ENV, p, "k", "");
      err.None? && k.output.state.gasRefund == Some(3) && PointsUsed(k.runtime) == 0
  {
    assert CachedRead(ENV, p.output.state, "root", "k").1 == "old";
    assert PriceOfChange(ENV, 3, 0) == StorageEffect(0, Some(3), StorageDeleted);
  }

  /** The callee's output starts without a refund, and this callee adds none. */
  lemma RefundAfterB(w: Host)
    requires Running(w) && ExecuteOnDest(ENV, w, CallInputOf(w, TO_B), Started, Done).err.None?
    ensures AfterB(w).output.state.gasRefund == Some(0)
  {
    hide Ready, Books, ExecuteCall, TotalGas, TransferValueOnly;
    var input := CallInputOf(w, TO_B);
    DestCallMerges(ENV, w, input, Started, Done);
    TransferKeepsRefund(EnterDest(w, input).output.state, "b", "root");
    CallKeepsRefund(DestEntry(ENV, w, input).host, input);
    OutputKeepsRefund(DestFrame(ENV, w, input, Started, Done).host);
  }

  lemma TransferKeepsRefund(o: VMOutput, dest: Address, sender: Address)
    ensures TransferValueOnly(ENV, o, false, dest, sender, 0, false).0.gasRefund == o.gasRefund
  {
  }

  lemma CallKeepsRefund(t: Host, input: CallInput)
    ensures ExecuteCall(ENV, t, input, Started, Done).host.output.state.gasRefund == t.output.state.gasRefund
  {
    hide LoadAndStart;
    StartKeepsRefund(UseGasOn(t, input.vmInput.gasProvided));
  }

  lemma StartKeepsRefund(f: Host)
    ensures LoadAndStart(ENV, f, Started).host.output.state.gasRefund == f.output.state.gasRefund
  {
    hide InitialCost;
  }

  lemma OutputKeepsRefund(f: Host)
    ensures GetVMOutput(f).0.output.state.gasRefund == f.output.state.gasRefund
    ensures GetVMOutput(f).1.returnCode.Ok? ==> GetVMOutput(f).1.gasRefund == f.output.state.gasRefund
  {
    hide TotalGas, GasUsedByContract;
  }

  lemma RunsErases(p: Host)
    requires LocalAction(ENV, p, ERASE).err.None?
    ensures RunBody(ENV, p, ERASES_AND_CALLS) == BodyResult(AfterB(LocalAction(ENV, p, ERASE).host), None)
  {
    hide ExecuteOnDest, CallInputOf, LocalAction;
    var rest := Then(CallDest(TO_B), Done);
    var w := LocalAction(ENV, p, ERASE).host;
    assert RunBody(ENV, p, ERASES_AND_CALLS) == RunBody(ENV, w, rest);
    assert RunBody(ENV, w, rest) == RunBody(ENV, AfterB(w), Done);
  }

  lemma TreeOfErases()
    ensures Distinct(ERASES_AND_CALLS) && LeavesShard(ENV, ERASES_AND_CALLS) && Exact(ERASES_AND_CALLS)
    ensures Recipients(ERASES_AND_CALLS) == {"b"}
  {
    var rest := Then(CallDest(TO_B), Done);
    assert Recipients(Done) == {} && Distinct(Done) && LeavesShard(ENV, Done) && Exact(Done);
    assert Called(CallDest(TO_B)) == {"b"} && Called(ERASE) == {};
    assert Recipients(rest) == {"b"} && Distinct(rest) && LeavesShard(ENV, rest) && Exact(rest);
  }

  /** The refund of the transaction is that of the state in which its script ends. */
  lemma RootRefund(h: Host, body: Script, k: Host)
    requires LoadAndStart(ENV, EnterRoot(h, INPUT), Started).err.None?
    requires RunBody(ENV, RootStarted(ENV, h, INPUT, Started), body) == BodyResult(k, None)
    requires PointsUsed(k.runtime) <= k.metering.state.gasForExecution
    ensures var out := RunSmartContractCall(ENV, h, INPUT, Started, body).output;
      out.returnCode.Ok? ==> out.gasRefund == k.output.state.gasRefund
  {
    hide LoadAndStart, EnterRoot, RunBody, GetVMOutput;
    OutputKeepsRefund(k);
  }
}
