/** A contract that is called back while it waits on the stack: what is recorded of its gas. */
module Recursion {
  import opened Overflow
  import opened Wrappers
  import opened Types
  import opened OutputModel
  import opened HostModel
  import opened OutputGrowth
  import opened StorageCache
  import opened Frames
  import opened GasLedger
  import opened GasConservation
  import opened Transactions
  import opened Effects
  import opened TransactionEffects
  import opened GasCosts

  /** Forwarding gas is recorded for the contract that forwards it; it counts as returned to the
      receiver exactly when that is the contract itself or one of those waiting on the stack. Nothing
      else is recorded. */
  lemma ForwardGasRecords(h: Host, source: Address, dest: Address, gas: uint64)
    ensures var k := ForwardGas(h, source, dest, gas);
      var back := dest == source || exists i :: 0 <= i < |h.runtime.stack| && h.runtime.stack[i].scAddress == dest;
      && k == h.(metering := h.metering.(gasStates := k.metering.gasStates))
      && forall a :: GasStateOf(k.metering, a)
                     == GasState(AddUint64(GasStateOf(h.metering, a).forwarded, if a == source then gas else 0),
                                 AddUint64(GasStateOf(h.metering, a).returned, if a == dest && back then gas else 0))
  {
  }

  function Waiting(h: Host, a: Address): bool {
    a == h.runtime.state.scAddress || OnTheStack(h.runtime, a)
  }

  /** What a successful destination call records: the gas its callee spent is forwarded by the caller,
      returned to the callee if that waits below, and the callee's account holds what it used itself. */
  lemma DestCallRecords(env: Env, h: Host, input: CallInput, start: Start, body: Script)
    requires Ready(env, h)
    ensures var me := h.runtime.state.scAddress;
      var f := DestFrame(env, h, input, start, body).host;
      var r := ExecuteOnDest(env, h, input, start, body);
      r.err.None? ==>
        && f.runtime.state.scAddress == input.recipient
        && (forall a :: GasStateOf(r.host.metering, a)
                        == GasState(AddUint64(GasStateOf(f.metering, a).forwarded,
                                              if a == me then GasSpentByContract(f) else 0),
                                    AddUint64(GasStateOf(f.metering, a).returned,
                                              if a == input.recipient && Waiting(h, a) then GasSpentByContract(f)
                                              else 0)))
        && (forall a :: UsedAt(r.host.output.state, a)
                        == if a == input.recipient then GasUsedByContract(f).0 else UsedAt(f.output.state, a))
  {
    hide Ready, Inside, ExecuteCall, DestEntry, LeaveDest, GetVMOutput, GasSpentByContract, GasUsedByContract;
    var f := DestFrame(env, h, input, start, body);
    DestFrameInside(env, h, input, start, body);
    if ExecuteOnDest(env, h, input, start, body).err.None? {
      FrameIsCallees(env, h, input, start, body);
      EndsOk(env, DestEntry(env, h, input).host, Unlocked(input), start, body);
      OutputUsed(f.host);
      OutputInsideToo(env, h, f.host, true);
      var (k, out) := GetVMOutput(f.host);
      SameSpent(f.host, k.output.state);
      LeaveRecords(env, h, k, out);
    }
  }

  lemma SameSpent(f: Host, o: VMOutput)
    ensures GasSpentByContract(WithOutput(f, o)) == GasSpentByContract(f)
  {
  }

  lemma OutputUsed(f: Host)
    requires f.output.state.returnCode.Ok?
    ensures var k := GetVMOutput(f).0;
      && k == WithOutput(f, k.output.state)
      && forall a :: UsedAt(k.output.state, a)
                     == if a == f.runtime.state.scAddress then GasUsedByContract(f).0 else UsedAt(f.output.state, a)
  {
    hide CurrentTotalUsedGas, GasUsedByContract, GasLeft;
  }

  lemma LeaveRecords(env: Env, h: Host, f: Host, out: VMOutput)
    requires Ready(env, h) && Inside(env, h, f, true) && out.returnCode.Ok?
    ensures var k := LeaveDest(f, out);
      var child := f.runtime.state.scAddress;
      && (forall a :: GasStateOf(k.metering, a)
                      == GasState(AddUint64(GasStateOf(f.metering, a).forwarded,
                                            if a == h.runtime.state.scAddress then GasSpentByContract(f) else 0),
                                  AddUint64(GasStateOf(f.metering, a).returned,
                                            if a == child && Waiting(h, a) then GasSpentByContract(f) else 0)))
      && (forall a :: UsedAt(k.output.state, a) == UsedAt(f.output.state, a))
  {
    hide Grows, PopMerge, LiveCount, ForwardGas, GasSpentByContract, SetPointsUsed;
    SoundWhenReady(env, h);
    PopRuntimeInside(h.runtime, f.runtime);
    MergedLedger(env, h.output.state, f.output.state);
    var popped := f.(bigInt := PopBigInt(f.bigInt), metering := PopMetering(f.metering),
                     runtime := PopRuntime(f.runtime), storage := PopStorage(f.storage));
    var restored := RestoreGas(popped, out.gasRemaining);
    SameStack(popped, out.gasRemaining);
    var (me, child, spent) := (h.runtime.state.scAddress, f.runtime.state.scAddress, GasSpentByContract(f));
    ForwardGasRecords(restored, me, child, spent);
    var k := LeaveDest(f, out);
    assert k.output.state == PopMerge(h.output.state, f.output.state);
    assert restored.runtime.stack == h.runtime.stack && restored.runtime.state.scAddress == me;
    forall a
      ensures GasStateOf(k.metering, a)
              == GasState(AddUint64(GasStateOf(f.metering, a).forwarded, if a == me then spent else 0),
                          AddUint64(GasStateOf(f.metering, a).returned,
                                    if a == child && Waiting(h, a) then spent else 0))
    {
      assert GasStateOf(k.metering, a) == GasStateOf(ForwardGas(restored, me, child, spent).metering, a);
      assert GasStateOf(restored.metering, a) == GasStateOf(f.metering, a);
    }
  }

  lemma SameStack(h: Host, gas: uint64)
    ensures var k := RestoreGas(h, gas);
      && k.runtime.stack == h.runtime.stack && k.runtime.state == h.runtime.state && k.metering == h.metering
      && k.output == h.output
  {
  }

  lemma FrameIsCallees(env: Env, h: Host, input: CallInput, start: Start, body: Script)
    requires Ready(env, h)
    ensures var f := DestFrame(env, h, input, start, body);
      f.err.None? ==> f.host.runtime.state.scAddress == input.recipient
  {
    hide Ready, Inside, ExecuteCall, DestEntry;
    DestEntryInside(env, h, input);
    EntryAddress(env, h, input);
    CallAddress(env, h, DestEntry(env, h, input).host, Unlocked(input), start, body);
  }

  lemma CallAddress(env: Env, h: Host, t: Host, input: CallInput, start: Start, body: Script)
    requires Ready(env, h) && Inside(env, h, t, true)
    requires |t.runtime.instances| == |h.runtime.instances| && t.runtime.instance == h.runtime.instance
    ensures ExecuteCall(env, t, input, start, body).host.runtime.state.scAddress == t.runtime.state.scAddress
  {
    hide Ready, Inside, Kept, Prepare, RunBody, Unseen;
    PrepareUnseen(env, t, input, start);
    PrepareInside(env, h, t, true, input, start);
    var p := Prepare(env, t, input, start);
    if p.err.None? {
      BodyKept(env, p.host, body);
      SelfKept(env, p.host, RunBody(env, p.host, body).host);
    }
  }

  lemma EntryAddress(env: Env, h: Host, input: CallInput)
    ensures DestEntry(env, h, input).host.runtime.state.scAddress == input.recipient
  {
    hide TransferValueOnly, CurrentTotalUsedGas, Snapshot;
  }

  // ---------------------------------------------------------------- frames that make no call

  predicate NoCalls(s: Script) {
    s.Done? || (!s.first.CallDest? && !s.first.CallSame? && !s.first.Async? && NoCalls(s.rest))
  }

  /** Nothing is recorded between h and k. */
  ghost predicate SameRecords(h: Host, k: Host) {
    && k.metering.gasStates == h.metering.gasStates
    && (forall a :: UsedAt(k.output.state, a) == UsedAt(h.output.state, a))
  }

  lemma LocalRecords(env: Env, h: Host, a: Action)
    requires Ready(env, h) && PointsUsed(h.runtime) <= MAX_I64
    requires !a.CallDest? && !a.CallSame? && !a.Async?
    ensures var r := LocalAction(env, h, a); r.err.None? ==> SameRecords(h, r.host)
  {
    hide Ready, TransferOut, WriteStorage, ReadStorage, ReadStorageFromAddress, UseGasOn;
    if a.Transfer? {
      TransferOutLedger(env, h.output.state, h.runtime.state.vmInput.callType.AsynchronousCall?, a.destination,
                        h.runtime.state.scAddress, a.gasLimit, 0, a.amount, a.data, DirectCall);
    } else if a.SetStorage? || a.GetStorage? || a.GetStorageFromAddress? {
      StorageCalm(env, h, a);
    } else if a.UseGas? {
      CallerInstance(env, h);
      UseGasCalm(h, a.gas);
    }
  }

  lemma {:induction false} BodyRecords(env: Env, h: Host, s: Script)
    requires Ready(env, h) && Metered(h) && NoCalls(s)
    ensures var r := RunBody(env, h, s); r.err.None? ==> SameRecords(h, r.host)
    decreases s
  {
    hide Ready, Kept, LocalAction, PointsUsed, UsedAt;
    if s.Then? {
      LocalRecords(env, h, s.first);
      LocalActionKept(env, h, s.first);
      LocalUses(env, h, s.first);
      var r := LocalAction(env, h, s.first);
      if r.err.None? {
        SelfKept(env, h, r.host);
        GasKept(env, h, r.host);
        BodyRecords(env, r.host, s.rest);
      }
    }
  }

  /** The host in which a callee's body starts. */
  ghost function CalleeStarts(env: Env, h: Host, c: Call): BodyResult {
    var input := CallInputOf(h, c);
    Prepare(env, DestEntry(env, h, input).host, input, c.start)
  }

  lemma CalleeStartsFresh(env: Env, h: Host, c: Call)
    requires Ready(env, h) && Metered(h)
    ensures var p := CalleeStarts(env, h, c);
      p.err.None? ==>
        && Ready(env, p.host) && Metered(p.host) && SameRecords(h, p.host) && PointsUsed(p.host.runtime) == 0
        && p.host.runtime.state.scAddress == c.recipient
        && p.host.runtime.stack == h.runtime.stack + [h.runtime.state]
        && p.host.metering.state.initialCost == LoadCost(env, c.recipient)
  {
    hide Ready, Inside, LoadAndStart, LoadCost, Kept, UsedAt;
    var input := CallInputOf(h, c);
    InputOfCall(h, c);
    InputWithin(h, c);
    DestEntryInside(env, h, input);
    DestEntryGas(env, h, input);
    DestEntryFields(env, h, input);
    var t := DestEntry(env, h, input).host;
    PreparePoints(env, h, t, true, input, c.start);
    PrepareInside(env, h, t, true, input, c.start);
    PrepareRecords(env, h, t, input, c.start);
    if CalleeStarts(env, h, c).err.None? {
      PreparedCost(env, h, t, true, input, c.start);
    }
  }

  lemma PrepareRecords(env: Env, h: Host, t: Host, input: CallInput, start: Start)
    requires Inside(env, h, t, true) && t.runtime.state.vmInput == input.vmInput
    requires t.metering.state == GasTriple(input.vmInput.gasProvided, 0, input.vmInput.gasProvided)
    ensures var p := Prepare(env, t, input, start).host;
      SameRecords(t, p) && p.runtime.state == t.runtime.state && p.runtime.stack == t.runtime.stack
  {
    hide LoadAndStart;
    InsideIsSound(env, h, t, true);
    LoadAndStartGas(env, UseGasOn(t, input.vmInput.gasProvided), start);
  }

  ghost function Callee(env: Env, h: Host, c: Call): Host {
    DestFrame(env, h, CallInputOf(h, c), c.start, c.body).host
  }

  ghost function Called(env: Env, h: Host, c: Call): CallResult {
    ExecuteOnDest(env, h, CallInputOf(h, c), c.start, c.body)
  }

  ghost predicate FrameEnds(env: Env, h: Host, c: Call) {
    DestFrame(env, h, CallInputOf(h, c), c.start, c.body).err.None?
  }

  lemma SuccessEnds(env: Env, h: Host, c: Call)
    requires Called(env, h, c).err.None?
    ensures FrameEnds(env, h, c)
  {
    hide DestFrame, LeaveDest, GetVMOutput;
  }

  /** A callee's frame ends as its body does. */
  lemma CalleeEnds(env: Env, h: Host, c: Call)
    requires Ready(env, h) && FrameEnds(env, h, c)
    ensures var p := CalleeStarts(env, h, c);
      && p.err.None? && Callee(env, h, c).output.state.returnCode.Ok?
      && (c.start.FunctionMissing? ==> Callee(env, h, c) == p.host)
      && (!c.start.FunctionMissing? ==>
            RunBody(env, p.host, c.body).err.None? && Callee(env, h, c) == RunBody(env, p.host, c.body).host)
  {
    hide DestEntry, Prepare, RunBody, CallInputOf;
    InputOfCall(h, c);
    var input := CallInputOf(h, c);
    assert Unlocked(input) == input;
    var t := DestEntry(env, h, input);
    assert DestFrame(env, h, input, c.start, c.body) == ExecuteCall(env, t.host, input, c.start, c.body);
  }

  /** A callee that makes no calls leaves all records to the end of its frame. */
  lemma LeafRecords(env: Env, h: Host, c: Call)
    requires Ready(env, h) && Metered(h) && NoCalls(c.body) && FrameEnds(env, h, c)
    ensures SameRecords(h, Callee(env, h, c))
  {
    hide Ready, ExecuteOnDest, DestFrame, CalleeStarts, RunBody, UsedAt;
    CalleeEnds(env, h, c);
    CalleeStartsFresh(env, h, c);
    if !c.start.FunctionMissing? {
      BodyRecords(env, CalleeStarts(env, h, c).host, c.body);
    }
  }

  function Left(spent: uint64, s: GasState): uint64 {
    SubUint64(spent, SubUint64(s.forwarded, s.returned).0).0
  }

  /** A contract calls another, which calls it back: what the inner run spent is forwarded by the
      contract in the middle and counts as returned to the one that waits, while what the middle one
      spent, the inner run included, counts as forwarded to it. */
  lemma RecursiveCall(env: Env, h: Host, c: Call, back: Call, rest: Script)
    requires Ready(env, h) && Metered(h) && c.body == Then(CallDest(back), rest) && !c.start.FunctionMissing?
    requires back.recipient == h.runtime.state.scAddress != c.recipient && NoCalls(back.body) && NoCalls(rest)
    ensures var q := CalleeStarts(env, h, c).host;
      var me := h.runtime.state.scAddress;
      Called(env, h, c).err.None? && Called(env, q, back).err.None? ==>
        var (k, inner, spent) := (Called(env, h, c).host, GasSpentByContract(Callee(env, q, back)),
                                  GasSpentByContract(Callee(env, h, c)));
        var (mine, its) := (GasStateOf(h.metering, me), GasStateOf(h.metering, c.recipient));
        && GasStateOf(k.metering, me)
           == GasState(AddUint64(mine.forwarded, spent), AddUint64(mine.returned, inner))
        && UsedAt(k.output.state, me) == Left(inner, mine)
        && UsedAt(k.output.state, c.recipient)
           == Left(spent, its.(forwarded := AddUint64(its.forwarded, inner)))
        && GasStateOf(Callee(env, h, c).metering, c.recipient)
           == its.(forwarded := AddUint64(its.forwarded, inner))
  {
    hide Ready, ExecuteOnDest, DestFrame, CalleeStarts, RunBody, UsedAt, GasSpentByContract, GasUsedByContract,
      GasStateOf, OnTheStack, Left;
    var q := CalleeStarts(env, h, c).host;
    if Called(env, h, c).err.None? && Called(env, q, back).err.None? {
      SuccessEnds(env, h, c);
      SuccessEnds(env, q, back);
      CalleeEnds(env, h, c);
      CalleeStartsFresh(env, h, c);
      WaitsBelow(h, q);
      LeafRecords(env, q, back);
      DestCallRecords(env, q, CallInputOf(q, back), back.start, back.body);
      AfterInner(env, q, back, rest);
      DestCallRecords(env, h, CallInputOf(h, c), c.start, c.body);
      var k1 := Called(env, q, back).host;
      assert SameRecords(k1, Callee(env, h, c));
      SameStates(h, q);
      SameStates(q, Callee(env, q, back));
      SameStates(k1, Callee(env, h, c));
      UsedIsLeft(Callee(env, q, back));
      UsedIsLeft(Callee(env, h, c));
    }
  }

  lemma WaitsBelow(h: Host, q: Host)
    requires q.runtime.stack == h.runtime.stack + [h.runtime.state]
    ensures Waiting(q, h.runtime.state.scAddress)
  {
    assert q.runtime.stack[|h.runtime.stack|] == h.runtime.state;
  }

  lemma SameStates(h: Host, k: Host)
    requires SameRecords(h, k)
    ensures forall a :: GasStateOf(k.metering, a) == GasStateOf(h.metering, a)
  {
  }

  lemma UsedIsLeft(f: Host)
    ensures GasUsedByContract(f).0 == Left(GasSpentByContract(f), GasStateOf(f.metering, f.runtime.state.scAddress))
  {
    hide GasSpentByContract;
  }

  /** What the middle contract does after the inner run. */
  lemma AfterInner(env: Env, q: Host, back: Call, rest: Script)
    requires Ready(env, q) && Metered(q) && NoCalls(rest)
    ensures var k := Called(env, q, back).host;
      && RunBody(env, q, Then(CallDest(back), rest)) == RunBody(env, k, rest)
      && (RunBody(env, k, rest).err.None? ==> SameRecords(k, RunBody(env, k, rest).host))
  {
    hide Ready, Kept, ExecuteOnDest, UsedAt, RolledBack, PointsUsed, SameRecords;
    var k := Called(env, q, back).host;
    InputWithin(q, back);
    DestPoints(env, q, CallInputOf(q, back), back.start, back.body);
    DestCallKept(env, q, CallInputOf(q, back), back.start, back.body);
    SelfKept(env, q, k);
    GasKept(env, q, k);
    BodyRecords(env, k, rest);
  }

  /** So when the outer run of a contract that forwarded nothing else ends, it is recorded with what it
      spent itself, in both runs, and the middle contract with what it spent itself. */
  lemma RecursionCounts(k: Host, inner: uint64, spent: uint64)
    requires GasStateOf(k.metering, k.runtime.state.scAddress) == GasState(spent, inner)
    requires inner <= spent <= GasSpentByContract(k)
    ensures GasUsedByContract(k) == (GasSpentByContract(k) - spent + inner, 0)
  {
  }

  // ---------------------------------------------------------------- a whole transaction

  /** A successful call costs its caller what the callee spent. */
  lemma CallSpends(env: Env, h: Host, c: Call)
    requires Ready(env, h) && Metered(h) && Called(env, h, c).err.None?
    requires GasUsedByContract(Callee(env, h, c)).1 == 0
    ensures var (k, f) := (Called(env, h, c).host, Callee(env, h, c));
      && PointsUsed(k.runtime) == PointsUsed(h.runtime) + GasSpentByContract(f) <= MAX_I64
      && PointsUsed(f.runtime) <= GasSpentByContract(f)
  {
    hide Ready, Inside, DestFrame, CalleeStarts, RunBody, GetVMOutput, LeaveDest, GasUsedByContract, Kept, DestEntry,
      ExecuteOnDest;
    var input := CallInputOf(h, c);
    InputWithin(h, c);
    DestPoints(env, h, input, c.start, c.body);
    CallAccepted(env, h, c);
    SuccessEnds(env, h, c);
    CalleeGas(env, h, c);
    CalleeStopped(env, h, c);
  }

  /** A successful call was not refused, and its output is that of its frame. */
  lemma CallAccepted(env: Env, h: Host, c: Call)
    requires Called(env, h, c).err.None? && Ready(env, h)
    ensures var input := CallInputOf(h, c);
      var f := Callee(env, h, c);
      && !Refused(DestEntry(env, h, input), input)
      && f.output.state.returnCode.Ok? && Called(env, h, c).output == GetVMOutput(f).1
      && Called(env, h, c).output.gasRemaining == SubUint64(GasLeft(f), GasUsedByContract(f).1).0
  {
    hide DestEntry, RunBody, LeaveDest, LoadAndStart, GetVMOutput, GasUsedByContract, CallInputOf, GasLeft;
    InputOfCall(h, c);
    var input := CallInputOf(h, c);
    EndsOk(env, DestEntry(env, h, input).host, input, c.start, c.body);
    OutputLeaves(Callee(env, h, c));
    EntryFunction(env, h, input);
  }

  lemma EntryFunction(env: Env, h: Host, input: CallInput)
    ensures DestEntry(env, h, input).host.runtime.state.callFunction == input.callFunction
  {
    hide TransferValueOnly, CurrentTotalUsedGas, Snapshot;
  }

  lemma CalleeGas(env: Env, h: Host, c: Call)
    requires Ready(env, h) && Metered(h) && FrameEnds(env, h, c)
    ensures var (f, g) := (Callee(env, h, c), CallInputOf(h, c).vmInput.gasProvided);
      && f.metering.state.initialCost + f.metering.state.gasForExecution == g <= MAX_I64
      && f.metering.state.initialGasProvided == g
  {
    hide Ready, Inside, Prepare, RunBody, DestEntry, Kept, DestFrame, ExecuteOnDest;
    var input := CallInputOf(h, c);
    InputWithin(h, c);
    CalleeEnds(env, h, c);
    DestEntryInside(env, h, input);
    DestEntryFields(env, h, input);
    var t := DestEntry(env, h, input).host;
    PreparePoints(env, h, t, true, input, c.start);
    PrepareInside(env, h, t, true, input, c.start);
    var p := Prepare(env, t, input, c.start).host;
    if !c.start.FunctionMissing? {
      BodyKept(env, p, c.body);
      GasKept(env, p, RunBody(env, p, c.body).host);
    }
  }

  lemma CalleeStopped(env: Env, h: Host, c: Call)
    requires FrameEnds(env, h, c)
    ensures PointsUsed(Callee(env, h, c).runtime) <= Callee(env, h, c).metering.state.gasForExecution
  {
    hide DestEntry, RunBody, Prepare, CallInputOf, PointsUsed;
    InputOfCall(h, c);
    var input := CallInputOf(h, c);
    assert DestFrame(env, h, input, c.start, c.body)
           == ExecuteCall(env, DestEntry(env, h, input).host, input, c.start, c.body);
  }

  /** A contract that is called back after it had forwarded gas is taken to have forwarded more than it
      spent, and the difference is taken from the gas that its caller gets back: the call costs as much
      more than the callee spent, as long as gas is left. */
  lemma CallBackOvercharges(env: Env, q: Host, back: Call)
    requires Ready(env, q) && Metered(q) && NoCalls(back.body) && Called(env, q, back).err.None?
    ensures var (k, g) := (Called(env, q, back).host, Callee(env, q, back));
      var (inner, forwarded) := (GasSpentByContract(g), TotalForwarded(q.metering, back.recipient));
      var excess := if forwarded > inner then forwarded - inner else 0;
      PointsUsed(k.runtime)
      == PointsUsed(q.runtime) + inner + if excess > GasLeft(g) then GasLeft(g) else excess
  {
    hide Ready, DestFrame, ExecuteOnDest, Kept, DestEntry, CalleeStarts, PointsUsed, UsedAt, Callee, Called;
    InputWithin(q, back);
    SuccessEnds(env, q, back);
    LeafRecords(env, q, back);
    SameStates(q, Callee(env, q, back));
    CalleeAddress(env, q, back);
    CallAccepted(env, q, back);
    CalleeGas(env, q, back);
    CalleeStopped(env, q, back);
    CallCharged(env, q, back);
  }

  lemma CallCharged(env: Env, h: Host, c: Call)
    requires Ready(env, h) && Metered(h) && Called(env, h, c).err.None?
    ensures var r := Called(env, h, c);
      PointsUsed(r.host.runtime)
      == PointsUsed(h.runtime) + CallInputOf(h, c).vmInput.gasProvided - r.output.gasRemaining
  {
    hide Ready, ExecuteOnDest, DestEntry, CallInputOf;
    InputWithin(h, c);
    DestPoints(env, h, CallInputOf(h, c), c.start, c.body);
    CallAccepted(env, h, c);
  }

  /** What a successful call adds to the gas recorded. */
  lemma CallRecorded(env: Env, h: Host, c: Call)
    requires Ready(env, h) && Called(env, h, c).err.None? && GasUsedByContract(Callee(env, h, c)).1 == 0
    ensures var (k, f) := (Called(env, h, c).host, Callee(env, h, c));
      Recorded(k.output.state)
      == Recorded(f.output.state) - UsedAt(f.output.state, c.recipient) + GasUsedByContract(f).0
  {
    hide Ready, Inside, ExecuteCall, DestEntry, GetVMOutput, GasUsedByContract, TotalGas, LeaveDest;
    var input := CallInputOf(h, c);
    InputOfCall(h, c);
    CallAccepted(env, h, c);
    DestFrameInside(env, h, input, c.start, c.body);
    FrameIsCallees(env, h, input, c.start, c.body);
    var f := Callee(env, h, c);
    GetVMOutputLedger(f);
    OutputInsideToo(env, h, f, true);
    MergedRecorded(env, h, GetVMOutput(f).0, GetVMOutput(f).1);
  }

  lemma MergedRecorded(env: Env, h: Host, f: Host, out: VMOutput)
    requires Ready(env, h) && Inside(env, h, f, true) && out.returnCode.Ok?
    ensures Recorded(LeaveDest(f, out).output.state) == Recorded(f.output.state)
  {
    hide PopMerge, ForwardGas, RestoreGas, PopRuntime, TotalGas, FrameInstances, LiveCount;
    SoundWhenReady(env, h);
    MergedLedger(env, h.output.state, f.output.state);
  }

  /** Scripts without calls whose transfers name no gas record nothing. */
  lemma {:induction false} BodyRecordsNothing(env: Env, h: Host, s: Script)
    requires Ready(env, h) && Metered(h) && NoCalls(s) && Exact(s)
    ensures var r := RunBody(env, h, s); r.err.None? ==> Recorded(r.host.output.state) == Recorded(h.output.state)
    decreases s
  {
    hide Ready, Kept, LocalAction, PointsUsed, TotalGas;
    if s.Then? {
      LocalRecordsNothing(env, h, s.first);
      LocalActionKept(env, h, s.first);
      LocalUses(env, h, s.first);
      var r := LocalAction(env, h, s.first);
      if r.err.None? {
        SelfKept(env, h, r.host);
        GasKept(env, h, r.host);
        BodyRecordsNothing(env, r.host, s.rest);
      }
    }
  }

  lemma LocalRecordsNothing(env: Env, h: Host, a: Action)
    requires Ready(env, h) && PointsUsed(h.runtime) <= MAX_I64 && NamedGas(a) == 0
    requires !a.CallDest? && !a.CallSame? && !a.Async?
    ensures var r := LocalAction(env, h, a); r.err.None? ==> Recorded(r.host.output.state) == Recorded(h.output.state)
  {
    hide Ready, TransferOut, WriteStorage, ReadStorage, ReadStorageFromAddress, UseGasOn, TotalGas;
    if a.Transfer? {
      var (async, me) := (h.runtime.state.vmInput.callType.AsynchronousCall?, h.runtime.state.scAddress);
      TransferOutLedger(env, h.output.state, async, a.destination, me, a.gasLimit, 0, a.amount, a.data, DirectCall);
      var (o, err) :=
        TransferOut(env, h.output.state, async, a.destination, me, a.gasLimit, 0, a.amount, a.data, DirectCall);
      assert err.None? ==> LocalAction(env, h, a).host == WithOutput(h, o);
    } else if a.SetStorage? || a.GetStorage? || a.GetStorageFromAddress? {
      StorageCalm(env, h, a);
      if LocalAction(env, h, a).err.None? {
        SameLedgerRecorded(h.output.state, LocalAction(env, h, a).host.output.state);
      }
    } else if a.UseGas? {
      CallerInstance(env, h);
      UseGasCalm(h, a.gas);
      SameLedgerRecorded(h.output.state, UseGasOn(h, a.gas).output.state);
    }
  }

  /** The middle contract's frame, when nothing was forwarded or recorded before: its books balance. */
  lemma MiddleBooks(env: Env, p: Host, c: Call, back: Call, rest: Script)
    requires Ready(env, p) && Metered(p) && Books(env, p, 0) && Slack(p, 0) == 0 && Fresh(p, {c.recipient})
    requires GasStateOf(p.metering, p.runtime.state.scAddress) == GasState(0, 0)
    requires c.body == Then(CallDest(back), rest) && !c.start.FunctionMissing? && FrameEnds(env, p, c)
    requires back.recipient == p.runtime.state.scAddress != c.recipient && NoCalls(back.body) && NoCalls(rest)
    requires Exact(back.body) && Exact(rest)
    ensures var f := Callee(env, p, c);
      && Books(env, f, 0) && f.runtime.state.scAddress == c.recipient
      && Recorded(f.output.state) == GasStateOf(f.metering, c.recipient).forwarded
  {
    hide Ready, Inside, DestFrame, ExecuteOnDest, RunBody, TotalGas, DestEntry, Prepare, Unpaid;
    var input := CallInputOf(p, c);
    InputOfCall(p, c);
    InputWithin(p, c);
    CalleeEnds(env, p, c);
    DestEntryInside(env, p, input);
    DestEntryGas(env, p, input);
    PrepareGas(env, p, DestEntry(env, p, input).host, true, input, c.start);
    CalleeStartsFresh(env, p, c);
    var q := CalleeStarts(env, p, c).host;
    TreeOfMiddle(env, c, back, rest);
    BodyGas(env, q, c.body, 0);
    ExactIsPaid(env, q, c.body);
    BodyKept(env, q, c.body);
    SelfKept(env, q, Callee(env, p, c));
  }

  lemma {:induction false} TreeOfLeaf(env: Env, s: Script)
    requires NoCalls(s)
    ensures Recipients(s) == {} && Distinct(s) && LeavesShard(env, s)
  {
    if s.Then? {
      TreeOfLeaf(env, s.rest);
    }
  }

  lemma TreeOfMiddle(env: Env, c: Call, back: Call, rest: Script)
    requires c.body == Then(CallDest(back), rest) && NoCalls(back.body) && NoCalls(rest)
    requires Exact(back.body) && Exact(rest)
    ensures Recipients(c.body) == {back.recipient} && Distinct(c.body) && LeavesShard(env, c.body) && Exact(c.body)
  {
    TreeOfLeaf(env, back.body);
    TreeOfLeaf(env, rest);
    assert GasConservation.Called(CallDest(back)) == {back.recipient} + Recipients(back.body);
  }

  /** A callee that ends without error, and has recorded only what it forwarded, passes its check when
      nothing was recorded before. */
  lemma BalancedCallSucceeds(env: Env, h: Host, c: Call)
    requires Ready(env, h) && Metered(h) && FrameEnds(env, h, c)
    requires var f := Callee(env, h, c);
      && f.runtime.state.scAddress == c.recipient && UsedAt(f.output.state, c.recipient) == 0
      && Recorded(f.output.state) == TotalForwarded(f.metering, c.recipient) <= GasSpentByContract(f)
    ensures Called(env, h, c).err.None?
  {
    hide Ready, FrameEnds, Callee, Called, GetVMOutput, CallInputOf, GasSpentByContract, GasLeft, PointsUsed;
    var f := Callee(env, h, c);
    CalleeEnds(env, h, c);
    CalleeGas(env, h, c);
    CalleeStopped(env, h, c);
    OutputDecides(env, h, c);
    BalancedOutput(f);
  }

  lemma OutputDecides(env: Env, h: Host, c: Call)
    requires FrameEnds(env, h, c)
    ensures Called(env, h, c).err.None? <==> GetVMOutput(Callee(env, h, c)).1.returnCode.Ok?
  {
    hide DestFrame, GetVMOutput, LeaveDest;
  }

  lemma BalancedOutput(f: Host)
    requires var a := f.runtime.state.scAddress;
      && f.output.state.returnCode.Ok? && UsedAt(f.output.state, a) == 0
      && Recorded(f.output.state) == TotalForwarded(f.metering, a) <= GasSpentByContract(f)
    requires PointsUsed(f.runtime) <= f.metering.state.gasForExecution
    requires f.metering.state.initialCost + f.metering.state.gasForExecution <= MAX_I64
    requires f.metering.state.initialCost + f.metering.state.gasForExecution <= f.metering.state.initialGasProvided
    ensures GetVMOutput(f).1.returnCode.Ok?
  {
    hide GetVMOutput, TotalGas, UsedAt, TotalForwarded;
    GetVMOutputLedger(f);
  }

  /** The root contract's host when its script has ended, before its own gas is recorded. */
  ghost predicate AfterRecursion(p: Host, f: Host, other: Address, inner: uint64, spent: uint64) {
    var me := p.runtime.state.scAddress;
    && f.runtime.state.scAddress == me && f.metering.state == p.metering.state && f.metering.totalUsedGas == 0
    && GasStateOf(f.metering, me) == GasState(spent, inner)
    && UsedAt(f.output.state, me) == inner && UsedAt(f.output.state, other) == spent - inner
    && Recorded(f.output.state) == spent && inner <= spent <= PointsUsed(f.runtime)
    && f.output.state.returnCode.Ok?
  }

  lemma RootRecursion(env: Env, p: Host, c: Call, after: Script, back: Call, rest: Script)
    requires Ready(env, p) && Metered(p) && Books(env, p, 0) && Slack(p, 0) == 0 && p.metering.totalUsedGas == 0
    requires Fresh(p, {p.runtime.state.scAddress, c.recipient})
    requires c.body == Then(CallDest(back), rest) && !c.start.FunctionMissing?
    requires back.recipient == p.runtime.state.scAddress != c.recipient
    requires NoCalls(back.body) && NoCalls(rest) && NoCalls(after) && Exact(back.body) && Exact(rest) && Exact(after)
    requires FrameEnds(env, p, c) && FrameEnds(env, CalleeStarts(env, p, c).host, back)
    requires RunBody(env, p, Then(CallDest(c), after)).err.None?
    ensures Called(env, p, c).err.None? && Called(env, CalleeStarts(env, p, c).host, back).err.None?
    ensures var (inner, spent) := (GasSpentByContract(Callee(env, CalleeStarts(env, p, c).host, back)),
                                   GasSpentByContract(Callee(env, p, c)));
      AfterRecursion(p, RunBody(env, p, Then(CallDest(c), after)).host, c.recipient, inner, spent)
  {
    hide Ready, TotalGas, RunBody, GasSpentByContract, CalleeStarts, Callee, Called, UsedAt, FrameEnds, Books, Fresh,
      Metered, Slack, NoCalls, Exact, Recorded, Left, PointsUsed;
    RootStates(env, p, c.recipient);
    var q := CalleeStarts(env, p, c).host;
    var (g, f1, k) := (Callee(env, q, back), Callee(env, p, c), Called(env, p, c).host);
    MiddleBooks(env, p, c, back, rest);
    InnerSucceeds(env, p, c, back);
    MiddleForwards(env, f1);
    BalancedCallSucceeds(env, p, c);
    RecursiveCall(env, p, c, back, rest);
    MiddleUsed(env, f1, GasSpentByContract(g));
    CallSpends(env, p, c);
    CallRecorded(env, p, c);
    AfterCall(env, p, c, after);
  }

  lemma RootStates(env: Env, p: Host, other: Address)
    requires Books(env, p, 0) && Fresh(p, {p.runtime.state.scAddress, other})
    ensures Fresh(p, {p.runtime.state.scAddress}) && Fresh(p, {other}) && p.output.state.returnCode.Ok?
    ensures GasStateOf(p.metering, p.runtime.state.scAddress) == GasStateOf(p.metering, other) == GasState(0, 0)
  {
  }

  lemma InnerSucceeds(env: Env, p: Host, c: Call, back: Call)
    requires Ready(env, p) && Metered(p) && Books(env, p, 0) && Slack(p, 0) == 0
    requires Fresh(p, {p.runtime.state.scAddress}) && back.recipient == p.runtime.state.scAddress
    requires NoCalls(back.body) && Exact(back.body)
    requires FrameEnds(env, p, c) && FrameEnds(env, CalleeStarts(env, p, c).host, back)
    ensures Called(env, CalleeStarts(env, p, c).host, back).err.None?
  {
    hide Ready, TotalGas, GasSpentByContract, CalleeStarts, Callee, Called, FrameEnds, UsedAt, Kept, LoadCost,
      PointsUsed;
    CalleeEnds(env, p, c);
    CalleeStartsFresh(env, p, c);
    StartRecorded(env, p, c);
    var q := CalleeStarts(env, p, c).host;
    LeafRecords(env, q, back);
    LeafRecordsNothing(env, q, back);
    SameStates(p, q);
    SameStates(q, Callee(env, q, back));
    CalleeAddress(env, q, back);
    BalancedCallSucceeds(env, q, back);
  }

  lemma CalleeAddress(env: Env, h: Host, c: Call)
    requires Ready(env, h) && FrameEnds(env, h, c)
    ensures Callee(env, h, c).runtime.state.scAddress == c.recipient
  {
    hide DestFrame;
    InputOfCall(h, c);
    FrameIsCallees(env, h, CallInputOf(h, c), c.start, c.body);
  }

  lemma StartRecorded(env: Env, h: Host, c: Call)
    requires Ready(env, h) && CalleeStarts(env, h, c).err.None?
    ensures Recorded(CalleeStarts(env, h, c).host.output.state) == Recorded(h.output.state)
  {
    hide LoadAndStart, TotalGas, Ready, Inside, DestEntry, UseGasOn;
    var input := CallInputOf(h, c);
    InputOfCall(h, c);
    DestEntryGas(env, h, input);
    DestEntryInside(env, h, input);
    var t := DestEntry(env, h, input).host;
    InsideIsSound(env, h, t, true);
    StartLedger(env, UseGasOn(t, input.vmInput.gasProvided), c.start);
    SameGasOutput(t, input.vmInput.gasProvided);
  }

  lemma SameGasOutput(t: Host, gas: uint64)
    ensures UseGasOn(t, gas).output == t.output
  {
  }

  lemma StartLedger(env: Env, f: Host, start: Start)
    ensures Recorded(LoadAndStart(env, f, start).host.output.state) == Recorded(f.output.state)
  {
    hide TotalGas, GetCode, InitialCost, StartInstance;
    GetCodeLedger(env, f.output.state, f.runtime.state.scAddress);
    SameLedgerRecorded(f.output.state, GetCode(env, f.output.state, f.runtime.state.scAddress).0);
  }

  lemma LeafRecordsNothing(env: Env, h: Host, c: Call)
    requires Ready(env, h) && Metered(h) && NoCalls(c.body) && Exact(c.body) && FrameEnds(env, h, c)
    ensures Recorded(Callee(env, h, c).output.state) == Recorded(h.output.state)
  {
    hide Ready, CalleeStarts, RunBody, TotalGas, FrameEnds, Callee;
    CalleeEnds(env, h, c);
    CalleeStartsFresh(env, h, c);
    StartRecorded(env, h, c);
    if !c.start.FunctionMissing? {
      BodyRecordsNothing(env, CalleeStarts(env, h, c).host, c.body);
    }
  }

  lemma MiddleForwards(env: Env, f: Host)
    requires Books(env, f, 0)
    ensures UsedAt(f.output.state, f.runtime.state.scAddress) == 0
    ensures TotalForwarded(f.metering, f.runtime.state.scAddress)
            == GasStateOf(f.metering, f.runtime.state.scAddress).forwarded <= GasSpentByContract(f)
  {
    hide TotalGas;
  }

  lemma MiddleUsed(env: Env, f: Host, inner: uint64)
    requires Books(env, f, 0) && GasStateOf(f.metering, f.runtime.state.scAddress).forwarded == inner
    ensures inner <= GasSpentByContract(f) && GasUsedByContract(f) == (GasSpentByContract(f) - inner, 0)
    ensures UsedAt(f.output.state, f.runtime.state.scAddress) == 0
    ensures Left(GasSpentByContract(f), GasState(inner, 0)) == GasSpentByContract(f) - inner
    ensures Left(inner, GasState(0, 0)) == inner
  {
    hide TotalGas;
  }

  /** What a contract does after a call, making no other: nothing more is recorded. */
  lemma AfterCall(env: Env, p: Host, c: Call, after: Script)
    requires Ready(env, p) && Metered(p) && p.metering.totalUsedGas == 0 && p.output.state.returnCode.Ok?
    requires NoCalls(after) && Exact(after) && RunBody(env, p, Then(CallDest(c), after)).err.None?
    ensures var (k, f) := (Called(env, p, c).host, RunBody(env, p, Then(CallDest(c), after)).host);
      && SameRecords(k, f) && Recorded(f.output.state) == Recorded(k.output.state)
      && PointsUsed(k.runtime) <= PointsUsed(f.runtime)
      && f.runtime.state.scAddress == p.runtime.state.scAddress && f.metering.state == p.metering.state
      && f.metering.totalUsedGas == 0 && f.output.state.returnCode.Ok?
  {
    hide Ready, Kept, ExecuteOnDest, UsedAt, RolledBack, TotalGas, SameRecords, CallInputOf;
    var k := Called(env, p, c).host;
    InputWithin(p, c);
    DestPoints(env, p, CallInputOf(p, c), c.start, c.body);
    DestCallKept(env, p, CallInputOf(p, c), c.start, c.body);
    SelfKept(env, p, k);
    GasKept(env, p, k);
    assert RunBody(env, p, Then(CallDest(c), after)) == RunBody(env, k, after);
    BodyRecords(env, k, after);
    BodyRecordsNothing(env, k, after);
    NoCallsNoAsync(after);
    BodyUses(env, k, after);
    BodyKept(env, k, after);
    SelfKept(env, k, RunBody(env, k, after).host);
    GasKept(env, k, RunBody(env, k, after).host);
    BaselineKept(env, k, RunBody(env, k, after).host);
    BodyEndsOk(env, p, Then(CallDest(c), after));
  }

  lemma BaselineKept(env: Env, h: Host, k: Host)
    requires Kept(env, h, k) && h.metering.totalUsedGas == 0
    ensures k.metering.totalUsedGas == 0
  {
  }

  lemma {:induction false} NoCallsNoAsync(s: Script)
    requires NoCalls(s)
    ensures NoAsync(s)
  {
    if s.Then? {
      NoCallsNoAsync(s.rest);
    }
  }

  /** Gas of a recursive transaction: a contract A calls B, which calls A back; when no frame ends in an
      error, both calls succeed, A is recorded with what both its runs spent themselves, B with what it
      spent itself, and that and the gas remaining is the gas provided. */
  lemma RecursiveTransaction(
    env: Env, h: Host, input: CallInput, start: Start, c: Call, after: Script, back: Call, rest: Script)
    requires Quiescent(h) && input.vmInput.callValue >= 0 && input.vmInput.callType.DirectCall?
    requires input.vmInput.gasProvided <= MAX_I64
    requires c.body == Then(CallDest(back), rest) && !c.start.FunctionMissing?
    requires back.recipient == input.recipient != c.recipient
    requires NoCalls(back.body) && NoCalls(rest) && NoCalls(after) && Exact(back.body) && Exact(rest) && Exact(after)
    ensures var body := Then(CallDest(c), after);
      var p := RootStarted(env, h, input, start);
      var q := CalleeStarts(env, p, c).host;
      var r := RunSmartContractCall(env, h, input, start, body);
      r.err.None? && FrameEnds(env, p, c) && FrameEnds(env, q, back) ==>
        && Called(env, p, c).err.None? && Called(env, q, back).err.None?
        && var (inner, spent) := (GasSpentByContract(Callee(env, q, back)), GasSpentByContract(Callee(env, p, c)));
        var own := GasSpentByContract(RunBody(env, p, body).host) - spent;
        && r.output.returnCode.Ok? && own >= 0 && spent >= inner
        && UsedAt(r.output, input.recipient) == own + inner
        && UsedAt(r.output, c.recipient) == spent - inner
        && r.output.gasRemaining == input.vmInput.gasProvided - own - spent
        && TotalGas(r.output.accounts) == own + spent
  {
    hide Ready, TotalGas, TotalDelta, RunBody, LoadAndStart, EnterRoot, GetVMOutput, Within, GasSpentByContract, Slack,
      CalleeStarts, Callee, Called, FrameEnds, Books, UsedAt, GasStateOf, GasLeft;
    var body := Then(CallDest(c), after);
    var p := RootStarted(env, h, input, start);
    var q := CalleeStarts(env, p, c).host;
    EnterRootWithin(env, h, input);
    RootStarts(env, h, input, EnterRoot(h, input), start);
    EnterRootGas(env, h, input, start, {input.recipient, c.recipient});
    if RunSmartContractCall(env, h, input, start, body).err.None?
       && FrameEnds(env, p, c) && FrameEnds(env, q, back) {
      RootFrameIs(env, h, input, start, body);
      RootFacts(env, h, input, p);
      RootRecursion(env, p, c, after, back, rest);
      RootFinishes(p, RunBody(env, p, body).host, c.recipient, GasSpentByContract(Callee(env, q, back)),
                   GasSpentByContract(Callee(env, p, c)));
    }
  }

  lemma RootFacts(env: Env, h: Host, input: CallInput, p: Host)
    requires Books(env, p, 0) && Within(env, h, input, p)
    ensures Metered(p) && p.output.state.returnCode.Ok? && p.metering.totalUsedGas == 0
    ensures p.runtime.state.scAddress == input.recipient
    ensures p.metering.state.initialCost + p.metering.state.gasForExecution == p.metering.state.initialGasProvided
  {
  }

  /** A root whose script has ended hands out the output of its host. */
  lemma RootFrameIs(env: Env, h: Host, input: CallInput, start: Start, body: Script)
    requires !input.vmInput.callType.AsynchronousCallBack? && input.vmInput.callType.DirectCall?
    requires RunSmartContractCall(env, h, input, start, body).err.None?
    ensures var f := RunBody(env, RootStarted(env, h, input, start), body);
      && LoadAndStart(env, EnterRoot(h, input), start).err.None?
      && f.err.None? && PointsUsed(f.host.runtime) <= f.host.metering.state.gasForExecution
      && RunSmartContractCall(env, h, input, start, body).output == GetVMOutput(f.host).1
  {
    hide EnterRoot, LoadAndStart, RunBody, GetVMOutput;
  }

  lemma RootFinishes(p: Host, f: Host, other: Address, inner: uint64, spent: uint64)
    requires AfterRecursion(p, f, other, inner, spent) && other != p.runtime.state.scAddress
    requires PointsUsed(f.runtime) <= f.metering.state.gasForExecution
    requires f.metering.state.initialCost + f.metering.state.gasForExecution
             == f.metering.state.initialGasProvided <= MAX_I64
    ensures var out := GetVMOutput(f).1;
      var own := GasSpentByContract(f) - spent;
      && out.returnCode.Ok? && own >= 0
      && UsedAt(out, p.runtime.state.scAddress) == own + inner && UsedAt(out, other) == spent - inner
      && out.gasRemaining == f.metering.state.initialGasProvided - own - spent
      && TotalGas(out.accounts) == own + spent
  {
    hide TotalGas, GetVMOutput, UsedAt;
    RecursionCounts(f, inner, spent);
    GetVMOutputLedger(f);
    assert Recorded(GetVMOutput(f).0.output.state) == TotalGas(GetVMOutput(f).0.output.state.accounts);
  }
}
