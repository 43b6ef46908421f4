/** Exactly when a frame passes its gas check: the check compares what was recorded before the frame
    with a baseline that every finished destination call sets back to 0. */
module GasCheck {
  import opened Overflow
  import opened Wrappers
  import opened Types
  import opened OutputModel
  import opened HostModel
  import opened OutputGrowth
  import opened Frames
  import opened GasLedger
  import opened GasConservation

  /** The sum a gas check compares with the baseline: it saturates with the gas provided added. */
  function Compared(recorded: nat, provided: uint64): uint64 {
    if recorded + provided <= MAX_U64 then recorded else MAX_U64 - provided
  }

  /** A frame that has balanced books passes exactly when what was recorded before it, and what it
      recorded unpaid, is within the baseline. */
  lemma FrameCheck(env: Env, f: Host, base: nat)
    requires Books(env, f, base) && PointsUsed(f.runtime) <= f.metering.state.gasForExecution
    ensures GetVMOutput(f).1.returnCode.Ok? <==>
            Compared(base + Slack(f, base), f.metering.state.initialGasProvided) <= f.metering.totalUsedGas
  {
    hide TotalGas, GetVMOutput;
    GetVMOutputLedger(f);
  }

  // ---------------------------------------------------------------- what scripts do to the baseline

  /** The asynchronous call runs in this shard. */
  ghost predicate RunsHere(env: Env, h: Host, c: AsyncCall) {
    var p := PrepareAsync(env, h, c.destination, c.data, c.value);
    p.err.None? && c.parsed.Some? && GetCode(env, p.host.output.state, c.destination).2.None?
  }

  /** Running the script finishes a destination call, successfully or not, in this frame or in a
      same-context call made from it. */
  ghost predicate Resets(env: Env, h: Host, s: Script)
    decreases s, 0
  {
    match s
    case Done => false
    case Then(a, rest) =>
      match a
      case CallDest(c) => true
      case CallSame(c) =>
        ResetsSame(env, h, c) || Resets(env, ExecuteOnSame(env, h, CallInputOf(h, c), c.start, c.body).0, rest)
      case Async(c) => RunsHere(env, h, c)
      case _ =>
        var r := LocalAction(env, h, a);
        r.err.None? && Resets(env, r.host, rest)
  }

  ghost predicate ResetsFrame(env: Env, t: Host, input: CallInput, start: Start, body: Script)
    decreases body, 1
  {
    var p := Prepare(env, t, input, start);
    p.err.None? && !start.FunctionMissing? && Resets(env, p.host, body)
  }

  ghost predicate ResetsSame(env: Env, h: Host, c: Call)
    decreases c.body, 2
  {
    var t := SameEntry(env, h, CallInputOf(h, c));
    t.err.None? && ResetsFrame(env, t.host, CallInputOf(h, c), c.start, c.body)
  }

  function BaselineAfter(h: Host, resets: bool): uint64 {
    if resets then 0 else h.metering.totalUsedGas
  }

  lemma DestResets(env: Env, h: Host, input: CallInput, start: Start, body: Script)
    ensures ExecuteOnDest(env, h, input, start, body).host.metering.totalUsedGas == 0
  {
    hide DestFrame, CalleeOutput;
  }

  lemma PrepareKeepsBaseline(env: Env, t: Host, input: CallInput, start: Start)
    ensures Prepare(env, t, input, start).host.metering.totalUsedGas == t.metering.totalUsedGas
  {
  }

  lemma FinishSameKeepsBaseline(f: Host, err: Option<Error>)
    ensures FinishSame(f, err).0.metering.totalUsedGas == f.metering.totalUsedGas
  {
    hide RecordGas, CheckedGas, WithoutCode;
  }

  lemma LocalActionKeepsBaseline(env: Env, h: Host, a: Action)
    requires !a.CallDest? && !a.CallSame? && !a.Async?
    ensures LocalAction(env, h, a).host.metering == h.metering
  {
    hide TransferOut, CachedRead, PriceOfChange, FreeGas;
  }

  lemma AsyncBaseline(env: Env, h: Host, c: AsyncCall)
    ensures RunAsync(env, h, c).host.metering.totalUsedGas == BaselineAfter(h, RunsHere(env, h, c))
  {
    hide ExecuteOnDest, TransferOut, GetCode, CallbackInput, DestinationInput, ErrorOutput;
    var p := PrepareAsync(env, h, c.destination, c.data, c.value);
    if RunsHere(env, h, c) {
      var info := AsyncInfoOf(p.host);
      var h1 := WithOutput(p.host, GetCode(env, p.host.output.state, c.destination).0);
      var input := DestinationInput(h1, c, info);
      DestResets(env, h1, input, c.start, c.body);
      var d := ExecuteOnDest(env, h1, input, c.start, c.body);
      CallbackBaseline(env, d.host, info, d.output, d.err.None? && d.output.returnCode.Ok?, c);
    }
  }

  lemma CallbackBaseline(env: Env, h: Host, info: AsyncCallInfo, out: VMOutput, ok: bool, c: AsyncCall)
    requires h.metering.totalUsedGas == 0
    ensures RunCallback(env, h, info, out, ok, c).host.metering.totalUsedGas == 0
  {
    hide ExecuteOnDest, CallbackInput, ErrorOutput;
    var input := CallbackInput(env, h, info, out, ok);
    if input.Some? {
      DestResets(env, h.(runtime := SetPointsUsed(h.runtime, 0)), input.value, c.callbackStart, c.callbackBody);
    }
  }

  /** Every script leaves the baseline alone, or at 0 if it finished a destination call. */
  lemma {:induction false} BodyBaseline(env: Env, h: Host, s: Script)
    ensures RunBody(env, h, s).host.metering.totalUsedGas == BaselineAfter(h, Resets(env, h, s))
    decreases s, 0
  {
    hide ExecuteOnDest, ExecuteOnSame, LocalAction, RunAsync, RunsHere, ResetsSame, CallInputOf;
    match s
    case Done =>
    case Then(a, rest) =>
      match a
      case CallDest(c) =>
        DestResets(env, h, CallInputOf(h, c), c.start, c.body);
        BodyBaseline(env, ExecuteOnDest(env, h, CallInputOf(h, c), c.start, c.body).host, rest);
      case CallSame(c) =>
        SameBaseline(env, h, c);
        BodyBaseline(env, ExecuteOnSame(env, h, CallInputOf(h, c), c.start, c.body).0, rest);
      case Async(c) => AsyncBaseline(env, h, c);
      case _ =>
        LocalActionKeepsBaseline(env, h, a);
        BodyBaseline(env, LocalAction(env, h, a).host, rest);
  }

  lemma {:induction false} FrameBaseline(env: Env, t: Host, input: CallInput, start: Start, body: Script)
    ensures ExecuteCall(env, t, input, start, body).host.metering.totalUsedGas
            == BaselineAfter(t, ResetsFrame(env, t, input, start, body))
    decreases body, 1
  {
    hide Prepare, RunBody, Resets;
    PrepareKeepsBaseline(env, t, input, start);
    BodyBaseline(env, Prepare(env, t, input, start).host, body);
  }

  lemma {:induction false} SameBaseline(env: Env, h: Host, c: Call)
    ensures SameFrame(env, h, CallInputOf(h, c), c.start, c.body).host.metering.totalUsedGas
            == BaselineAfter(h, ResetsSame(env, h, c))
    ensures ExecuteOnSame(env, h, CallInputOf(h, c), c.start, c.body).0.metering.totalUsedGas
            == BaselineAfter(h, ResetsSame(env, h, c))
    decreases c.body, 2
  {
    hide ExecuteCall, ResetsFrame, TransferValueOnly, FinishSame;
    var input := CallInputOf(h, c);
    var f := SameFrame(env, h, input, c.start, c.body);
    FrameBaseline(env, SameEntry(env, h, input).host, input, c.start, c.body);
    FinishSameKeepsBaseline(f.host, f.err);
  }

  // ---------------------------------------------------------------- destination calls

  /** A destination call starts with what has been recorded so far as its baseline. */
  lemma DestEntryBaseline(env: Env, h: Host, input: CallInput)
    ensures DestEntry(env, h, input).host.metering.totalUsedGas == CurrentTotalUsedGas(h.output.state)
  {
    hide TotalGas, TransferValueOnly;
  }

  lemma RecordedNonNegative(o: VMOutput)
    ensures Recorded(o) >= 0
    ensures CurrentTotalUsedGas(o) == if Recorded(o) > MAX_U64 then MAX_U64 else Recorded(o)
  {
    TotalGasNonNegative(o.accounts);
  }

  /** A finished callee's books, as its gas check finds them. */
  lemma CalleeCheck(env: Env, h: Host, t: Host, own: bool, input: CallInput, start: Start, body: Script)
    requires Ready(env, h) && Inside(env, h, t, own) && Entered(h, t, input)
    requires ContractsOnStack(env, h.runtime) && h.metering.state.gasForExecution <= MAX_I64
    requires PointsUsed(h.runtime) <= MAX_I64 && input.vmInput.gasProvided <= GasLeft(h)
    requires TreeReady(env, h, input.recipient, body) && Recorded(h.output.state) >= 0
    ensures var r := ExecuteCall(env, t, input, start, body);
      var sum := Recorded(h.output.state) + FrameUnpaid(env, t, input, start, body);
      && input.vmInput.gasProvided <= MAX_I64
      && (r.err.None? ==>
            && r.host.metering.totalUsedGas == BaselineAfter(t, ResetsFrame(env, t, input, start, body))
            && (GetVMOutput(r.host).1.returnCode.Ok? <==>
                  Compared(sum, input.vmInput.gasProvided) <= r.host.metering.totalUsedGas))
  {
    hide ExecuteCall, FrameUnpaid, ResetsFrame, Books, TotalGas, GetVMOutput, Slack, Inside, Ready, TreeReady,
      Recorded;
    ExecuteCallGas(env, h, t, own, input, start, body);
    FrameBaseline(env, t, input, start, body);
    var r := ExecuteCall(env, t, input, start, body);
    if r.err.None? {
      FrameCheck(env, r.host, Recorded(h.output.state));
    }
  }

  /** A destination call whose frame ends without error fails exactly when its check finds more than
      its baseline: if the frame itself finished a destination call, when anything was recorded
      before it or unpaid in it; otherwise when it recorded gas it did not pay for (and the sums do
      not saturate). In the first case no gas need be lost: the check compares with a baseline that
      the inner call has set back to 0. */
  lemma DestCallCheck(env: Env, h: Host, c: Call, base: int)
    requires Ready(env, h) && Books(env, h, base) && TreeReady(env, h, c.recipient, c.body)
    ensures var input := CallInputOf(h, c);
      var t := DestEntry(env, h, input);
      var f := DestFrame(env, h, input, c.start, c.body);
      var r := ExecuteOnDest(env, h, input, c.start, c.body);
      var recorded := Recorded(h.output.state);
      var unpaid := FrameUnpaid(env, t.host, input, c.start, c.body);
      && recorded >= 0
      && (f.err.None? ==>
            && (r.err.Some? <==>
                  f.host.metering.totalUsedGas < Compared(recorded + unpaid, input.vmInput.gasProvided))
            && (r.err.Some? <==>
                  if ResetsFrame(env, t.host, input, c.start, c.body) then recorded + unpaid > 0
                  else unpaid > 0 && recorded < MAX_U64 - input.vmInput.gasProvided))
  {
    hide DestEntry, ExecuteCall, FrameUnpaid, ResetsFrame, Books, TotalGas, GetVMOutput, Inside, Ready, TreeReady,
      LeaveDest, Recorded, CurrentTotalUsedGas;
    var input := CallInputOf(h, c);
    var t := DestEntry(env, h, input);
    CallFacts(env, h, base);
    DestEntryInside(env, h, input);
    DestEntryGas(env, h, input);
    RecordedNonNegative(h.output.state);
    if t.err.None? {
      CalleeCheck(env, h, t.host, true, input, c.start, c.body);
      DestEntryBaseline(env, h, input);
    }
  }

  // ---------------------------------------------------------------- same-context calls

  /** A same-context call that ends without error passes its own gas check exactly when what was
      recorded before it, and what it recorded unpaid, is within its caller's baseline, or is
      nothing if it finished a destination call. When it does not pass it is kept all the same:
      what it spent is recorded, and is not counted as forwarded by its caller. */
  lemma SameCallCheck(env: Env, h: Host, c: Call, base: int)
    requires Ready(env, h) && Books(env, h, base) && TreeReady(env, h, c.recipient, c.body)
    ensures var input := CallInputOf(h, c);
      var f := SameFrame(env, h, input, c.start, c.body);
      var recorded := Recorded(h.output.state);
      var unpaid := FrameUnpaid(env, SameEntry(env, h, input).host, input, c.start, c.body);
      var r := ExecuteOnSame(env, h, input, c.start, c.body);
      && recorded >= 0 && input.vmInput.gasProvided <= MAX_I64
      && (f.err.None? ==>
            && r.1.None?
            && f.host.metering.totalUsedGas == BaselineAfter(h, ResetsSame(env, h, c))
            && (SameCheckPasses(env, h, c) <==>
                  Compared(recorded + unpaid, input.vmInput.gasProvided) <= f.host.metering.totalUsedGas)
            && Recorded(r.0.output.state) == recorded + GasSpentByContract(f.host) + unpaid
            && Slack(r.0, base) == Slack(h, base) + unpaid
               + if SameCheckPasses(env, h, c) then 0 else GasSpentByContract(f.host))
  {
    hide SameEntry, ExecuteCall, FrameUnpaid, ResetsFrame, Books, TotalGas, GetVMOutput, Inside, Ready, TreeReady,
      KeepSame, UndoSame, Recorded, Slack, GasSpentByContract;
    var input := CallInputOf(h, c);
    var t := SameEntry(env, h, input);
    CallFacts(env, h, base);
    RecordedNonNegative(h.output.state);
    SameEntryInside(env, h, input);
    SameEntryGas(env, h, input);
    SameCallGas(env, h, c, base);
    if t.err.None? {
      CalleeCheck(env, h, t.host, false, input, c.start, c.body);
    }
  }

  /** In a root contract the baseline is 0: a same-context call passes its check only if nothing
      was recorded before it and it recorded nothing unpaid. */
  lemma SameCallAtRoot(env: Env, h: Host, c: Call, base: int)
    requires Ready(env, h) && Books(env, h, base) && TreeReady(env, h, c.recipient, c.body)
    requires h.metering.totalUsedGas == 0
    ensures var input := CallInputOf(h, c);
      SameFrame(env, h, input, c.start, c.body).err.None? ==>
        (SameCheckPasses(env, h, c) <==>
           && Recorded(h.output.state) == 0
           && FrameUnpaid(env, SameEntry(env, h, input).host, input, c.start, c.body) == 0)
  {
    hide SameEntry, SameFrame, FrameUnpaid, Books, TotalGas, Ready, TreeReady, Recorded, SameCheckPasses, ResetsSame,
      ExecuteOnSame;
    SameCallCheck(env, h, c, base);
  }

  // ---------------------------------------------------------------- conditions on the script

  /** The script itself, up to an asynchronous call, calls a destination. */
  predicate CallsDest(s: Script) {
    s.Then? && (s.first.CallDest? || (!s.first.Async? && CallsDest(s.rest)))
  }

  /** For a body with destination calls only that ends without error, the script alone decides. */
  lemma {:induction false} ExactResets(env: Env, h: Host, s: Script)
    requires Exact(s) && LeavesShard(env, s) && Ready(env, h)
    requires RunBody(env, h, s).err.None?
    ensures Resets(env, h, s) <==> CallsDest(s)
    decreases s
  {
    hide ExecuteOnDest, ExecuteOnSame, LocalAction, CallInputOf, Ready, Kept, PrepareAsync, GetCode, HasCode;
    if s.Then? && s.first.Async? {
      StaysAway(env, h, s.first.async);
    } else if s.Then? && !s.first.CallDest? {
      LocalActionKept(env, h, s.first);
      KeptReady(env, h, LocalAction(env, h, s.first).host);
      ExactResets(env, LocalAction(env, h, s.first).host, s.rest);
    }
  }

  lemma StaysAway(env: Env, h: Host, c: AsyncCall)
    requires Ready(env, h) && !HasCode(env, c.destination)
    ensures !RunsHere(env, h, c)
  {
    hide Ready, Kept, PrepareAsync, GetCode, HasCode;
    PrepareAsyncKept(env, h, c.destination, c.data, c.value);
    var p := PrepareAsync(env, h, c.destination, c.data, c.value);
    KeptReady(env, h, p.host);
    SoundWhenReady(env, p.host);
    NoCodeToGet(env, p.host.output.state, c.destination);
  }

  /** The callee's script calls a destination; a missing callback runs no script. */
  predicate CalleeCallsDest(c: Call) {
    !c.start.FunctionMissing? && CallsDest(c.body)
  }

  /** What a caller can check before a destination call, when the callee's script has only
      destination calls and names no gas in transfers: if the callee's frame ends without error,
      the call fails exactly when the callee's script calls a destination and gas has been recorded
      before. */
  lemma ExactDestCallCheck(env: Env, h: Host, c: Call, base: int)
    requires Ready(env, h) && Books(env, h, base) && TreeReady(env, h, c.recipient, c.body) && Exact(c.body)
    ensures var input := CallInputOf(h, c);
      DestFrame(env, h, input, c.start, c.body).err.None? ==>
        (ExecuteOnDest(env, h, input, c.start, c.body).err.Some? <==>
           Recorded(h.output.state) > 0 && CalleeCallsDest(c))
  {
    hide DestEntry, Prepare, RunBody, Resets, Unpaid, TotalGas, Inside, Ready, Exact, LeavesShard, Distinct,
      CallsDest, ExecuteOnDest, Recorded;
    var input := CallInputOf(h, c);
    var t := DestEntry(env, h, input);
    var p := Prepare(env, t.host, input, c.start);
    ExactIsPaid(env, p.host, c.body);
    DestCallCheck(env, h, c, base);
    DestEntryInside(env, h, input);
    PrepareInside(env, h, t.host, true, input, c.start);
    if DestFrame(env, h, input, c.start, c.body).err.None? && !c.start.FunctionMissing? {
      ExactResets(env, p.host, c.body);
    }
  }

  /** The same for a same-context call: its callee's script and the caller's baseline decide. */
  lemma ExactSameCallCheck(env: Env, h: Host, c: Call, base: int)
    requires Ready(env, h) && Books(env, h, base) && TreeReady(env, h, c.recipient, c.body) && Exact(c.body)
    ensures var input := CallInputOf(h, c);
      && Recorded(h.output.state) >= 0
      && (SameFrame(env, h, input, c.start, c.body).err.None? ==>
            (SameCheckPasses(env, h, c) <==>
               Compared(Recorded(h.output.state), input.vmInput.gasProvided)
               <= if CalleeCallsDest(c) then 0 else h.metering.totalUsedGas))
  {
    hide SameEntry, Prepare, RunBody, Resets, Unpaid, TotalGas, Inside, Ready, Exact, LeavesShard, Distinct, CallsDest,
      ExecuteOnSame, Recorded, SameCheckPasses;
    var input := CallInputOf(h, c);
    var t := SameEntry(env, h, input);
    var p := Prepare(env, t.host, input, c.start);
    ExactIsPaid(env, p.host, c.body);
    SameCallCheck(env, h, c, base);
    SameEntryInside(env, h, input);
    PrepareInside(env, h, t.host, false, input, c.start);
    if SameFrame(env, h, input, c.start, c.body).err.None? && !c.start.FunctionMissing? {
      ExactResets(env, p.host, c.body);
    }
  }

  /** Nothing saturates as long as what a contract recorded, and all it was provided, stay within
      the largest amount of gas; its callees then start with no more than it has. */
  ghost predicate Modest(h: Host, base: int) {
    base + Slack(h, base) + h.metering.state.initialGasProvided <= MAX_I64
  }

  lemma CalleeIsModest(env: Env, h: Host, c: Call, base: int)
    requires Books(env, h, base) && Modest(h, base)
    ensures var provided := CallInputOf(h, c).vmInput.gasProvided;
      && Recorded(h.output.state) + provided <= MAX_I64
      && (Recorded(h.output.state) >= 0 ==>
            Compared(Recorded(h.output.state), provided) == Recorded(h.output.state))
  {
    hide TotalGas;
  }
}
