/** The big integers of a contract over a whole run: those it set itself, and those set by calls it
    made in its own context. A destination call starts with none and leaves its caller's alone. */
module Numbers {
  import opened Overflow
  import opened Wrappers
  import opened Types
  import opened OutputModel
  import opened HostModel
  import opened OutputGrowth
  import opened Frames
  import opened Effects

  type Handles = map<int32, int>

  ghost function NumbersAfter(env: Env, h: Host, s: Script, n: Handles): Handles
    decreases s, 0
  {
    match s
    case Done => n
    case Then(a, rest) =>
      match a
      case CallDest(c) => NumbersAfter(env, ExecuteOnDest(env, h, CallInputOf(h, c), c.start, c.body).host, rest, n)
      case CallSame(c) =>
        NumbersAfter(env, ExecuteOnSame(env, h, CallInputOf(h, c), c.start, c.body).0, rest,
                     NumbersOfSame(env, h, c, n))
      case Async(_) => n
      case SetBigInt(handle, number) => NumbersAfter(env, LocalAction(env, h, a).host, rest, n[handle := number])
      case _ =>
        var r := LocalAction(env, h, a);
        if r.err.Some? then n else NumbersAfter(env, r.host, rest, n)
  }

  ghost function FrameNumbers(env: Env, t: Host, input: CallInput, start: Start, body: Script, n: Handles): Handles
    decreases body, 1
  {
    if start.FunctionMissing? then n else NumbersAfter(env, Prepare(env, t, input, start).host, body, n)
  }

  /** A call in the same context goes on with its caller's numbers, and fails without a trace. */
  ghost function NumbersOfSame(env: Env, h: Host, c: Call, n: Handles): Handles
    decreases c.body, 2
  {
    var input := CallInputOf(h, c);
    if ExecuteOnSame(env, h, input, c.start, c.body).1.Some? then n
    else FrameNumbers(env, SameEntry(env, h, input).host, input, c.start, c.body, n)
  }

  lemma PrepareNumbers(env: Env, t: Host, input: CallInput, start: Start)
    ensures Prepare(env, t, input, start).host.bigInt == t.bigInt
  {
    hide GetCode, InitialCost, StartInstance, SetPointsUsed;
  }

  lemma LocalNumbers(env: Env, h: Host, a: Action)
    requires !a.CallDest? && !a.CallSame? && !a.Async?
    ensures LocalAction(env, h, a).host.bigInt
            == if a.SetBigInt? then h.bigInt.(values := h.bigInt.values[a.handle := a.number]) else h.bigInt
  {
    hide TransferOut, CachedRead, PriceOfChange, SetPointsUsed, HasPrefix;
  }

  /** A destination call, successful or not, gives its caller back the numbers it had. */
  lemma DestCallNumbers(env: Env, h: Host, input: CallInput, start: Start, body: Script)
    requires Ready(env, h)
    ensures ExecuteOnDest(env, h, input, start, body).host.bigInt == h.bigInt
  {
    hide DestFrame, GetVMOutput, PopMerge, Grows, Ready, FrameInstances, PopRuntime, SetPointsUsed;
    DestFrameInside(env, h, input, start, body);
    var f := DestFrame(env, h, input, start, body).host;
    OutputNumbers(f);
    assert PopBigInt(f.bigInt) == h.bigInt;
  }

  lemma OutputNumbers(f: Host)
    ensures GetVMOutput(f).0.bigInt == f.bigInt
  {
    hide RecordGas, CheckedGas, WithoutCode;
  }

  lemma {:induction false} FrameHasNumbers(
    env: Env, h: Host, t: Host, own: bool, input: CallInput, start: Start, body: Script)
    requires Ready(env, h) && Inside(env, h, t, own)
    requires |t.runtime.instances| == |h.runtime.instances| && t.runtime.instance == h.runtime.instance
    ensures var r := ExecuteCall(env, t, input, start, body);
      r.err.None? ==> r.host.bigInt.values == FrameNumbers(env, t, input, start, body, t.bigInt.values)
    decreases body, 1
  {
    hide Ready, Inside, Prepare, RunBody, NumbersAfter;
    PrepareNumbers(env, t, input, start);
    PrepareInside(env, h, t, own, input, start);
    if Prepare(env, t, input, start).err.None? && !start.FunctionMissing? {
      BodyHasNumbers(env, Prepare(env, t, input, start).host, body);
    }
  }

  /** A callee with a frame of its own starts with no numbers. */
  lemma DestFrameNumbers(env: Env, h: Host, input: CallInput, start: Start, body: Script)
    requires Ready(env, h)
    ensures var f := DestFrame(env, h, input, start, body);
      f.err.None? ==>
        f.host.bigInt.values == FrameNumbers(env, DestEntry(env, h, input).host, Unlocked(input), start, body, map[])
  {
    hide Ready, Inside, ExecuteCall, DestEntry, FrameNumbers;
    var t := DestEntry(env, h, input).host;
    DestEntryInside(env, h, input);
    assert t.bigInt.values == map[] by { NoNumbers(env, h, input); }
    if DestEntry(env, h, input).err.None? {
      FrameHasNumbers(env, h, t, true, Unlocked(input), start, body);
    }
  }

  lemma NoNumbers(env: Env, h: Host, input: CallInput)
    ensures DestEntry(env, h, input).host.bigInt.values == map[]
  {
    hide TransferValueOnly, CurrentTotalUsedGas, Snapshot;
  }

  lemma {:induction false} SameCallNumbers(env: Env, h: Host, c: Call)
    requires Ready(env, h)
    ensures ExecuteOnSame(env, h, CallInputOf(h, c), c.start, c.body).0.bigInt.values
            == NumbersOfSame(env, h, c, h.bigInt.values)
    decreases c.body, 3
  {
    hide Ready, Inside, ExecuteCall, FinishSame, SameEntry, FrameNumbers, Kept;
    var input := CallInputOf(h, c);
    SameCallKept(env, h, input, c.start, c.body);
    var f := SameFrame(env, h, input, c.start, c.body);
    SameError(f.host, f.err);
    if f.err.None? {
      var t := SameEntry(env, h, input).host;
      SameEntryInside(env, h, input);
      SameNumbers(env, h, input);
      FrameHasNumbers(env, h, t, false, input, c.start, c.body);
      EndsOk(env, t, input, c.start, c.body);
      KeptNumbers(f.host);
    }
  }

  lemma SameNumbers(env: Env, h: Host, input: CallInput)
    ensures SameEntry(env, h, input).host.bigInt.values == h.bigInt.values
  {
    hide TransferValueOnly, Snapshot;
  }

  lemma KeptNumbers(f: Host)
    requires f.output.state.returnCode.Ok?
    ensures FinishSame(f, None).0.bigInt.values == f.bigInt.values
  {
    hide GetVMOutput, SetPointsUsed, PopInstance;
    OutputNumbers(f);
  }

  lemma AsyncNumbers(env: Env, h: Host, c: AsyncCall)
    requires Ready(env, h)
    ensures RunAsync(env, h, c).host.bigInt == h.bigInt
  {
    hide Ready, Kept, PrepareAsync, ExecuteOnDest, GetCode, SendAsync, RunCallback, DestinationInput, Grows, RolledBack;
    PrepareAsyncKept(env, h, c.destination, c.data, c.value);
    PrepareNoNumbers(env, h, c);
    var p := PrepareAsync(env, h, c.destination, c.data, c.value);
    if p.err.None? && c.parsed.Some? {
      SelfKept(env, h, p.host);
      SoundWhenReady(env, p.host);
      var info := AsyncInfoOf(p.host);
      var (o, code, err) := GetCode(env, p.host.output.state, c.destination);
      GetCodeGrows(env, p.host.output.state, c.destination);
      var h1 := WithOutput(p.host, o);
      WithOutputKept(env, p.host, o);
      SelfKept(env, p.host, h1);
      SendNoNumbers(env, h1, info);
      DestCallNumbers(env, h1, DestinationInput(h1, c, info), c.start, c.body);
      DestCallKept(env, h1, DestinationInput(h1, c, info), c.start, c.body);
      var d := ExecuteOnDest(env, h1, DestinationInput(h1, c, info), c.start, c.body);
      SelfKept(env, h1, d.host);
      CallbackNumbers(env, d.host, info, d.output, d.err.None? && d.output.returnCode.Ok?, c);
    }
  }

  lemma PrepareNoNumbers(env: Env, h: Host, c: AsyncCall)
    ensures PrepareAsync(env, h, c.destination, c.data, c.value).host.bigInt == h.bigInt
  {
    hide GasLockedForAsync, SetPointsUsed;
  }

  lemma SendNoNumbers(env: Env, h: Host, info: AsyncCallInfo)
    ensures SendAsync(env, h, info).host.bigInt == h.bigInt
  {
    hide TransferOut, SetPointsUsed, OnTheStack;
  }

  lemma CallbackNumbers(env: Env, h: Host, info: AsyncCallInfo, out: VMOutput, ok: bool, c: AsyncCall)
    requires Ready(env, h)
    ensures RunCallback(env, h, info, out, ok, c).host.bigInt == h.bigInt
  {
    hide Ready, Kept, ExecuteOnDest, CallbackInput, SetPointsUsed;
    var input := CallbackInput(env, h, info, out, ok);
    if input.Some? {
      var h1 := h.(runtime := SetPointsUsed(h.runtime, 0));
      SetPointsKept(env, h, 0);
      DestCallNumbers(env, h1, input.value, c.callbackStart, c.callbackBody);
    }
  }

  /** The numbers a script leaves are exactly those its kept actions set. */
  lemma {:induction false} BodyHasNumbers(env: Env, h: Host, s: Script)
    requires Ready(env, h)
    ensures var r := RunBody(env, h, s);
      r.err.None? ==> r.host.bigInt.values == NumbersAfter(env, h, s, h.bigInt.values)
    decreases s, 0
  {
    hide Ready, Kept, ExecuteOnDest, ExecuteOnSame, LocalAction, RunAsync, CallInputOf, NumbersOfSame, RolledBack;
    if s.Then? {
      if s.first.CallDest? {
        var c := s.first.call;
        DestCallNumbers(env, h, CallInputOf(h, c), c.start, c.body);
        DestCallKept(env, h, CallInputOf(h, c), c.start, c.body);
        RestHasNumbers(env, h, ExecuteOnDest(env, h, CallInputOf(h, c), c.start, c.body).host, s.rest);
      } else if s.first.CallSame? {
        var c := s.first.call;
        SameCallNumbers(env, h, c);
        SameCallKept(env, h, CallInputOf(h, c), c.start, c.body);
        RestHasNumbers(env, h, ExecuteOnSame(env, h, CallInputOf(h, c), c.start, c.body).0, s.rest);
      } else if s.first.Async? {
        AsyncNumbers(env, h, s.first.async);
      } else {
        LocalNumbers(env, h, s.first);
        LocalActionKept(env, h, s.first);
        RestHasNumbers(env, h, LocalAction(env, h, s.first).host, s.rest);
      }
    }
  }

  lemma {:induction false} RestHasNumbers(env: Env, h: Host, k: Host, rest: Script)
    requires Ready(env, h) && Kept(env, h, k)
    ensures var r := RunBody(env, k, rest);
      r.err.None? ==> r.host.bigInt.values == NumbersAfter(env, k, rest, k.bigInt.values)
    decreases rest, 1
  {
    hide Ready, LiveCount, RunBody, NumbersAfter;
    KeptReady(env, h, k);
    BodyHasNumbers(env, k, rest);
  }
}
