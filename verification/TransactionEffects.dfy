/** What the output of a call and of a whole transaction shows: the events of what was kept. */
module TransactionEffects {
  import opened Overflow
  import opened Wrappers
  import opened Types
  import opened OutputModel
  import opened AnswerText
  import opened HostModel
  import opened OutputGrowth
  import opened StorageCache
  import opened Frames
  import opened Transactions
  import opened Effects

  // ---------------------------------------------------------------- reading events

  function LogsIn(es: seq<Effect>): seq<LogEntry>
    decreases |es|
  {
    if es == [] then [] else
      LogsIn(es[..|es| - 1]) + if es[|es| - 1].Logged? then [es[|es| - 1].entry] else []
  }

  function DataIn(es: seq<Effect>): seq<Bytes>
    decreases |es|
  {
    if es == [] then [] else
      DataIn(es[..|es| - 1]) + if es[|es| - 1].Returned? then [es[|es| - 1].data] else []
  }

  /** What an account gains by all transfers of value. */
  function NetIn(es: seq<Effect>, a: Address): int
    decreases |es|
  {
    if es == [] then 0 else
      var e := es[|es| - 1];
      NetIn(es[..|es| - 1], a) + if e.Moved? then Gain(a, e.sender, e.receiver, e.amount) else 0
  }

  lemma {:induction false} AfterReads(w: Watch, es: seq<Effect>, a: Address, key: Bytes)
    ensures After(w, es, a, key).logs == w.logs + LogsIn(es)
    ensures After(w, es, a, key).data == w.data + DataIn(es)
    ensures After(w, es, a, key).delta == w.delta + NetIn(es, a)
    decreases |es|
  {
    if es != [] {
      AfterReads(w, es[..|es| - 1], a, key);
    }
  }

  lemma {:induction false} NetOfBoth(es: seq<Effect>, fs: seq<Effect>, a: Address)
    ensures NetIn(es + fs, a) == NetIn(es, a) + NetIn(fs, a)
    decreases |fs|
  {
    if fs == [] {
      assert es + fs == es;
    } else {
      assert (es + fs)[..|es + fs| - 1] == es + fs[..|fs| - 1];
      NetOfBoth(es, fs[..|fs| - 1], a);
    }
  }

  // ---------------------------------------------------------------- calls

  /** A successful destination call hands out its own logs and data, in order and nothing else,
      whatever its caller had written; the caller has them after its own. */
  lemma DestCallShows(env: Env, h: Host, c: Call)
    requires Ready(env, h)
    ensures var me := SelfOf(h);
      var moved := [Moved(me.address, c.recipient, c.value)];
      var callee := me.(address := c.recipient, cells := c.recipient);
      var input := CallInputOf(h, c);
      var es := DestEffects(env, h, callee, moved, input, c.start, c.body);
      var r := ExecuteOnDest(env, h, input, c.start, c.body);
      r.err.None? ==>
        && r.output.logs == LogsIn(es) && r.output.returnData == DataIn(es)
        && r.host.output.state.logs == h.output.state.logs + LogsIn(es)
        && r.host.output.state.returnData == h.output.state.returnData + DataIn(es)
        && (forall a :: DeltaAt(r.host.output.state.accounts, a) == DeltaAt(h.output.state.accounts, a) + NetIn(es, a))
  {
    hide Ready, ExecuteOnDest, DestEffects, CallInputOf, Cell;
    var me := SelfOf(h);
    var moved := [Moved(me.address, c.recipient, c.value)];
    var callee := me.(address := c.recipient, cells := c.recipient);
    var input := CallInputOf(h, c);
    InputOfCall(h, c);
    DestFollows(env, h, callee, moved, input, c.start, c.body);
    var es := DestEffects(env, h, callee, moved, input, c.start, c.body);
    var r := ExecuteOnDest(env, h, input, c.start, c.body);
    if r.err.None? {
      CallReads(env, h.output.state, es, r.output, r.host.output.state, "");
      forall a
        ensures DeltaAt(r.host.output.state.accounts, a) == DeltaAt(h.output.state.accounts, a) + NetIn(es, a)
      {
        CallReads(env, h.output.state, es, r.output, r.host.output.state, a);
      }
    }
  }

  lemma CallReads(env: Env, o: VMOutput, es: seq<Effect>, out: VMOutput, merged: VMOutput, a: Address)
    requires StartsFresh(env, o, es, out) && Follows(env, o, es, merged)
    ensures out.logs == LogsIn(es) && out.returnData == DataIn(es)
    ensures merged.logs == o.logs + LogsIn(es) && merged.returnData == o.returnData + DataIn(es)
    ensures DeltaAt(merged.accounts, a) == DeltaAt(o.accounts, a) + NetIn(es, a)
  {
    var w := WatchOf(env, o, a, "");
    AfterReads(w, es, a, "");
    AfterReads(Afresh(w), es, a, "");
    assert WatchOf(env, out, a, "") == After(Afresh(w), es, a, "");
    assert WatchOf(env, merged, a, "") == After(w, es, a, "");
  }

  predicate MovesNothing(es: seq<Effect>) {
    forall i :: 0 <= i < |es| ==> !es[i].Moved?
  }

  lemma {:induction false} NothingToGain(es: seq<Effect>, a: Address)
    requires MovesNothing(es)
    ensures NetIn(es, a) == 0
    decreases |es|
  {
    if es != [] {
      NothingToGain(es[..|es| - 1], a);
    }
  }

  /** A successful call of a contract that moves no value itself leaves the contract with the call
      value and its caller without it, and every other balance as it was. */
  lemma DestCallPays(env: Env, h: Host, c: Call)
    requires Ready(env, h)
    requires var input := CallInputOf(h, c);
      MovesNothing(FrameEffects(env, DestEntry(env, h, input).host,
                                SelfOf(h).(address := c.recipient, cells := c.recipient), input, c.start, c.body))
    ensures var r := ExecuteOnDest(env, h, CallInputOf(h, c), c.start, c.body);
      r.err.None? ==>
        forall a :: DeltaAt(r.host.output.state.accounts, a)
                    == DeltaAt(h.output.state.accounts, a) + Gain(a, h.runtime.state.scAddress, c.recipient, c.value)
  {
    hide Ready, ExecuteOnDest, CallInputOf, Cell, FrameEffects, DestEntry, Gain;
    DestCallShows(env, h, c);
    InputOfCall(h, c);
    var me := SelfOf(h);
    var input := CallInputOf(h, c);
    var callee := me.(address := c.recipient, cells := c.recipient);
    var moved := [Moved(me.address, c.recipient, c.value)];
    var es := FrameEffects(env, DestEntry(env, h, input).host, callee, input, c.start, c.body);
    forall a
      ensures NetIn([NewFrame] + (moved + es), a) == Gain(a, me.address, c.recipient, c.value)
    {
      NetOfBoth([NewFrame], moved + es, a);
      NetOfBoth(moved, es, a);
      NothingToGain(es, a);
      NetOfOne(NewFrame, a);
      NetOfOne(moved[0], a);
    }
  }

  lemma NetOfOne(e: Effect, a: Address)
    ensures NetIn([e], a) == if e.Moved? then Gain(a, e.sender, e.receiver, e.amount) else 0
  {
    assert [e][..0] == [];
    assert NetIn([], a) == 0;
  }

  // ---------------------------------------------------------------- transactions

  /** A contract called from another shard pays the call value back and answers with its return
      code, its data and all the gas it has left. */
  ghost function AnswerEffects(input: CallInput, data: seq<Bytes>, gasLeft: uint64): seq<Effect> {
    var v := input.vmInput;
    if !v.callType.AsynchronousCall? then [] else
      [Moved(input.recipient, v.callerAddr, v.callValue),
       Sent(v.callerAddr, OutputTransfer(v.callValue, gasLeft, 0, JoinData(["ok"] + data), AsynchronousCallBack,
                                         input.recipient))]
  }

  ghost function TransactionEffectsOf(env: Env, h: Host, input: CallInput, start: Start, body: Script): seq<Effect> {
    var p := RootStarted(env, h, input, start);
    var es := EffectsOf(env, p, Self(input.recipient, input.recipient, false, h.storage.protectionEnabled), body);
    es + AnswerEffects(input, DataIn(es), GasLeft(RunBody(env, p, body).host))
  }

  /** Before a transaction the recipient has the call value, and storage is the node's. */
  function AtStart(env: Env, input: CallInput, a: Address, key: Bytes): Watch {
    Watch([], [], Ok, "", 0, if a == input.recipient then input.vmInput.callValue else 0, [], HookStorage(env, a, key))
  }

  lemma {:induction false} StaysOk(w: Watch, es: seq<Effect>, a: Address, key: Bytes)
    requires w.code.Ok?
    ensures After(w, es, a, key).code.Ok?
    decreases |es|
  {
    if es != [] {
      StaysOk(w, es[..|es| - 1], a, key);
    }
  }

  /** A body that ends without error ends with code Ok. */
  lemma BodyEndsOk(env: Env, h: Host, s: Script)
    requires Ready(env, h) && h.output.state.returnCode.Ok?
    ensures var r := RunBody(env, h, s); r.err.None? ==> r.host.output.state.returnCode.Ok?
  {
    hide Ready, RunBody, Cell, EffectsOf;
    BodyFollows(env, h, SelfOf(h), s);
    var es := EffectsOf(env, h, SelfOf(h), s);
    StaysOk(WatchOf(env, h.output.state, "", ""), es, "", "");
    if RunBody(env, h, s).err.None? {
      assert WatchOf(env, RunBody(env, h, s).host.output.state, "", "")
             == After(WatchOf(env, h.output.state, "", ""), es, "", "");
    }
  }

  lemma EntersRoot(env: Env, h: Host, input: CallInput)
    ensures var h1 := EnterRoot(h, input);
      && (forall a, key :: WatchOf(env, h1.output.state, a, key) == AtStart(env, input, a, key))
      && SelfOf(h1) == Self(input.recipient, input.recipient, false, h.storage.protectionEnabled)
      && h1.runtime.state.vmInput == input.vmInput
  {
  }

  lemma StartUnseen(env: Env, t: Host, start: Start)
    ensures var p := LoadAndStart(env, t, start).host;
      && Unseen(env, t.output.state, p.output.state) && SelfOf(p) == SelfOf(t)
      && p.runtime.state.vmInput == t.runtime.state.vmInput
  {
    hide GetCode, Unseen, InitialCost, LiveCount;
    SameUnseen(env, t.output.state);
    CodeUnseen(env, t.output.state, t.runtime.state.scAddress);
  }

  /** The answer of a body that ended without error. */
  lemma AnswerFollows(env: Env, k: Host, input: CallInput)
    requires Ready(env, k) && k.output.state.returnCode.Ok? && k.runtime.state.scAddress == input.recipient
    requires var v := k.runtime.state.vmInput; v == input.vmInput.(gasProvided := v.gasProvided)
    requires input.vmInput.callType.AsynchronousCall?
    ensures var r := SendCallback(env, k);
      r.err.None? ==>
        Follows(env, k.output.state, AnswerEffects(input, k.output.state.returnData, GasLeft(k)), r.host.output.state)
  {
    hide Ready, TransferOut, Follows, SetPointsUsed, JoinData, GasLeft;
    SoundWhenReady(env, k);
    var v := input.vmInput;
    var text := AnswerData(k.output.state);
    TransferFollows(env, k.output.state, true, v.callerAddr, input.recipient, GasLeft(k), 0, v.callValue, text,
                    AsynchronousCallBack);
    var (o, err) := TransferOut(env, k.output.state, true, v.callerAddr, input.recipient, GasLeft(k), 0, v.callValue,
                                text, AsynchronousCallBack);
    assert err.None? ==> SendCallback(env, k).host.output.state == o;
  }

  lemma ReadsAtStart(env: Env, o: VMOutput, input: CallInput, es: seq<Effect>, p: VMOutput)
    requires forall a, key :: WatchOf(env, o, a, key) == AtStart(env, input, a, key)
    requires Follows(env, o, es, p)
    ensures forall a, key :: WatchOf(env, p, a, key) == After(AtStart(env, input, a, key), es, a, key)
    ensures p.returnCode.Ok? && p.returnData == DataIn(es)
  {
    hide WatchOf;
    var w := AtStart(env, input, "", "");
    assert WatchOf(env, p, "", "") == After(WatchOf(env, o, "", ""), es, "", "");
    StaysOk(w, es, "", "");
    AfterReads(w, es, "", "");
    WatchFields(env, p);
  }

  lemma WatchFields(env: Env, p: VMOutput)
    ensures WatchOf(env, p, "", "").code == p.returnCode && WatchOf(env, p, "", "").data == p.returnData
  {
  }

  /** An accepted output shows exactly the events of the transaction: logs and data in order, the
      message, the gas refund, and for every account its balance delta, its transfers and its storage. */
  lemma TransactionShows(env: Env, h: Host, input: CallInput, start: Start, body: Script)
    requires Quiescent(h) && input.vmInput.callValue >= 0 && !input.vmInput.callType.AsynchronousCallBack?
    ensures var r := RunSmartContractCall(env, h, input, start, body);
      var es := TransactionEffectsOf(env, h, input, start, body);
      r.output.returnCode.Ok? ==>
        forall a, key :: WatchOf(env, r.output, a, key) == After(AtStart(env, input, a, key), es, a, key)
  {
    hide Ready, Within, EnterRoot, LoadAndStart, RunBody, GetVMOutput, SendCallback, Follows, Cell, Unseen, GasLeft,
      TransactionEffectsOf, AtStart, After;
    EnterRootWithin(env, h, input);
    var h1 := EnterRoot(h, input);
    RootStarts(env, h, input, h1, start);
    EntersRoot(env, h, input);
    var p := LoadAndStart(env, h1, start).host;
    StartUnseen(env, h1, start);
    var f := RootFrame(env, h, input, start, body);
    if f.err.None? {
      RootFollows(env, h, input, start, body, h1.output.state);
      var es := TransactionEffectsOf(env, h, input, start, body);
      OutputUnseen(env, f.host);
      FollowsNothing(env, h1.output.state, es, f.host.output.state, GetVMOutput(f.host).0.output.state);
      ReadsAtStart(env, h1.output.state, input, es, GetVMOutput(f.host).0.output.state);
    }
  }

  /** The root contract's body, and its answer. */
  lemma RootFollows(env: Env, h: Host, input: CallInput, start: Start, body: Script, o: VMOutput)
    requires !input.vmInput.callType.AsynchronousCallBack?
    requires forall a, key :: WatchOf(env, o, a, key) == AtStart(env, input, a, key)
    requires var p := RootStarted(env, h, input, start);
      && Ready(env, p) && Unseen(env, o, p.output.state) && p.runtime.state.vmInput == input.vmInput
      && SelfOf(p) == Self(input.recipient, input.recipient, false, h.storage.protectionEnabled)
    ensures var f := RootFrame(env, h, input, start, body);
      f.err.None? ==> Follows(env, o, TransactionEffectsOf(env, h, input, start, body), f.host.output.state)
  {
    hide Ready, EnterRoot, LoadAndStart, RunBody, SendCallback, EffectsOf, Follows, Unseen, GasLeft, AtStart, After,
      JoinData, Kept;
    var p := RootStarted(env, h, input, start);
    var me := SelfOf(p);
    BodyFollows(env, p, me, body);
    BodyKept(env, p, body);
    var k := RunBody(env, p, body).host;
    SelfKept(env, p, k);
    if RootFrame(env, h, input, start, body).err.None? {
      var es := EffectsOf(env, p, me, body);
      NothingFollows(env, o, p.output.state, es, k.output.state);
      ReadsAtStart(env, o, input, es, k.output.state);
      var fs := AnswerEffects(input, DataIn(es), GasLeft(k));
      if input.vmInput.callType.AsynchronousCall? {
        InputKept(env, p, k);
        AnswerFollows(env, k, input);
      } else {
        SameUnseen(env, k.output.state);
        UnseenFollows(env, k.output.state, k.output.state);
      }
      FollowsThen(env, o, es, k.output.state, fs, RootFrame(env, h, input, start, body).host.output.state);
    }
  }

  lemma InputKept(env: Env, h: Host, k: Host)
    requires Kept(env, h, k)
    ensures var v := k.runtime.state.vmInput; v == h.runtime.state.vmInput.(gasProvided := v.gasProvided)
  {
  }
}
