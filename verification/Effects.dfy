/** What a run leaves in the output, as the list of its events in the order in which they happened:
    those of actions that were kept, and of no others. */
module Effects {
  import opened Overflow
  import opened Wrappers
  import opened Types
  import opened OutputModel
  import opened HostModel
  import opened OutputGrowth
  import opened StorageCache
  import opened Frames

  datatype Effect =
    | Moved(sender: Address, receiver: Address, amount: int)
    | Sent(receiver: Address, transfer: OutputTransfer)
    | Wrote(address: Address, key: Bytes, content: Bytes)
    | Refunded(gas: uint64)
    | Logged(entry: LogEntry)
    | Returned(data: Bytes)
    | Reported(message: string)
    | NewFrame  // a destination call starts without message and refund

  // ---------------------------------------------------------------- watching an output

  /** What can be seen of an output, for one account and one of its storage keys. */
  datatype Watch = Watch(
    logs: seq<LogEntry>, data: seq<Bytes>, code: ReturnCode, message: string, refund: int,
    delta: int, transfers: seq<OutputTransfer>, content: Bytes)

  function WatchOf(env: Env, o: VMOutput, a: Address, key: Bytes): Watch {
    Watch(o.logs, o.returnData, o.returnCode, o.returnMessage, if o.gasRefund.Some? then o.gasRefund.value else 0,
          DeltaAt(o.accounts, a), TransfersAt(o.accounts, a), Cell(env, o, a, key))
  }

  function Happens(w: Watch, e: Effect, a: Address, key: Bytes): Watch {
    match e
    case Moved(s, r, v) => w.(delta := w.delta + (if r == a then v else 0) - (if s == a then v else 0))
    case Sent(r, t) => if r == a then w.(transfers := w.transfers + [t]) else w
    case Wrote(b, k, v) => if b == a && k == key then w.(content := v) else w
    case Refunded(gas) => w.(refund := WrapInt64(AddUint64(w.refund % TWO_64, gas)))
    case Logged(entry) => w.(logs := w.logs + [entry])
    case Returned(d) => w.(data := w.data + [d])
    case Reported(m) => w.(message := m)
    case NewFrame => w.(code := Ok, message := "", refund := 0)
  }

  function After(w: Watch, es: seq<Effect>, a: Address, key: Bytes): Watch
    decreases |es|
  {
    if es == [] then w else Happens(After(w, es[..|es| - 1], a, key), es[|es| - 1], a, key)
  }

  /** Nothing but these events lies between o and p. */
  ghost predicate Follows(env: Env, o: VMOutput, es: seq<Effect>, p: VMOutput) {
    forall a, key :: WatchOf(env, p, a, key) == After(WatchOf(env, o, a, key), es, a, key)
  }

  lemma {:induction false} AfterBoth(w: Watch, es: seq<Effect>, fs: seq<Effect>, a: Address, key: Bytes)
    ensures After(w, es + fs, a, key) == After(After(w, es, a, key), fs, a, key)
    decreases |fs|
  {
    if fs == [] {
      assert es + fs == es;
    } else {
      assert (es + fs)[..|es + fs| - 1] == es + fs[..|fs| - 1];
      AfterBoth(w, es, fs[..|fs| - 1], a, key);
    }
  }

  lemma FollowsThen(env: Env, o: VMOutput, es: seq<Effect>, p: VMOutput, fs: seq<Effect>, q: VMOutput)
    requires Follows(env, o, es, p) && Follows(env, p, fs, q)
    ensures Follows(env, o, es + fs, q)
  {
    forall a, key
      ensures WatchOf(env, q, a, key) == After(WatchOf(env, o, a, key), es + fs, a, key)
    {
      AfterBoth(WatchOf(env, o, a, key), es, fs, a, key);
    }
  }

  lemma AfterOne(w: Watch, e: Effect, a: Address, key: Bytes)
    ensures After(w, [e], a, key) == Happens(w, e, a, key)
  {
    assert [e][..0] == [];
  }

  /** One event at a time. */
  lemma FollowsOne(env: Env, o: VMOutput, e: Effect, p: VMOutput)
    requires forall a, key :: WatchOf(env, p, a, key) == Happens(WatchOf(env, o, a, key), e, a, key)
    ensures Follows(env, o, [e], p)
  {
    forall a, key
      ensures WatchOf(env, p, a, key) == After(WatchOf(env, o, a, key), [e], a, key)
    {
      AfterOne(WatchOf(env, o, a, key), e, a, key);
    }
  }

  ghost predicate Unseen(env: Env, o: VMOutput, p: VMOutput) {
    forall a, key :: WatchOf(env, p, a, key) == WatchOf(env, o, a, key)
  }

  lemma UnseenFollows(env: Env, o: VMOutput, p: VMOutput)
    ensures Unseen(env, o, p) <==> Follows(env, o, [], p)
  {
  }

  lemma NothingFollows(env: Env, o: VMOutput, p: VMOutput, es: seq<Effect>, q: VMOutput)
    requires Unseen(env, o, p) && Follows(env, p, es, q)
    ensures Follows(env, o, es, q)
  {
  }

  lemma FollowsNothing(env: Env, o: VMOutput, es: seq<Effect>, p: VMOutput, q: VMOutput)
    requires Follows(env, o, es, p) && Unseen(env, p, q)
    ensures Follows(env, o, es, q)
  {
  }

  // ---------------------------------------------------------------- whose actions they are

  /** A running contract: its address, the account whose storage it writes, and what it may write. */
  datatype Self = Self(address: Address, cells: Address, readOnly: bool, protectionEnabled: bool)

  function SelfOf(h: Host): Self {
    Self(h.runtime.state.scAddress, h.storage.address, h.runtime.state.readOnly, h.storage.protectionEnabled)
  }

  lemma SelfKept(env: Env, h: Host, k: Host)
    requires Ready(env, h) && Kept(env, h, k)
    ensures SelfOf(k) == SelfOf(h) && Ready(env, k)
  {
    hide Ready, LiveCount;
    KeptReady(env, h, k);
  }

  // ---------------------------------------------------------------- events of scripts

  function Released(env: Env, before: Bytes, after: Bytes): seq<Effect> {
    var released := BytesOf(Len(before), Len(after)).released;
    if released == 0 then [] else [Refunded(MulUint64(env.gas.releasePerByte, released))]
  }

  /** The events of an action that makes no call. */
  function LocalEffects(env: Env, o: VMOutput, me: Self, a: Action): seq<Effect> {
    match a
    case Transfer(dest, value, gasLimit, data) =>
      [Moved(me.address, dest, value),
       Sent(dest, OutputTransfer(value, gasLimit, 0, data, DirectCall, me.address))]
    case SetStorage(key, value) =>
      if me.readOnly then [] else [Wrote(me.cells, key, value)] + Released(env, Cell(env, o, me.cells, key), value)
    case Finish(data) => [Returned(data)]
    case WriteLog(topics, data) => if me.readOnly then [] else [Logged(LogEntry(me.address, topics, data))]
    case _ => []
  }

  /** Each action in turn; a call that failed leaves nothing. */
  ghost function EffectsOf(env: Env, h: Host, me: Self, s: Script): seq<Effect>
    decreases s, 0
  {
    match s
    case Done => []
    case Then(a, rest) =>
      match a
      case CallDest(c) =>
        var input := CallInputOf(h, c);
        var callee := me.(address := c.recipient, cells := c.recipient);
        DestEffects(env, h, callee, [Moved(me.address, c.recipient, c.value)], input, c.start, c.body)
        + EffectsOf(env, ExecuteOnDest(env, h, input, c.start, c.body).host, me, rest)
      case CallSame(c) =>
        SameEffects(env, h, me, c)
        + EffectsOf(env, ExecuteOnSame(env, h, CallInputOf(h, c), c.start, c.body).0, me, rest)
      case Async(c) => AsyncEffects(env, h, me, c)
      case _ =>
        var r := LocalAction(env, h, a);
        LocalEffects(env, h.output.state, me, a) + if r.err.Some? then [] else EffectsOf(env, r.host, me, rest)
  }

  /** The events of a callee whose frame t has been entered. */
  ghost function FrameEffects(env: Env, t: Host, me: Self, input: CallInput, start: Start, body: Script): seq<Effect>
    decreases body, 1
  {
    if start.FunctionMissing? then [] else EffectsOf(env, Prepare(env, t, input, start).host, me, body)
  }

  ghost function DestEffects(
    env: Env, h: Host, callee: Self, moved: seq<Effect>, input: CallInput, start: Start, body: Script): seq<Effect>
    decreases body, 2
  {
    if ExecuteOnDest(env, h, input, start, body).err.Some? then []
    else [NewFrame] + (moved + FrameEffects(env, DestEntry(env, h, input).host, callee, Unlocked(input), start, body))
  }

  /** A call in the caller's context writes to the caller's storage. */
  ghost function SameEffects(env: Env, h: Host, me: Self, c: Call): seq<Effect>
    decreases c.body, 2
  {
    var input := CallInputOf(h, c);
    if ExecuteOnSame(env, h, input, c.start, c.body).1.Some? then []
    else [Moved(me.address, c.recipient, c.value)]
         + FrameEffects(env, SameEntry(env, h, input).host, me.(address := c.recipient), input, c.start, c.body)
  }

  /** An asynchronous call: sent away, or made here and answered by a callback. */
  ghost function AsyncEffects(env: Env, h: Host, me: Self, c: AsyncCall): seq<Effect>
    decreases c, 4
  {
    var p := PrepareAsync(env, h, c.destination, c.data, c.value);
    var info := AsyncInfoOf(p.host);
    var paid := Moved(me.address, c.destination, c.value);
    if p.err.Some? || c.parsed.None? then []
    else if !HasCode(env, c.destination) then
      [paid, Sent(c.destination, OutputTransfer(c.value, info.gasLimit, info.gasLocked, c.data, AsynchronousCall,
                                                me.address))]
    else
      var h1 := WithOutput(p.host, GetCode(env, p.host.output.state, c.destination).0);
      var input := DestinationInput(h1, c, info);
      var d := ExecuteOnDest(env, h1, input, c.start, c.body);
      var callee := me.(address := c.destination, cells := c.destination);
      DestEffects(env, h1, callee, [paid], input, c.start, c.body)
      + CallbackEffects(env, d.host, me, info, d.output, d.err.None? && d.output.returnCode.Ok?, c)
  }

  /** A callback that could not be paid for, or failed, is reported with its return code. */
  ghost function CallbackEffects(
    env: Env, h: Host, me: Self, info: AsyncCallInfo, out: VMOutput, ok: bool, c: AsyncCall): seq<Effect>
    decreases c, 3
  {
    var input := CallbackInput(env, h, info, out, ok);
    if input.None? then
      [Reported(if |h.output.state.returnMessage| > 0 then h.output.state.returnMessage else "not enough gas"),
       Returned("out of gas"), Returned("")]
    else
      var h1 := h.(runtime := SetPointsUsed(h.runtime, 0));
      var d := ExecuteOnDest(env, h1, input.value, c.callbackStart, c.callbackBody);
      DestEffects(env, h1, me.(cells := me.address), [], input.value, c.callbackStart, c.callbackBody)
      + if d.err.None? then []
        else [Reported(d.output.returnMessage), Returned(ReturnCodeText(d.output.returnCode)), Returned("")]
  }

  // ---------------------------------------------------------------- actions without calls

  lemma TransferFollows(
    env: Env, o: VMOutput, isAsyncCall: bool, dest: Address, sender: Address,
    gasLimit: uint64, gasLocked: uint64, value: int, data: Bytes, callType: CallType)
    requires Sound(env, o)
    ensures var (p, err) := TransferOut(env, o, isAsyncCall, dest, sender, gasLimit, gasLocked, value, data, callType);
      err.None? ==>
        Follows(env, o, [Moved(sender, dest, value),
                         Sent(dest, OutputTransfer(value, gasLimit, gasLocked, data, callType, sender))], p)
  {
    hide TransferValueOnly, Follows, Sound, WatchOf;
    var checkPayable := gasLimit > 0 && !callType.AsynchronousCallBack?;
    ValueFollows(env, o, isAsyncCall, dest, sender, value, checkPayable);
    var (o1, err) := TransferValueOnly(env, o, isAsyncCall, dest, sender, value, checkPayable);
    if err.None? {
      var o2 := WithAccount(o1, dest);
      var t := OutputTransfer(value, gasLimit, gasLocked, data, callType, sender);
      AccountUnseen(env, o1, dest);
      SentFollows(env, o2, dest, t);
      NothingFollows(env, o1, o2, [Sent(dest, t)],
                     SetAccount(o2, dest, o2.accounts[dest].(transfers := o2.accounts[dest].transfers + [t])));
      FollowsThen(env, o, [Moved(sender, dest, value)], o1, [Sent(dest, t)],
                  SetAccount(o2, dest, o2.accounts[dest].(transfers := o2.accounts[dest].transfers + [t])));
      assert [Moved(sender, dest, value)] + [Sent(dest, t)] == [Moved(sender, dest, value), Sent(dest, t)];
    }
  }

  lemma AccountUnseen(env: Env, o: VMOutput, a: Address)
    ensures Unseen(env, o, WithAccount(o, a)) && a in WithAccount(o, a).accounts
  {
  }

  lemma SentFollows(env: Env, o: VMOutput, dest: Address, t: OutputTransfer)
    requires dest in o.accounts
    ensures var acc := o.accounts[dest];
      Follows(env, o, [Sent(dest, t)], SetAccount(o, dest, acc.(transfers := acc.transfers + [t])))
  {
    var acc := o.accounts[dest];
    FollowsOne(env, o, Sent(dest, t), SetAccount(o, dest, acc.(transfers := acc.transfers + [t])));
  }

  /** A transfer of value is seen in the balances and nowhere else. */
  lemma ValueFollows(
    env: Env, o: VMOutput, isAsyncCall: bool, dest: Address, sender: Address, value: int, checkPayable: bool)
    requires Sound(env, o)
    ensures var (p, err) := TransferValueOnly(env, o, isAsyncCall, dest, sender, value, checkPayable);
      err.None? ==> Follows(env, o, [Moved(sender, dest, value)], p)
  {
    hide Follows, Sound;
    TransferMoves(env, o, isAsyncCall, dest, sender, value, checkPayable);
    var (p, err) := TransferValueOnly(env, o, isAsyncCall, dest, sender, value, checkPayable);
    if err.None? {
      OnlyValueMoves(env, o, isAsyncCall, dest, sender, value, checkPayable);
      FollowsOne(env, o, Moved(sender, dest, value), p);
    }
  }

  lemma OnlyValueMoves(
    env: Env, o: VMOutput, isAsyncCall: bool, dest: Address, sender: Address, value: int, checkPayable: bool)
    ensures var p := TransferValueOnly(env, o, isAsyncCall, dest, sender, value, checkPayable).0;
      forall a, key :: var w := WatchOf(env, p, a, key); w == WatchOf(env, o, a, key).(delta := w.delta)
  {
    hide Balance, AddDelta;
    if value >= 0 {
      var o1 := Balance(env, o, sender).0;
      BalanceUnseen(env, o, sender);
      DeltaOnly(env, o1, sender, -value);
      DeltaOnly(env, AddDelta(o1, sender, -value), dest, value);
    }
  }

  lemma BalanceUnseen(env: Env, o: VMOutput, a: Address)
    ensures Unseen(env, o, Balance(env, o, a).0)
  {
  }

  lemma DeltaOnly(env: Env, o: VMOutput, b: Address, v: int)
    ensures var p := AddDelta(o, b, v);
      forall a, key :: var w := WatchOf(env, p, a, key); w == WatchOf(env, o, a, key).(delta := w.delta)
  {
  }

  /** What is seen of outputs with the same cells and the same accounts otherwise. */
  lemma CellsUnseen(env: Env, o: VMOutput, p: VMOutput)
    requires SameCells(env, o, p) && p == o.(accounts := p.accounts)
    requires forall a :: DeltaAt(p.accounts, a) == DeltaAt(o.accounts, a)
    requires forall a :: TransfersAt(p.accounts, a) == TransfersAt(o.accounts, a)
    ensures Unseen(env, o, p)
  {
    hide Cell;
  }

  lemma CachedReadUnseen(env: Env, o: VMOutput, a: Address, key: Bytes)
    ensures var (p, v) := CachedRead(env, o, a, key);
      Unseen(env, o, p) && v == Cell(env, o, a, key) && a in p.accounts
  {
    CachedReadRefines(env, o, a, key);
    CellsUnseen(env, o, CachedRead(env, o, a, key).0);
  }

  lemma ChargeKeyOutput(env: Env, h: Host, key: Bytes)
    ensures var k := ChargeKey(env, h, key); k.output == h.output && k.storage == h.storage
  {
    hide SetPointsUsed;
  }

  lemma ReadsUnseen(env: Env, h: Host, a: Address, key: Bytes)
    ensures Unseen(env, h.output.state, ReadStorage(env, h, key).0.output.state)
    ensures Unseen(env, h.output.state, ReadStorageFromAddress(env, h, a, key).0.output.state)
  {
    hide CachedRead, SetPointsUsed, Unseen, ChargeKey;
    ChargeKeyOutput(env, h, key);
    SameUnseen(env, h.output.state);
    CachedReadUnseen(env, h.output.state, h.storage.address, key);
    CachedReadUnseen(env, h.output.state, a, key);
  }

  lemma SameUnseen(env: Env, o: VMOutput)
    ensures Unseen(env, o, o)
  {
  }

  lemma StoreFollows(env: Env, o: VMOutput, a: Address, key: Bytes, value: Bytes)
    requires a in o.accounts
    ensures var acc := o.accounts[a];
      Follows(env, o, [Wrote(a, key, value)], SetAccount(o, a, acc.(storage := acc.storage[key := value])))
  {
    StoreRefines(env, o, a, key, value);
    FollowsOne(env, o, Wrote(a, key, value),
               SetAccount(o, a, o.accounts[a].(storage := o.accounts[a].storage[key := value])));
  }

  lemma FreeFollows(env: Env, o: VMOutput, gas: uint64)
    ensures Follows(env, o, [Refunded(gas)], FreeGas(o, gas))
  {
    FollowsOne(env, o, Refunded(gas), FreeGas(o, gas));
  }

  lemma ReleaseFollows(env: Env, o: VMOutput, before: Bytes, after: Bytes)
    ensures var e := PriceOfChange(env, Len(before), Len(after));
      Follows(env, o, Released(env, before, after), if e.freed.Some? then FreeGas(o, e.freed.value) else o)
  {
    hide PriceOfChange, Follows, BytesOf;
    PriceIsOfBytes(env, Len(before), Len(after));
    FreeFollows(env, o, MulUint64(env.gas.releasePerByte, BytesOf(Len(before), Len(after)).released));
    SameUnseen(env, o);
    UnseenFollows(env, o, o);
  }

  /** Storing a value that is there already changes nothing. */
  lemma SameValueFollows(env: Env, o: VMOutput, a: Address, key: Bytes)
    ensures var v := Cell(env, o, a, key); Follows(env, o, [Wrote(a, key, v)] + Released(env, v, v), o)
  {
    var v := Cell(env, o, a, key);
    FollowsOne(env, o, Wrote(a, key, v), o);
    assert [Wrote(a, key, v)] + Released(env, v, v) == [Wrote(a, key, v)];
  }

  lemma WriteFollows(env: Env, h: Host, me: Self, key: Bytes, value: Bytes)
    requires me == SelfOf(h)
    ensures var (k, _, err) := WriteStorage(env, h, key, value);
      err.None? ==>
        Follows(env, h.output.state, LocalEffects(env, h.output.state, me, SetStorage(key, value)), k.output.state)
  {
    hide CachedRead, PriceOfChange, FreeGas, SetPointsUsed, Follows, Unseen, Released, ChargeKey, Cell;
    var a := h.storage.address;
    var before := Cell(env, h.output.state, a, key);
    ChargeKeyOutput(env, h, key);
    CachedReadUnseen(env, h.output.state, a, key);
    SameUnseen(env, h.output.state);
    UnseenFollows(env, h.output.state, h.output.state);
    var (o, current) := CachedRead(env, h.output.state, a, key);
    if Writable(env, h, key) {
      var es, fs := [Wrote(a, key, value)], Released(env, before, value);
      if current == value {
        SameValueFollows(env, h.output.state, a, key);
        FollowsNothing(env, h.output.state, es + fs, h.output.state, o);
      } else {
        var o1 := SetAccount(o, a, o.accounts[a].(storage := o.accounts[a].storage[key := value]));
        StoreFollows(env, o, a, key, value);
        ReleaseFollows(env, o1, before, value);
        var e := PriceOfChange(env, Len(before), Len(value));
        var o2 := if e.freed.Some? then FreeGas(o1, e.freed.value) else o1;
        FollowsThen(env, o, es, o1, fs, o2);
        NothingFollows(env, h.output.state, o, es + fs, o2);
      }
    }
  }

  lemma LocalFollows(env: Env, h: Host, me: Self, a: Action)
    requires Ready(env, h) && me == SelfOf(h)
    requires !a.CallDest? && !a.CallSame? && !a.Async?
    ensures var r := LocalAction(env, h, a);
      r.err.None? ==> Follows(env, h.output.state, LocalEffects(env, h.output.state, me, a), r.host.output.state)
  {
    hide WriteStorage, Follows, Ready, LocalEffects;
    SoundWhenReady(env, h);
    if a.Transfer? {
      TransferActionFollows(env, h, me, a);
    } else if a.SetStorage? {
      WriteFollows(env, h, me, a.key, a.content);
      assert a == SetStorage(a.key, a.content);
      assert WriteStorage(env, h, a.key, a.content).2.None? ==>
          LocalAction(env, h, a).host == WriteStorage(env, h, a.key, a.content).0;
    } else if a.GetStorage? || a.GetStorageFromAddress? {
      ReadActionFollows(env, h, me, a);
    } else {
      PlainFollows(env, h, me, a);
    }
  }

  lemma TransferActionFollows(env: Env, h: Host, me: Self, a: Action)
    requires Sound(env, h.output.state) && me == SelfOf(h) && a.Transfer?
    ensures var r := LocalAction(env, h, a);
      r.err.None? ==> Follows(env, h.output.state, LocalEffects(env, h.output.state, me, a), r.host.output.state)
  {
    hide TransferOut, Follows, Sound;
    var async := h.runtime.state.vmInput.callType.AsynchronousCall?;
    TransferFollows(env, h.output.state, async, a.destination, me.address, a.gasLimit, 0, a.amount, a.data, DirectCall);
    var (o, err) := TransferOut(env, h.output.state, async, a.destination, me.address, a.gasLimit, 0, a.amount, a.data,
                                DirectCall);
    assert err.None? ==> LocalAction(env, h, a).host == WithOutput(h, o);
  }

  lemma ReadActionFollows(env: Env, h: Host, me: Self, a: Action)
    requires a.GetStorage? || a.GetStorageFromAddress?
    ensures Follows(env, h.output.state, LocalEffects(env, h.output.state, me, a),
                    LocalAction(env, h, a).host.output.state)
  {
    hide ReadStorage, ReadStorageFromAddress, Follows, Unseen;
    ReadsUnseen(env, h, if a.GetStorage? then "" else a.address, a.key);
    UnseenFollows(env, h.output.state, LocalAction(env, h, a).host.output.state);
  }

  lemma PlainFollows(env: Env, h: Host, me: Self, a: Action)
    requires me == SelfOf(h) && (a.UseGas? || a.SetBigInt? || a.Finish? || a.WriteLog? || a.Fail? || a.Signal?)
    ensures var r := LocalAction(env, h, a);
      r.err.None? ==> Follows(env, h.output.state, LocalEffects(env, h.output.state, me, a), r.host.output.state)
  {
    hide SetPointsUsed, Follows;
    var p := LocalAction(env, h, a).host.output.state;
    SameUnseen(env, h.output.state);
    UnseenFollows(env, h.output.state, h.output.state);
    match a
    case Finish(data) => FollowsOne(env, h.output.state, Returned(data), p);
    case WriteLog(topics, data) =>
      if !me.readOnly {
        FollowsOne(env, h.output.state, Logged(LogEntry(me.address, topics, data)), p);
      }
    case _ =>
  }

  // ---------------------------------------------------------------- frames

  lemma CodeUnseen(env: Env, o: VMOutput, a: Address)
    ensures Unseen(env, o, GetCode(env, o, a).0)
  {
  }

  lemma PrepareUnseen(env: Env, t: Host, input: CallInput, start: Start)
    ensures var p := Prepare(env, t, input, start).host;
      Unseen(env, t.output.state, p.output.state) && SelfOf(p) == SelfOf(t)
  {
    hide GetCode, Unseen, InitialCost, LiveCount;
    SameUnseen(env, t.output.state);
    CodeUnseen(env, t.output.state, t.runtime.state.scAddress);
  }

  lemma OutputUnseen(env: Env, f: Host)
    ensures Unseen(env, f.output.state, GetVMOutput(f).0.output.state)
    ensures GetVMOutput(f).1.returnCode.Ok? ==> GetVMOutput(f).1 == GetVMOutput(f).0.output.state
  {
    hide Unseen, RecordGas, CurrentTotalUsedGas, WithoutCode;
    var o := RecordGas(f).0;
    RecordUnseen(env, f);
    WithoutCodeUnseen(env, o, f.output.codeUpdates);
    UnseenBoth(env, f.output.state, o, o.(accounts := WithoutCode(o.accounts, f.output.codeUpdates)));
    var p := GetVMOutput(f).0.output.state;
    RemainingUnseen(env, o.(accounts := WithoutCode(o.accounts, f.output.codeUpdates)), p.gasRemaining);
    UnseenBoth(env, f.output.state, o.(accounts := WithoutCode(o.accounts, f.output.codeUpdates)), p);
  }

  lemma RemainingUnseen(env: Env, o: VMOutput, gas: uint64)
    ensures Unseen(env, o, o.(gasRemaining := gas))
  {
  }

  lemma RecordUnseen(env: Env, f: Host)
    ensures Unseen(env, f.output.state, RecordGas(f).0)
  {
    hide GasUsedByContract;
  }

  lemma WithoutCodeUnseen(env: Env, o: VMOutput, codeUpdates: set<Address>)
    ensures Unseen(env, o, o.(accounts := WithoutCode(o.accounts, codeUpdates)))
  {
  }

  lemma UnseenBoth(env: Env, o: VMOutput, p: VMOutput, q: VMOutput)
    requires Unseen(env, o, p) && Unseen(env, p, q)
    ensures Unseen(env, o, q)
  {
  }

  /** What a caller sees of its callee's output when it is merged: behind its own logs and data. */
  function Under(w: Watch, logs: seq<LogEntry>, data: seq<Bytes>): Watch {
    w.(logs := logs + w.logs, data := data + w.data)
  }

  lemma {:induction false} AfterUnder(
    w: Watch, logs: seq<LogEntry>, data: seq<Bytes>, es: seq<Effect>, a: Address, key: Bytes)
    ensures After(Under(w, logs, data), es, a, key) == Under(After(w, es, a, key), logs, data)
    decreases |es|
  {
    if es != [] {
      AfterUnder(w, logs, data, es[..|es| - 1], a, key);
    }
  }

  lemma MergeUnder(env: Env, pushed: VMOutput, current: VMOutput)
    requires Sound(env, pushed) && Grows(env, pushed, current)
    ensures forall a, key :: WatchOf(env, PopMerge(pushed, current), a, key)
                             == Under(WatchOf(env, current, a, key), pushed.logs, pushed.returnData)
  {
    hide TotalDelta, PopMerge, CacheSound, HasCode, Extends;
    SoundIsValid(env, pushed);
    SoundIsValid(env, current);
    MergeOnSuccess(pushed, current) by {
      assert Extends(pushed.accounts, current.accounts);
    }
    var m := PopMerge(pushed, current);
    forall a, key
      ensures WatchOf(env, m, a, key) == Under(WatchOf(env, current, a, key), pushed.logs, pushed.returnData)
    {
      if a in current.accounts {
        assert SameButCode(m.accounts[a], current.accounts[a]);
      }
    }
  }

  /** A destination call starts with nothing to be seen but balances, transfers and storage. */
  function Afresh(w: Watch): Watch {
    w.(logs := [], data := [], code := Ok, message := "", refund := 0)
  }

  ghost predicate StartsFresh(env: Env, o: VMOutput, es: seq<Effect>, p: VMOutput) {
    forall a, key :: WatchOf(env, p, a, key) == After(Afresh(WatchOf(env, o, a, key)), es, a, key)
  }

  /** What was seen afresh is seen by the caller behind its own logs and data, with the callee's message
      and refund. */
  lemma FreshThenMerged(env: Env, o: VMOutput, es: seq<Effect>, p: VMOutput)
    requires Sound(env, o) && Grows(env, o, p) && StartsFresh(env, o, es, p)
    ensures Follows(env, o, [NewFrame] + es, PopMerge(o, p))
    ensures StartsFresh(env, o, [NewFrame] + es, p)
  {
    hide PopMerge, Sound, Grows;
    MergeUnder(env, o, p);
    forall a, key
      ensures WatchOf(env, PopMerge(o, p), a, key) == After(WatchOf(env, o, a, key), [NewFrame] + es, a, key)
      ensures WatchOf(env, p, a, key) == After(Afresh(WatchOf(env, o, a, key)), [NewFrame] + es, a, key)
    {
      var w := WatchOf(env, o, a, key);
      AfterUnder(Afresh(w), w.logs, w.data, es, a, key);
      AfterOne(w, NewFrame, a, key);
      AfterBoth(w, [NewFrame], es, a, key);
      AfterOne(Afresh(w), NewFrame, a, key);
      AfterBoth(Afresh(w), [NewFrame], es, a, key);
      assert w.logs + [] == w.logs && w.data + [] == w.data;
      assert Happens(w, NewFrame, a, key) == Under(Afresh(w), w.logs, w.data);
    }
  }

  lemma StartsFreshThen(env: Env, o: VMOutput, es: seq<Effect>, p: VMOutput, fs: seq<Effect>, q: VMOutput)
    requires StartsFresh(env, o, es, p) && Follows(env, p, fs, q)
    ensures StartsFresh(env, o, es + fs, q)
  {
    forall a, key
      ensures WatchOf(env, q, a, key) == After(Afresh(WatchOf(env, o, a, key)), es + fs, a, key)
    {
      AfterBoth(Afresh(WatchOf(env, o, a, key)), es, fs, a, key);
    }
  }

  /** Which value moves when a destination call is entered. */
  predicate EntryMoves(input: CallInput, moved: seq<Effect>) {
    var v := input.vmInput;
    if v.callType.AsynchronousCallBack? then moved == []
    else moved == [Moved(v.callerAddr, input.recipient, v.callValue)]
  }

  lemma DestEntryShows(env: Env, h: Host, callee: Self, moved: seq<Effect>, input: CallInput)
    requires Ready(env, h) && EntryMoves(input, moved)
    requires callee == SelfOf(h).(address := input.recipient, cells := input.recipient)
    ensures var t := DestEntry(env, h, input);
      t.err.None? ==> StartsFresh(env, h.output.state, moved, t.host.output.state) && SelfOf(t.host) == callee
  {
    hide Ready, TransferValueOnly, Follows, TotalDelta, CurrentTotalUsedGas, Snapshot;
    SoundWhenReady(env, h);
    SoundIsValid(env, h.output.state);
    SnapshotIsIdentity(h.output.state);
    CensoredGrows(env, h.output.state);
    var o := Censored(h.output.state);
    assert EnterDest(h, input).output.state == o;
    CensoredFresh(env, h.output.state);
    if DestEntry(env, h, input).err.None? {
      EntryFollows(env, EnterDest(h, input), moved, input);
      StartsFreshThen(env, h.output.state, [], o, moved, DestEntry(env, h, input).host.output.state);
      assert [] + moved == moved;
    }
  }

  /** A callback moves no value on entry; any other call moves its call value. */
  lemma EntryFollows(env: Env, f: Host, moved: seq<Effect>, input: CallInput)
    requires Sound(env, f.output.state) && EntryMoves(input, moved)
    ensures var t := TransferOnEntry(env, f, input);
      t.err.None? && (moved == [] ==> input.vmInput.callValue == 0) ==>
        Follows(env, f.output.state, moved, t.host.output.state)
    ensures moved == [] ==> Follows(env, f.output.state, moved, f.output.state)
  {
    hide TransferValueOnly, Follows, Sound;
    var v := input.vmInput;
    var async := f.runtime.state.vmInput.callType.AsynchronousCall?;
    var (p, err) := TransferValueOnly(env, f.output.state, async, input.recipient, v.callerAddr, v.callValue, false);
    ValueFollows(env, f.output.state, async, input.recipient, v.callerAddr, v.callValue, false);
    SameUnseen(env, f.output.state);
    UnseenFollows(env, f.output.state, f.output.state);
    if err.None? && v.callValue == 0 {
      NothingMoved(env, f.output.state, v.callerAddr, input.recipient, p);
      UnseenFollows(env, f.output.state, p);
    }
  }

  lemma NothingMoved(env: Env, o: VMOutput, sender: Address, receiver: Address, p: VMOutput)
    requires Follows(env, o, [Moved(sender, receiver, 0)], p)
    ensures Unseen(env, o, p)
  {
    forall a, key
      ensures WatchOf(env, p, a, key) == WatchOf(env, o, a, key)
    {
      AfterOne(WatchOf(env, o, a, key), Moved(sender, receiver, 0), a, key);
    }
  }

  lemma CensoredFresh(env: Env, o: VMOutput)
    ensures StartsFresh(env, o, [], Censored(o))
  {
  }

  // ---------------------------------------------------------------- every call, every script

  /** The body of a callee, in the frame entered for it. */
  lemma {:induction false} FrameFollows(
    env: Env, h: Host, t: Host, own: bool, me: Self, input: CallInput, start: Start, body: Script)
    requires Ready(env, h) && Inside(env, h, t, own) && me == SelfOf(t)
    requires |t.runtime.instances| == |h.runtime.instances| && t.runtime.instance == h.runtime.instance
    ensures var r := ExecuteCall(env, t, input, start, body);
      r.err.None? ==>
        Follows(env, t.output.state, FrameEffects(env, t, me, input, start, body), r.host.output.state)
    decreases body, 1
  {
    hide Ready, Inside, Prepare, Follows, Unseen, RunBody, EffectsOf;
    var p := Prepare(env, t, input, start);
    PrepareUnseen(env, t, input, start);
    PrepareInside(env, h, t, own, input, start);
    UnseenFollows(env, t.output.state, p.host.output.state);
    if p.err.None? && !start.FunctionMissing? {
      BodyFollows(env, p.host, me, body);
      if RunBody(env, p.host, body).err.None? {
        NothingFollows(env, t.output.state, p.host.output.state, EffectsOf(env, p.host, me, body),
                       RunBody(env, p.host, body).host.output.state);
      }
    }
  }

  /** A destination call: its own output shows its own events and no others, its caller's output
      then shows them after the caller's, and a call that failed is not seen at all. */
  lemma {:induction false} DestFollows(
    env: Env, h: Host, callee: Self, moved: seq<Effect>, input: CallInput, start: Start, body: Script)
    requires Ready(env, h) && EntryMoves(input, moved)
    requires callee == SelfOf(h).(address := input.recipient, cells := input.recipient)
    ensures var r := ExecuteOnDest(env, h, input, start, body);
      var es := DestEffects(env, h, callee, moved, input, start, body);
      && Follows(env, h.output.state, es, r.host.output.state)
      && (r.err.None? ==> StartsFresh(env, h.output.state, es, r.output))
    decreases body, 3
  {
    hide Ready, Inside, Follows, StartsFresh, Grows, ExecuteCall, DestEntry, FrameEffects, GetVMOutput, LeaveDest,
      PopMerge, Kept, Unseen;
    DestCallKept(env, h, input, start, body);
    var f := DestFrame(env, h, input, start, body);
    var r := ExecuteOnDest(env, h, input, start, body);
    if r.err.Some? {
      RolledBackUnseen(env, h, r.host);
      UnseenFollows(env, h.output.state, r.host.output.state);
    } else {
      var t := DestEntry(env, h, input);
      DestEntryShows(env, h, callee, moved, input);
      DestEntryInside(env, h, input);
      FrameFollows(env, h, t.host, true, callee, Unlocked(input), start, body);
      var es := FrameEffects(env, t.host, callee, Unlocked(input), start, body);
      StartsFreshThen(env, h.output.state, moved, t.host.output.state, es, f.host.output.state);
      DestFrameInside(env, h, input, start, body);
      DestLeaves(env, h, f.host, moved + es);
    }
  }

  lemma RolledBackUnseen(env: Env, h: Host, k: Host)
    requires RolledBack(h, k)
    ensures Unseen(env, h.output.state, k.output.state)
  {
  }

  /** A frame that ends with an accepted output is merged. */
  lemma DestLeaves(env: Env, h: Host, f: Host, es: seq<Effect>)
    requires Ready(env, h) && Inside(env, h, f, true) && StartsFresh(env, h.output.state, es, f.output.state)
    ensures var r := FinishDest(f, None);
      r.err.None? ==>
        && Follows(env, h.output.state, [NewFrame] + es, r.host.output.state)
        && StartsFresh(env, h.output.state, [NewFrame] + es, r.output)
  {
    hide Ready, Follows, StartsFresh, Grows, GetVMOutput, PopMerge, FrameInstances, ForwardGas, RestoreGas,
      GasSpentByContract, PopRuntime;
    var (k, out) := GetVMOutput(f);
    if out.returnCode.Ok? {
      SoundWhenReady(env, h);
      OutputUnseen(env, f);
      SoundOfGrown(env, h.output.state, f.output.state);
      GetVMOutputGrows(env, f);
      GrowsTransitive(env, h.output.state, f.output.state, k.output.state);
      UnseenFollows(env, f.output.state, k.output.state);
      StartsFreshThen(env, h.output.state, es, f.output.state, [], k.output.state);
      assert es + [] == es;
      FreshThenMerged(env, h.output.state, es, k.output.state);
      assert LeaveDest(k, out).output.state == PopMerge(h.output.state, k.output.state);
    }
  }

  lemma SoundOfGrown(env: Env, o: VMOutput, p: VMOutput)
    requires Grows(env, o, p)
    ensures Sound(env, p)
  {
  }

  lemma {:induction false} SameFollows(env: Env, h: Host, me: Self, c: Call)
    requires Ready(env, h) && me == SelfOf(h)
    ensures Follows(env, h.output.state, SameEffects(env, h, me, c),
                    ExecuteOnSame(env, h, CallInputOf(h, c), c.start, c.body).0.output.state)
    decreases c.body, 3
  {
    hide Ready, Inside, Follows, ExecuteCall, FrameEffects, FinishSame, Kept, Unseen, SameEntry, RolledBack;
    var input := CallInputOf(h, c);
    SameCallKept(env, h, input, c.start, c.body);
    var f := SameFrame(env, h, input, c.start, c.body);
    var r := ExecuteOnSame(env, h, input, c.start, c.body);
    SameError(f.host, f.err);
    if f.err.Some? {
      RolledBackUnseen(env, h, r.0);
      UnseenFollows(env, h.output.state, r.0.output.state);
    } else {
      var t := SameEntry(env, h, input);
      SameEntryShows(env, h, me, c);
      SameEntryInside(env, h, input);
      FrameFollows(env, h, t.host, false, me.(address := c.recipient), input, c.start, c.body);
      var es := FrameEffects(env, t.host, me.(address := c.recipient), input, c.start, c.body);
      var moved := [Moved(me.address, c.recipient, c.value)];
      FollowsThen(env, h.output.state, moved, t.host.output.state, es, f.host.output.state);
      EndsOk(env, t.host, input, c.start, c.body);
      SameLeaves(env, f.host);
      FollowsNothing(env, h.output.state, moved + es, f.host.output.state, r.0.output.state);
    }
  }

  lemma SameError(f: Host, err: Option<Error>)
    ensures FinishSame(f, err).1 == err
  {
    hide GetVMOutput;
  }

  lemma EndsOk(env: Env, t: Host, input: CallInput, start: Start, body: Script)
    ensures var r := ExecuteCall(env, t, input, start, body); r.err.None? ==> r.host.output.state.returnCode.Ok?
  {
    hide Prepare, RunBody;
  }

  lemma SameLeaves(env: Env, f: Host)
    requires f.output.state.returnCode.Ok?
    ensures Unseen(env, f.output.state, FinishSame(f, None).0.output.state)
  {
    hide GetVMOutput, SetPointsUsed, PopInstance, Unseen;
    OutputUnseen(env, f);
  }

  lemma SameEntryShows(env: Env, h: Host, me: Self, c: Call)
    requires Ready(env, h) && me == SelfOf(h)
    ensures var t := SameEntry(env, h, CallInputOf(h, c));
      t.err.None? ==>
        && Follows(env, h.output.state, [Moved(me.address, c.recipient, c.value)], t.host.output.state)
        && SelfOf(t.host) == me.(address := c.recipient)
  {
    hide Ready, TransferValueOnly, Follows, Snapshot;
    SoundWhenReady(env, h);
    SoundIsValid(env, h.output.state);
    SnapshotIsIdentity(h.output.state);
    var input := CallInputOf(h, c);
    EntryFollows(env, EnterSame(h, input), [Moved(me.address, c.recipient, c.value)], input);
  }

  lemma {:induction false} BodyFollows(env: Env, h: Host, me: Self, s: Script)
    requires Ready(env, h) && me == SelfOf(h)
    ensures var r := RunBody(env, h, s);
      r.err.None? ==> Follows(env, h.output.state, EffectsOf(env, h, me, s), r.host.output.state)
    decreases s, 0
  {
    hide Ready, Kept, Follows, ExecuteOnDest, ExecuteOnSame, LocalAction, RunAsync, CallInputOf, DestEffects,
      SameEffects, AsyncEffects, LocalEffects, Unseen, RolledBack;
    match s
    case Done =>
      SameUnseen(env, h.output.state);
      UnseenFollows(env, h.output.state, h.output.state);
    case Then(a, rest) =>
      match a
      case CallDest(c) =>
        var input := CallInputOf(h, c);
        var k := ExecuteOnDest(env, h, input, c.start, c.body).host;
        var moved := [Moved(me.address, c.recipient, c.value)];
        InputOfCall(h, c);
        DestFollows(env, h, me.(address := c.recipient, cells := c.recipient), moved, input, c.start, c.body);
        DestCallKept(env, h, input, c.start, c.body);
        var es := DestEffects(env, h, me.(address := c.recipient, cells := c.recipient), moved, input, c.start, c.body);
        RestFollows(env, h, me, es, k, rest);
      case CallSame(c) =>
        var k := ExecuteOnSame(env, h, CallInputOf(h, c), c.start, c.body).0;
        SameFollows(env, h, me, c);
        SameCallKept(env, h, CallInputOf(h, c), c.start, c.body);
        RestFollows(env, h, me, SameEffects(env, h, me, c), k, rest);
      case Async(c) => AsyncFollows(env, h, me, c);
      case _ =>
        var r := LocalAction(env, h, a);
        LocalFollows(env, h, me, a);
        LocalActionKept(env, h, a);
        if r.err.None? {
          RestFollows(env, h, me, LocalEffects(env, h.output.state, me, a), r.host, rest);
        }
  }

  lemma InputOfCall(h: Host, c: Call)
    ensures var input := CallInputOf(h, c);
      && input.recipient == c.recipient && input.vmInput.callType.DirectCall?
      && input.vmInput.callerAddr == h.runtime.state.scAddress && input.vmInput.callValue == c.value
  {
  }

  lemma {:induction false} RestFollows(env: Env, h: Host, me: Self, es: seq<Effect>, k: Host, rest: Script)
    requires Ready(env, h) && Kept(env, h, k) && me == SelfOf(h)
    requires Follows(env, h.output.state, es, k.output.state)
    ensures var r := RunBody(env, k, rest);
      r.err.None? ==> Follows(env, h.output.state, es + EffectsOf(env, k, me, rest), r.host.output.state)
    decreases rest, 1
  {
    hide Ready, Kept, Follows, RunBody, EffectsOf;
    SelfKept(env, h, k);
    BodyFollows(env, k, me, rest);
    if RunBody(env, k, rest).err.None? {
      FollowsThen(env, h.output.state, es, k.output.state, EffectsOf(env, k, me, rest),
                  RunBody(env, k, rest).host.output.state);
    }
  }

  lemma {:induction false} AsyncFollows(env: Env, h: Host, me: Self, c: AsyncCall)
    requires Ready(env, h) && me == SelfOf(h)
    ensures var r := RunAsync(env, h, c);
      r.err.None? ==> Follows(env, h.output.state, AsyncEffects(env, h, me, c), r.host.output.state)
    decreases c, 4
  {
    hide Ready, Kept, Follows, PrepareAsync, ExecuteOnDest, GetCode, SendAsync, RunCallback, Unseen,
      DestEffects, CallbackEffects, HasCode, RolledBack, DestinationInput, Grows;
    PrepareAsyncKept(env, h, c.destination, c.data, c.value);
    PrepareAsyncShows(env, h, c.destination, c.data, c.value);
    var p := PrepareAsync(env, h, c.destination, c.data, c.value);
    if p.err.None? && c.parsed.Some? {
      SelfKept(env, h, p.host);
      SoundWhenReady(env, p.host);
      var info := AsyncInfoOf(p.host);
      var (o, code, err) := GetCode(env, p.host.output.state, c.destination);
      GetCodeGrows(env, p.host.output.state, c.destination);
      CodeToGet(env, p.host.output.state, c.destination);
      CodeUnseen(env, p.host.output.state, c.destination);
      var h1 := WithOutput(p.host, o);
      WithOutputKept(env, p.host, o);
      SelfKept(env, p.host, h1);
      if err.Some? {
        SendAsyncFollows(env, h1, me, info);
        if SendAsync(env, h1, info).err.None? {
          NothingFollows(env, h.output.state, o, AsyncEffects(env, h, me, c),
                         SendAsync(env, h1, info).host.output.state);
        }
      } else {
        var input := DestinationInput(h1, c, info);
        var callee := me.(address := c.destination, cells := c.destination);
        var moved := [Moved(me.address, c.destination, c.value)];
        var d := ExecuteOnDest(env, h1, input, c.start, c.body);
        InputOfDestination(h1, c, info);
        DestFollows(env, h1, callee, moved, input, c.start, c.body);
        DestCallKept(env, h1, input, c.start, c.body);
        SelfKept(env, h1, d.host);
        var ok := d.err.None? && d.output.returnCode.Ok?;
        CallbackFollows(env, d.host, me, info, d.output, ok, c);
        var es := DestEffects(env, h1, callee, moved, input, c.start, c.body);
        var fs := CallbackEffects(env, d.host, me, info, d.output, ok, c);
        var k := RunCallback(env, d.host, info, d.output, ok, c).host;
        FollowsThen(env, o, es, d.host.output.state, fs, k.output.state);
        NothingFollows(env, h.output.state, o, es + fs, k.output.state);
      }
    }
  }

  lemma PrepareAsyncShows(env: Env, h: Host, dest: Address, data: Bytes, value: int)
    ensures var p := PrepareAsync(env, h, dest, data, value);
      p.err.None? ==> && p.host.output == h.output && SelfOf(p.host) == SelfOf(h)
                      && var info := AsyncInfoOf(p.host);
                         info.destination == dest && info.data == data && info.value == value
  {
    hide GasLockedForAsync;
  }

  lemma InputOfDestination(h: Host, c: AsyncCall, info: AsyncCallInfo)
    requires c.parsed.Some?
    ensures var input := DestinationInput(h, c, info);
      && input.recipient == info.destination && input.vmInput.callType.AsynchronousCall?
      && input.vmInput.callerAddr == h.runtime.state.scAddress && input.vmInput.callValue == info.value
  {
  }

  lemma CodeToGet(env: Env, o: VMOutput, a: Address)
    requires Sound(env, o)
    ensures GetCode(env, o, a).2.None? <==> HasCode(env, a)
  {
    if a in o.accounts {
      assert AccountSound(env, a, o.accounts[a]);
    }
  }

  lemma SendAsyncFollows(env: Env, h: Host, me: Self, info: AsyncCallInfo)
    requires Ready(env, h) && me == SelfOf(h)
    ensures var r := SendAsync(env, h, info);
      r.err.None? ==>
        Follows(env, h.output.state,
                [Moved(me.address, info.destination, info.value),
                 Sent(info.destination, OutputTransfer(info.value, info.gasLimit, info.gasLocked, info.data,
                                                       AsynchronousCall, me.address))],
                r.host.output.state)
  {
    hide Ready, TransferOut, Follows, SetPointsUsed;
    SoundWhenReady(env, h);
    var async := h.runtime.state.vmInput.callType.AsynchronousCall?;
    TransferFollows(env, h.output.state, async, info.destination, me.address, info.gasLimit, info.gasLocked,
                    info.value, info.data, AsynchronousCall);
    var (o, err) := TransferOut(env, h.output.state, async, info.destination, me.address, info.gasLimit,
                                info.gasLocked, info.value, info.data, AsynchronousCall);
    assert err.None? ==> SendAsync(env, h, info).host.output.state == o;
  }

  lemma ReportFollows(env: Env, h: Host, out: VMOutput)
    ensures Follows(env, h.output.state,
                    [Reported(out.returnMessage), Returned(ReturnCodeText(out.returnCode)), Returned("")],
                    ReportCallback(h, out).output.state)
  {
    hide Follows;
    var o := h.output.state;
    var text := ReturnCodeText(out.returnCode);
    var o1 := o.(returnMessage := out.returnMessage);
    var o2 := o1.(returnData := o1.returnData + [text]);
    var o3 := o2.(returnData := o2.returnData + [""]);
    FollowsOne(env, o, Reported(out.returnMessage), o1);
    FollowsOne(env, o1, Returned(text), o2);
    FollowsOne(env, o2, Returned(""), o3);
    FollowsThen(env, o, [Reported(out.returnMessage)], o1, [Returned(text)], o2);
    FollowsThen(env, o, [Reported(out.returnMessage)] + [Returned(text)], o2, [Returned("")], o3);
    assert [Reported(out.returnMessage)] + [Returned(text)] + [Returned("")]
           == [Reported(out.returnMessage), Returned(text), Returned("")];
    assert o.returnData + [text] + [""] == o.returnData + [text, ""];
  }

  lemma {:induction false} CallbackFollows(
    env: Env, h: Host, me: Self, info: AsyncCallInfo, out: VMOutput, ok: bool, c: AsyncCall)
    requires Ready(env, h) && me == SelfOf(h)
    ensures Follows(env, h.output.state, CallbackEffects(env, h, me, info, out, ok, c),
                    RunCallback(env, h, info, out, ok, c).host.output.state)
    decreases c, 3
  {
    hide Ready, Kept, Follows, ExecuteOnDest, SetPointsUsed, GasUsedForExecution, RolledBack, DestEffects,
      CallbackInput, ReportCallback;
    var input := CallbackInput(env, h, info, out, ok);
    if input.None? {
      ReportFollows(env, h, ErrorOutput(h.output.state, ErrNotEnoughGas));
    } else {
      var h1 := h.(runtime := SetPointsUsed(h.runtime, 0));
      SetPointsKept(env, h, 0);
      SelfKept(env, h, h1);
      InputOfCallback(env, h, info, out, ok);
      var callee := me.(cells := me.address);
      DestFollows(env, h1, callee, [], input.value, c.callbackStart, c.callbackBody);
      var d := ExecuteOnDest(env, h1, input.value, c.callbackStart, c.callbackBody);
      var es := DestEffects(env, h1, callee, [], input.value, c.callbackStart, c.callbackBody);
      assert es + [] == es;
      if d.err.Some? {
        ReportFollows(env, d.host, d.output);
        var fs := [Reported(d.output.returnMessage), Returned(ReturnCodeText(d.output.returnCode)), Returned("")];
        FollowsThen(env, h.output.state, es, d.host.output.state, fs, ReportCallback(d.host, d.output).output.state);
      }
    }
  }

  lemma InputOfCallback(env: Env, h: Host, info: AsyncCallInfo, out: VMOutput, ok: bool)
    ensures var input := CallbackInput(env, h, info, out, ok);
      input.Some? ==> EntryMoves(input.value, []) && input.value.recipient == h.runtime.state.scAddress
  {
  }
}
