/** How the output evolves while contracts run: it only grows, the balance deltas keep their sum,
    no account is overdrawn, and cached values agree with the node. */
module OutputGrowth {
  import opened Overflow
  import opened Wrappers
  import opened Types
  import opened OutputModel
  import opened HostModel

  function HookBalance(env: Env, a: Address): int {
    if a in env.accounts then env.accounts[a].balance else 0
  }

  /** The cached balance is the node's, the account is not overdrawn, and entries cached for keys
      protected by the protocol hold the node's values. */
  ghost predicate AccountSound(env: Env, a: Address, acc: Account) {
    && acc.address == a && acc.balanceDelta.Some?
    && (acc.balance.Some? ==> a in env.accounts && acc.balance.value == env.accounts[a].balance)
    && HookBalance(env, a) + DeltaOf(acc) >= 0
    && CacheSound(env, a, acc.storage)
    && (|acc.code| > 0 ==> HasCode(env, a) && acc.code == env.accounts[a].code)
  }

  predicate HasCode(env: Env, a: Address) {
    a in env.accounts && |env.accounts[a].code| > 0
  }

  ghost predicate CacheSound(env: Env, a: Address, storage: map<Bytes, Bytes>) {
    forall k :: k in storage && HasPrefix(k, env.protectedKeyPrefix) ==> storage[k] == HookStorage(env, a, k)
  }

  ghost predicate Sound(env: Env, o: VMOutput) {
    && o.gasRefund.Some?
    && (forall a :: a in o.accounts ==> AccountSound(env, a, o.accounts[a]))
  }

  lemma SoundIsValid(env: Env, o: VMOutput)
    requires Sound(env, o)
    ensures Valid(o)
  {
  }

  ghost predicate Grows(env: Env, o: VMOutput, p: VMOutput) {
    Sound(env, p) && Extends(o.accounts, p.accounts) && TotalDelta(p.accounts) == TotalDelta(o.accounts)
  }

  lemma GrowsTransitive(env: Env, o: VMOutput, p: VMOutput, q: VMOutput)
    requires Grows(env, o, p) && Grows(env, p, q)
    ensures Grows(env, o, q)
  {
    hide TotalDelta;
    ExtendsTransitive(o.accounts, p.accounts, q.accounts);
  }

  lemma GrowsReflexive(env: Env, o: VMOutput)
    requires Sound(env, o)
    ensures Grows(env, o, o)
  {
  }

  lemma WithAccountGrows(env: Env, o: VMOutput, a: Address)
    requires Sound(env, o)
    ensures Grows(env, o, WithAccount(o, a))
    ensures a in WithAccount(o, a).accounts
  {
    hide TotalDelta;
    TotalDeltaUpdate(o.accounts, a, NewAccount(a));
  }

  lemma SetAccountGrows(env: Env, o: VMOutput, a: Address, acc: Account)
    requires Sound(env, o) && a in o.accounts
    requires AccountSound(env, a, acc) && AccountExtends(o.accounts[a], acc) && DeltaOf(acc) == DeltaOf(o.accounts[a])
    ensures Grows(env, o, SetAccount(o, a, acc))
  {
    hide TotalDelta;
    TotalDeltaUpdate(o.accounts, a, acc);
  }

  lemma BalanceGrows(env: Env, o: VMOutput, a: Address)
    requires Sound(env, o)
    ensures var (p, balance) := Balance(env, o, a);
      && Grows(env, o, p) && a in p.accounts
      && balance <= HookBalance(env, a) + DeltaOf(p.accounts[a])
  {
    hide TotalDelta;
    WithAccountGrows(env, o, a);
    var o1 := WithAccount(o, a);
    var acc := o1.accounts[a];
    assert AccountSound(env, a, acc);
    if acc.balance.None? && a in env.accounts {
      var acc1 := acc.(balance := Some(env.accounts[a].balance));
      SetAccountGrows(env, o1, a, acc1);
      GrowsTransitive(env, o, o1, SetAccount(o1, a, acc1));
    }
  }

  /** Adding to one balance delta changes the total by as much, and nothing else. */
  lemma AddDeltaSound(env: Env, o: VMOutput, a: Address, v: int)
    requires Sound(env, o)
    requires HookBalance(env, a) + DeltaAt(o.accounts, a) + v >= 0
    ensures var p := AddDelta(o, a, v);
      && Sound(env, p) && Extends(o.accounts, p.accounts)
      && TotalDelta(p.accounts) == TotalDelta(o.accounts) + v
      && (forall b :: DeltaAt(p.accounts, b) == DeltaAt(o.accounts, b) + if b == a then v else 0)
  {
    hide TotalDelta, CacheSound, HasCode;
    WithAccountGrows(env, o, a);
    var o1 := WithAccount(o, a);
    var acc := o1.accounts[a];
    assert AccountSound(env, a, acc);
    TotalDeltaUpdate(o1.accounts, a, acc.(balanceDelta := Some(DeltaOf(acc) + v)));
  }

  /** A transfer, to oneself or another, moves value without creating any or overdrawing the sender. */
  lemma TransferValueOnlyGrows(
    env: Env, o: VMOutput, isAsyncCall: bool, dest: Address, sender: Address, value: int, checkPayable: bool)
    requires Sound(env, o)
    ensures Grows(env, o, TransferValueOnly(env, o, isAsyncCall, dest, sender, value, checkPayable).0)
  {
    hide TotalDelta, AddDelta, Balance, CacheSound, Extends;
    if value < 0 {
      GrowsReflexive(env, o);
    } else {
      var (o1, balance) := Balance(env, o, sender);
      BalanceGrows(env, o, sender);
      if balance >= value {
        AddDeltaSound(env, o1, sender, -value);
        var o2 := AddDelta(o1, sender, -value);
        if dest in o2.accounts {
          assert AccountSound(env, dest, o2.accounts[dest]);
        }
        AddDeltaSound(env, o2, dest, value);
        ExtendsTransitive(o.accounts, o1.accounts, o2.accounts);
        ExtendsTransitive(o.accounts, o2.accounts, AddDelta(o2, dest, value).accounts);
      }
    }
  }

  /** What an account can pay: its balance at the node and what it has received since; an address the
      node does not know can pay nothing. */
  function Spendable(env: Env, o: VMOutput, a: Address): int {
    if a in env.accounts then env.accounts[a].balance + DeltaAt(o.accounts, a) else 0
  }

  predicate Accepts(env: Env, dest: Address, value: int, isAsyncCall: bool, checkPayable: bool) {
    dest in env.payable && (env.payable[dest] || !checkPayable || value == 0 || isAsyncCall)
  }

  /** What each account gains by a transfer of value; a transfer to oneself changes nothing. */
  function Gain(a: Address, sender: Address, dest: Address, value: int): int {
    (if a == dest then value else 0) - (if a == sender then value else 0)
  }

  lemma BalanceIsSpendable(env: Env, o: VMOutput, a: Address)
    requires Sound(env, o)
    ensures var (p, balance) := Balance(env, o, a);
      balance == Spendable(env, o, a) && forall b :: DeltaAt(p.accounts, b) == DeltaAt(o.accounts, b)
  {
    hide CacheSound;
    if a in o.accounts {
      assert AccountSound(env, a, o.accounts[a]);
    }
  }

  /** A transfer moves the value from the sender to the receiver, or fails and moves nothing; each
      error has its own condition. */
  lemma TransferMoves(
    env: Env, o: VMOutput, isAsyncCall: bool, dest: Address, sender: Address, value: int, checkPayable: bool)
    requires Sound(env, o)
    ensures var (p, err) := TransferValueOnly(env, o, isAsyncCall, dest, sender, value, checkPayable);
      && (err == Some(ErrTransferNegativeValue) <==> value < 0)
      && (err == Some(ErrTransferInsufficientFunds) <==> 0 <= value && Spendable(env, o, sender) < value)
      && (err == Some(ErrPayableLookup) <==>
            0 <= value <= Spendable(env, o, sender) && dest !in env.payable)
      && (err == Some(ErrAccountNotPayable) <==>
            && 0 <= value <= Spendable(env, o, sender) && dest in env.payable
            && !Accepts(env, dest, value, isAsyncCall, checkPayable))
      && (err.None? <==>
            0 <= value <= Spendable(env, o, sender) && Accepts(env, dest, value, isAsyncCall, checkPayable))
      && forall b :: DeltaAt(p.accounts, b)
                     == DeltaAt(o.accounts, b) + if err.None? then Gain(b, sender, dest, value) else 0
  {
    hide Balance, AddDelta, Sound, DeltaAt;
    BalanceIsSpendable(env, o, sender);
    var o1 := Balance(env, o, sender).0;
    AddDeltaAt(o1, sender, -value);
    AddDeltaAt(AddDelta(o1, sender, -value), dest, value);
  }

  lemma AddDeltaAt(o: VMOutput, a: Address, v: int)
    ensures forall b :: DeltaAt(AddDelta(o, a, v).accounts, b) == DeltaAt(o.accounts, b) + if b == a then v else 0
  {
  }

  /** A transfer with a gas limit runs the receiver's code, which must then accept the value; an answer
      is always accepted. */
  lemma TransferOutSucceeds(
    env: Env, o: VMOutput, isAsyncCall: bool, dest: Address, sender: Address,
    gasLimit: uint64, gasLocked: uint64, value: int, data: Bytes, callType: CallType)
    requires Sound(env, o)
    ensures var err := TransferOut(env, o, isAsyncCall, dest, sender, gasLimit, gasLocked, value, data, callType).1;
      var runs := gasLimit > 0 && !callType.AsynchronousCallBack?;
      err.None? <==> 0 <= value <= Spendable(env, o, sender) && Accepts(env, dest, value, isAsyncCall, runs)
  {
    hide TransferValueOnly, Sound;
    TransferMoves(env, o, isAsyncCall, dest, sender, value, gasLimit > 0 && !callType.AsynchronousCallBack?);
  }

  lemma TransferOutGrows(
    env: Env, o: VMOutput, isAsyncCall: bool, dest: Address, sender: Address,
    gasLimit: uint64, gasLocked: uint64, value: int, data: Bytes, callType: CallType)
    requires Sound(env, o)
    ensures Grows(env, o, TransferOut(env, o, isAsyncCall, dest, sender, gasLimit, gasLocked, value, data, callType).0)
  {
    hide TotalDelta;
    var checkPayable := gasLimit > 0 && !callType.AsynchronousCallBack?;
    TransferValueOnlyGrows(env, o, isAsyncCall, dest, sender, value, checkPayable);
    var (o1, err) := TransferValueOnly(env, o, isAsyncCall, dest, sender, value, checkPayable);
    var o2 := WithAccount(o1, dest);
    WithAccountGrows(env, o1, dest);
    GrowsTransitive(env, o, o1, o2);
    var acc := o2.accounts[dest];
    assert AccountSound(env, dest, acc);
    var acc' := acc.(transfers := acc.transfers + [OutputTransfer(value, gasLimit, gasLocked, data, callType, sender)]);
    SetAccountGrows(env, o2, dest, acc');
    GrowsTransitive(env, o, o2, SetAccount(o2, dest, acc'));
  }

  lemma CachedReadGrows(env: Env, o: VMOutput, a: Address, key: Bytes)
    requires Sound(env, o)
    ensures Grows(env, o, CachedRead(env, o, a, key).0)
    ensures a in CachedRead(env, o, a, key).0.accounts
  {
    hide TotalDelta;
    WithAccountGrows(env, o, a);
    var o1 := WithAccount(o, a);
    var acc := o1.accounts[a];
    assert AccountSound(env, a, acc);
    if key !in acc.storage {
      var acc1 := acc.(storage := acc.storage[key := HookStorage(env, a, key)]);
      SetAccountGrows(env, o1, a, acc1);
      GrowsTransitive(env, o, o1, SetAccount(o1, a, acc1));
    }
  }

  /** Storing under a key the protocol does not protect. */
  lemma StoredGrows(env: Env, o: VMOutput, a: Address, key: Bytes, value: Bytes)
    requires Sound(env, o) && !HasPrefix(key, env.protectedKeyPrefix)
    ensures var o1 := CachedRead(env, o, a, key).0;
      && a in o1.accounts
      && Grows(env, o, SetAccount(o1, a, o1.accounts[a].(storage := o1.accounts[a].storage[key := value])))
  {
    hide TotalDelta;
    CachedReadGrows(env, o, a, key);
    var o1 := CachedRead(env, o, a, key).0;
    assert AccountSound(env, a, o1.accounts[a]);
    var acc := o1.accounts[a].(storage := o1.accounts[a].storage[key := value]);
    SetAccountGrows(env, o1, a, acc);
    GrowsTransitive(env, o, o1, SetAccount(o1, a, acc));
  }

  lemma GetCodeGrows(env: Env, o: VMOutput, a: Address)
    requires Sound(env, o)
    ensures Grows(env, o, GetCode(env, o, a).0)
  {
    hide TotalDelta;
    WithAccountGrows(env, o, a);
    var o1 := WithAccount(o, a);
    var acc := o1.accounts[a];
    assert AccountSound(env, a, acc);
    if |acc.code| == 0 && HasCode(env, a) {
      var acc1 := acc.(code := env.accounts[a].code);
      SetAccountGrows(env, o1, a, acc1);
      GrowsTransitive(env, o, o1, SetAccount(o1, a, acc1));
    }
  }

  lemma RecordGasGrows(env: Env, h: Host)
    requires Sound(env, h.output.state)
    ensures Grows(env, h.output.state, RecordGas(h).0)
  {
    hide TotalDelta;
    var a := h.runtime.state.scAddress;
    var o := WithAccount(h.output.state, a);
    WithAccountGrows(env, h.output.state, a);
    assert AccountSound(env, a, o.accounts[a]);
    var acc := RecordGas(h).0.accounts[a];
    SetAccountGrows(env, o, a, acc);
    GrowsTransitive(env, h.output.state, o, SetAccount(o, a, acc));
  }

  lemma WithoutCodeGrows(env: Env, o: VMOutput, codeUpdates: set<Address>)
    requires Sound(env, o)
    ensures Grows(env, o, o.(accounts := WithoutCode(o.accounts, codeUpdates)))
  {
    hide TotalDelta, CacheSound;
    var m := WithoutCode(o.accounts, codeUpdates);
    forall a | a in m
      ensures AccountSound(env, a, m[a]) && AccountExtends(o.accounts[a], m[a])
    {
      assert AccountSound(env, a, o.accounts[a]);
    }
    assert Extends(o.accounts, m);
    TotalsOfSame(m, o.accounts);
  }

  lemma GetVMOutputGrows(env: Env, h: Host)
    requires Sound(env, h.output.state)
    ensures Grows(env, h.output.state, GetVMOutput(h).0.output.state)
    ensures GetVMOutput(h).0 == WithOutput(h, GetVMOutput(h).0.output.state)
    ensures GetVMOutput(h).1.returnCode.Ok? ==> GetVMOutput(h).1 == GetVMOutput(h).0.output.state
  {
    hide TotalDelta;
    RecordGasGrows(env, h);
    var (o, beyond) := RecordGas(h);
    WithoutCodeGrows(env, o, h.output.codeUpdates);
    GrowsTransitive(env, h.output.state, o, o.(accounts := WithoutCode(o.accounts, h.output.codeUpdates)));
  }

  /** An output that is handed out names code only for accounts whose code was set in this transaction. */
  lemma OutputCode(h: Host, a: Address)
    requires a in h.output.state.accounts
    ensures var (before, o) := (h.output.state.accounts[a], GetVMOutput(h).0.output.state);
      && a in o.accounts
      && (a in h.output.codeUpdates ==>
            && o.accounts[a].code == before.code && o.accounts[a].codeMetadata == before.codeMetadata
            && o.accounts[a].codeDeployer == before.codeDeployer)
      && (a !in h.output.codeUpdates ==>
            o.accounts[a].code == "" && o.accounts[a].codeMetadata == "" && o.accounts[a].codeDeployer.None?)
  {
    hide CurrentTotalUsedGas, GasUsedByContract, GasLeft;
  }

  lemma MergedGrows(env: Env, o: VMOutput, p: VMOutput)
    requires Sound(env, o) && Grows(env, o, p)
    ensures Grows(env, o, PopMerge(o, p))
  {
    hide TotalDelta, CacheSound, PopMerge, HookBalance, HasCode, Valid;
    SoundIsValid(env, o);
    SoundIsValid(env, p);
    MergeOnSuccess(o, p);
    var m := PopMerge(o, p);
    forall a | a in m.accounts
      ensures AccountSound(env, a, m.accounts[a])
      ensures a in o.accounts ==> AccountExtends(o.accounts[a], m.accounts[a])
    {
      assert SameButCode(m.accounts[a], p.accounts[a]);
      assert AccountSound(env, a, p.accounts[a]);
      if a in o.accounts {
        assert AccountSound(env, a, o.accounts[a]);
        assert AccountExtends(o.accounts[a], p.accounts[a]);
      }
    }
    TotalsOfSame(m.accounts, p.accounts);
  }
}
