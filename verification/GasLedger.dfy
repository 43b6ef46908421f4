/** What each operation on the output does to the gas it records. */
module GasLedger {
  import opened Overflow
  import opened Wrappers
  import opened Types
  import opened OutputModel
  import opened FiniteSums
  import opened HostModel

  function UsedAt(o: VMOutput, a: Address): uint64 {
    if a in o.accounts then o.accounts[a].gasUsed else 0
  }

  ghost function Recorded(o: VMOutput): int {
    TotalGas(o.accounts)
  }

  /** No gas recorded, moved or removed. */
  ghost predicate SameLedger(o: VMOutput, p: VMOutput) {
    && o.accounts.Keys <= p.accounts.Keys
    && (forall a :: UsedAt(p, a) == UsedAt(o, a))
    && (forall a :: TransfersAt(p.accounts, a) == TransfersAt(o.accounts, a))
    && p.returnCode == o.returnCode
  }

  lemma SameLedgerRecorded(o: VMOutput, p: VMOutput)
    requires SameLedger(o, p)
    ensures Recorded(p) == Recorded(o)
  {
    var m, n := GasOf(o.accounts), GasOf(p.accounts);
    forall a | a in n
      ensures n[a] == if a in m then m[a] else 0
    {
      assert UsedAt(p, a) == UsedAt(o, a) && TransfersAt(p.accounts, a) == TransfersAt(o.accounts, a);
    }
    SumMonotone(m, n);
  }

  lemma SameLedgerTransitive(o: VMOutput, p: VMOutput, q: VMOutput)
    requires SameLedger(o, p) && SameLedger(p, q)
    ensures SameLedger(o, q)
  {
    forall a
      ensures UsedAt(q, a) == UsedAt(o, a) && TransfersAt(q.accounts, a) == TransfersAt(o.accounts, a)
    {
      assert UsedAt(q, a) == UsedAt(p, a) && TransfersAt(q.accounts, a) == TransfersAt(p.accounts, a);
    }
  }

  lemma SetAccountLedger(o: VMOutput, a: Address, acc: Account)
    requires acc.gasUsed == UsedAt(o, a) && acc.transfers == TransfersAt(o.accounts, a)
    ensures SameLedger(o, SetAccount(o, a, acc))
  {
  }

  lemma WithAccountLedger(o: VMOutput, a: Address)
    ensures SameLedger(o, WithAccount(o, a))
  {
  }

  lemma BalanceLedger(env: Env, o: VMOutput, a: Address)
    ensures SameLedger(o, Balance(env, o, a).0)
  {
    WithAccountLedger(o, a);
  }

  lemma AddDeltaLedger(o: VMOutput, a: Address, v: int)
    ensures SameLedger(o, AddDelta(o, a, v))
  {
    WithAccountLedger(o, a);
  }

  lemma TransferValueOnlyLedger(
    env: Env, o: VMOutput, isAsyncCall: bool, dest: Address, sender: Address, value: int, checkPayable: bool)
    ensures SameLedger(o, TransferValueOnly(env, o, isAsyncCall, dest, sender, value, checkPayable).0)
  {
    hide SameLedger, AddDelta, Balance;
    if value < 0 {
      SameLedgerReflexive(o);
    } else {
      var o1 := Balance(env, o, sender).0;
      BalanceLedger(env, o, sender);
      var o2 := AddDelta(o1, sender, -value);
      AddDeltaLedger(o1, sender, -value);
      AddDeltaLedger(o2, dest, value);
      SameLedgerTransitive(o, o1, o2);
      SameLedgerTransitive(o, o2, AddDelta(o2, dest, value));
    }
  }

  lemma SameLedgerReflexive(o: VMOutput)
    ensures SameLedger(o, o)
  {
  }

  /** A transfer records the gas it carries, and nothing else changes. */
  lemma TransferOutLedger(
    env: Env, o: VMOutput, isAsyncCall: bool, dest: Address, sender: Address,
    gasLimit: uint64, gasLocked: uint64, value: int, data: Bytes, callType: CallType)
    ensures var (p, err) := TransferOut(env, o, isAsyncCall, dest, sender, gasLimit, gasLocked, value, data, callType);
      && (err.Some? ==> SameLedger(o, p))
      && (err.None? ==> Recorded(p) == Recorded(o) + gasLimit + gasLocked && p.returnCode == o.returnCode)
      && (forall a :: UsedAt(p, a) == UsedAt(o, a))
  {
    hide TotalGas, TransferValueOnly;
    var checkPayable := gasLimit > 0 && !callType.AsynchronousCallBack?;
    TransferValueOnlyLedger(env, o, isAsyncCall, dest, sender, value, checkPayable);
    var (o1, err) := TransferValueOnly(env, o, isAsyncCall, dest, sender, value, checkPayable);
    if err.None? {
      var o2 := WithAccount(o1, dest);
      WithAccountLedger(o1, dest);
      SameLedgerTransitive(o, o1, o2);
      SameLedgerRecorded(o, o2);
      var acc := o2.accounts[dest];
      var t := OutputTransfer(value, gasLimit, gasLocked, data, callType, sender);
      TransfersGasAppend(acc.transfers, t);
      TotalGasUpdate(o2.accounts, dest, acc.(transfers := acc.transfers + [t]));
    }
  }

  lemma CachedReadLedger(env: Env, o: VMOutput, a: Address, key: Bytes)
    ensures SameLedger(o, CachedRead(env, o, a, key).0)
    ensures a in CachedRead(env, o, a, key).0.accounts
  {
    WithAccountLedger(o, a);
  }

  lemma GetCodeLedger(env: Env, o: VMOutput, a: Address)
    ensures SameLedger(o, GetCode(env, o, a).0)
  {
    WithAccountLedger(o, a);
  }

  lemma WithoutCodeLedger(o: VMOutput, codeUpdates: set<Address>)
    ensures SameLedger(o, o.(accounts := WithoutCode(o.accounts, codeUpdates)))
  {
  }

  /** Handing out an output records, for the running contract, the gas it spent itself, in place of
      what was recorded for it before. */
  lemma RecordGasLedger(h: Host)
    requires h.output.state.returnCode.Ok?
    ensures var (o, beyond) := RecordGas(h);
      && Recorded(o)
         == Recorded(h.output.state) - UsedAt(h.output.state, h.runtime.state.scAddress) + GasUsedByContract(h).0
      && beyond == GasUsedByContract(h).1
      && o.gasRemaining == GasLeft(h)
      && o.returnCode.Ok?
      && (forall a :: UsedAt(o, a) == if a == h.runtime.state.scAddress then GasUsedByContract(h).0
                                      else UsedAt(h.output.state, a))
  {
    hide TotalGas, GasUsedByContract, GasLeft;
    var a := h.runtime.state.scAddress;
    var o := WithAccount(h.output.state, a);
    WithAccountLedger(h.output.state, a);
    SameLedgerRecorded(h.output.state, o);
    TotalGasUpdate(o.accounts, a, o.accounts[a].(gasUsed := GasUsedByContract(h).0));
  }

  /** A contract that reported an error is recorded with all it was provided, on top of what was
      recorded before. */
  lemma RecordGasOfFailure(h: Host)
    requires !h.output.state.returnCode.Ok?
    ensures var (o, beyond) := RecordGas(h);
      && beyond == 0 && o.gasRemaining == h.output.state.gasRemaining
      && forall a :: UsedAt(o, a) == if a == h.runtime.state.scAddress
                                     then AddUint64(UsedAt(h.output.state, a), h.metering.state.initialGasProvided)
                                     else UsedAt(h.output.state, a)
  {
  }

  /** The output handed out, when nothing was forwarded beyond what was spent: the gas recorded,
      and exactly when the gas check accepts it. */
  lemma GetVMOutputLedger(h: Host)
    requires h.output.state.returnCode.Ok? && GasUsedByContract(h).1 == 0
    ensures var (k, out) := GetVMOutput(h);
      var recorded := Recorded(h.output.state) - UsedAt(h.output.state, h.runtime.state.scAddress)
                      + GasUsedByContract(h).0;
      && Recorded(k.output.state) == recorded
      && k == WithOutput(h, k.output.state)
      && k.output.state.returnCode.Ok? && k.output.state.gasRemaining == GasLeft(h)
      && (out.returnCode.Ok? ==> out == k.output.state)
      && (out.returnCode.Ok? <==> Fits(recorded, GasLeft(h), h.metering))
      && (!out.returnCode.Ok? ==> out.gasRemaining == 0)
      && (forall a :: UsedAt(k.output.state, a) == if a == h.runtime.state.scAddress then GasUsedByContract(h).0
                                                   else UsedAt(h.output.state, a))
  {
    hide TotalGas, GasUsedByContract, GasLeft, RecordGas, WithoutCode;
    RecordGasLedger(h);
    var (o, beyond) := RecordGas(h);
    var o1 := o.(accounts := WithoutCode(o.accounts, h.output.codeUpdates));
    WithoutCodeLedger(o, h.output.codeUpdates);
    SameLedgerRecorded(o, o1);
  }

  /** The gas check, in saturating arithmetic. */
  ghost predicate Fits(recorded: int, remaining: uint64, m: Metering) {
    var total := if recorded > MAX_U64 then MAX_U64 else recorded;
    var sum := if total + remaining > MAX_U64 then MAX_U64 else total + remaining;
    sum - m.totalUsedGas <= m.state.initialGasProvided
  }
}
