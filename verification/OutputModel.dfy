/** The output state of the VM as a value: accounts, transfers, and how two states merge. */
module OutputModel {
  import opened Overflow
  import opened Wrappers
  import opened Types
  import opened FiniteSums

  datatype OutputTransfer = OutputTransfer(
    value: int, gasLimit: uint64, gasLocked: uint64, data: Bytes, callType: CallType, sender: Address)

  datatype LogEntry = LogEntry(address: Address, topics: seq<Bytes>, data: Bytes)

  datatype Account = Account(
    address: Address, nonce: uint64, balance: Option<int>, balanceDelta: Option<int>,
    storage: map<Bytes, Bytes>, code: Bytes, codeMetadata: Bytes, codeDeployer: Option<Address>,
    transfers: seq<OutputTransfer>, gasUsed: uint64)

  datatype VMOutput = VMOutput(
    returnData: seq<Bytes>, returnCode: ReturnCode, returnMessage: string, gasRemaining: uint64,
    gasRefund: Option<int>, accounts: map<Address, Account>, logs: seq<LogEntry>)

  const EMPTY_ACCOUNT := Account("", 0, None, None, map[], "", "", None, [], 0)
  const NEW_OUTPUT := VMOutput([], Ok, "", 0, Some(0), map[], [])

  function NewAccount(a: Address): Account {
    Account(a, 0, None, Some(0), map[], "", "", None, [], 0)
  }

  // ---------------------------------------------------------------- merging

  function MergeAccount(l: Account, r: Account): Account {
    Account(
      if |r.address| != 0 then r.address else l.address,
      if r.nonce > l.nonce then r.nonce else l.nonce,
      if r.balance.Some? then r.balance else l.balance,
      if r.balanceDelta.Some? then r.balanceDelta else if l.balanceDelta.Some? then l.balanceDelta else Some(0),
      l.storage + r.storage,
      if |r.code| > 0 then r.code else l.code,
      if |r.codeMetadata| > 0 then r.codeMetadata else l.codeMetadata,
      if r.codeDeployer.Some? then r.codeDeployer else l.codeDeployer,
      if |r.transfers| > |l.transfers| then l.transfers + r.transfers[|l.transfers|..] else l.transfers,
      r.gasUsed)
  }

  function MergedEntry(l: map<Address, Account>, r: map<Address, Account>, a: Address): Account
    requires a in r
  {
    MergeAccount(if a in l then l[a] else EMPTY_ACCOUNT, r[a])
  }

  function MergeAccounts(l: map<Address, Account>, r: map<Address, Account>): map<Address, Account> {
    map a | a in l.Keys + r.Keys :: if a in r then MergedEntry(l, r, a) else l[a]
  }

  function Merge(l: VMOutput, r: VMOutput): VMOutput {
    VMOutput(
      l.returnData + r.returnData, r.returnCode, r.returnMessage, r.gasRemaining,
      if r.gasRefund.Some? then r.gasRefund else Some(0),
      MergeAccounts(l.accounts, r.accounts), l.logs + r.logs)
  }

  /** Every account sits under its own address and carries a balance delta. */
  ghost predicate WellKeyed(m: map<Address, Account>) {
    forall a :: a in m ==> m[a].address == a
  }

  ghost predicate Valid(o: VMOutput) {
    && WellKeyed(o.accounts)
    && (forall a :: a in o.accounts ==> o.accounts[a].balanceDelta.Some?)
    && o.gasRefund.Some?
  }

  /** The snapshot taken by PushState. */
  function Snapshot(o: VMOutput): VMOutput {
    Merge(NEW_OUTPUT, o)
  }

  /** Merging into an empty output copies it: a pushed snapshot is the state it was taken from. */
  lemma SnapshotIsIdentity(o: VMOutput)
    requires Valid(o)
    ensures Snapshot(o) == o
  {
    var m := MergeAccounts(NEW_OUTPUT.accounts, o.accounts);
    assert m.Keys == o.accounts.Keys;
    forall a | a in o.accounts
      ensures m[a] == o.accounts[a]
    {
      assert EMPTY_ACCOUNT.storage + o.accounts[a].storage == o.accounts[a].storage;
      assert EMPTY_ACCOUNT.transfers + o.accounts[a].transfers[0..] == o.accounts[a].transfers;
    }
    assert NEW_OUTPUT.returnData + o.returnData == o.returnData;
    assert NEW_OUTPUT.logs + o.logs == o.logs;
  }

  // ---------------------------------------------------------------- extension

  /** An account only grows while contracts run on top of it. */
  ghost predicate AccountExtends(l: Account, r: Account) {
    && r.address == l.address
    && l.nonce <= r.nonce
    && (l.balance.Some? ==> r.balance == l.balance)
    && l.storage.Keys <= r.storage.Keys
    && l.transfers <= r.transfers
  }

  ghost predicate Extends(l: map<Address, Account>, r: map<Address, Account>) {
    forall a :: a in l ==> a in r && AccountExtends(l[a], r[a])
  }

  lemma ExtendsTransitive(l: map<Address, Account>, m: map<Address, Account>, r: map<Address, Account>)
    requires Extends(l, m) && Extends(m, r)
    ensures Extends(l, r)
  {
    forall a | a in l
      ensures a in r && AccountExtends(l[a], r[a])
    {
      assert a in m && AccountExtends(l[a], m[a]);
      assert AccountExtends(m[a], r[a]);
    }
  }

  /** Equal up to cached code, which the merge takes from the caller when the callee dropped it. */
  ghost predicate SameButCode(l: Account, r: Account) {
    l == r.(code := l.code, codeMetadata := l.codeMetadata, codeDeployer := l.codeDeployer)
  }

  function PopMerge(pushed: VMOutput, current: VMOutput): VMOutput {
    Merge(NEW_OUTPUT, Merge(pushed, current))
  }

  function CodeAfterMerge(pushed: VMOutput, current: VMOutput, a: Address): Bytes
    requires a in current.accounts
  {
    if |current.accounts[a].code| > 0 then current.accounts[a].code
    else if a in pushed.accounts then pushed.accounts[a].code else ""
  }

  lemma MergeAccountOnSuccess(l: Account, r: Account)
    requires l == EMPTY_ACCOUNT || AccountExtends(l, r)
    requires r.balanceDelta.Some?
    ensures SameButCode(MergeAccount(l, r), r)
    ensures MergeAccount(l, r).code == if |r.code| > 0 then r.code else l.code
  {
    assert l.storage + r.storage == r.storage;
    assert l.transfers <= r.transfers;
    assert r.transfers == l.transfers + r.transfers[|l.transfers|..];
  }

  /** Merge on success: when the callee's state extends the pushed one, the merged state has the
      callee's accounts (balance deltas, storage updates, nonces, gas used, and every output
      transfer exactly once, in order), the caller's logs and return data followed by the
      callee's, and the callee's return code, gas and refund. */
  lemma MergeOnSuccess(pushed: VMOutput, current: VMOutput)
    requires Valid(pushed) && Valid(current)
    requires Extends(pushed.accounts, current.accounts)
    ensures var m := PopMerge(pushed, current);
      && Valid(m)
      && m.accounts.Keys == current.accounts.Keys
      && (forall a :: a in current.accounts ==> SameButCode(m.accounts[a], current.accounts[a]))
      && (forall a :: a in current.accounts ==> m.accounts[a].code == CodeAfterMerge(pushed, current, a))
      && m.logs == pushed.logs + current.logs
      && m.returnData == pushed.returnData + current.returnData
      && m.returnCode == current.returnCode && m.returnMessage == current.returnMessage
      && m.gasRemaining == current.gasRemaining && m.gasRefund == current.gasRefund
  {
    var m := Merge(pushed, current);
    assert m.accounts.Keys == current.accounts.Keys;
    forall a | a in current.accounts
      ensures SameButCode(m.accounts[a], current.accounts[a])
      ensures m.accounts[a].code == CodeAfterMerge(pushed, current, a)
    {
      MergeAccountOnSuccess(
        if a in pushed.accounts then pushed.accounts[a] else EMPTY_ACCOUNT, current.accounts[a]);
    }
    assert WellKeyed(m.accounts);
    assert Valid(m);
    SnapshotIsIdentity(m);
  }

  // ---------------------------------------------------------------- totals

  function TransfersGas(ts: seq<OutputTransfer>): nat {
    if ts == [] then 0 else ts[0].gasLimit + ts[0].gasLocked + TransfersGas(ts[1..])
  }

  lemma {:induction false} TransfersGasAppend(ts: seq<OutputTransfer>, t: OutputTransfer)
    ensures TransfersGas(ts + [t]) == TransfersGas(ts) + t.gasLimit + t.gasLocked
  {
    if ts != [] {
      assert (ts + [t])[1..] == ts[1..] + [t];
      TransfersGasAppend(ts[1..], t);
    }
  }

  /** Gas an account accounts for: what its contract used plus what transfers carry away. */
  function AccountGas(a: Account): nat {
    a.gasUsed + TransfersGas(a.transfers)
  }

  function DeltaOf(a: Account): int {
    if a.balanceDelta.Some? then a.balanceDelta.value else 0
  }

  function DeltaAt(m: map<Address, Account>, a: Address): int {
    if a in m then DeltaOf(m[a]) else 0
  }

  function TransfersAt(m: map<Address, Account>, a: Address): seq<OutputTransfer> {
    if a in m then m[a].transfers else []
  }

  ghost function GasOf(m: map<Address, Account>): map<Address, int> {
    map a | a in m :: AccountGas(m[a])
  }

  ghost function DeltasOf(m: map<Address, Account>): map<Address, int> {
    map a | a in m :: DeltaOf(m[a])
  }

  ghost function TotalGas(m: map<Address, Account>): int {
    Sum(GasOf(m))
  }

  ghost function TotalDelta(m: map<Address, Account>): int {
    Sum(DeltasOf(m))
  }

  lemma TotalGasUpdate(m: map<Address, Account>, a: Address, acc: Account)
    ensures TotalGas(m[a := acc]) == TotalGas(m) - (if a in m then AccountGas(m[a]) else 0) + AccountGas(acc)
  {
    hide Sum, AccountGas;
    SumUpdate(GasOf(m), a, AccountGas(acc));
    assert GasOf(m[a := acc]) == GasOf(m)[a := AccountGas(acc)];
  }

  lemma TotalDeltaUpdate(m: map<Address, Account>, a: Address, acc: Account)
    ensures TotalDelta(m[a := acc]) == TotalDelta(m) - (if a in m then DeltaOf(m[a]) else 0) + DeltaOf(acc)
  {
    hide Sum;
    SumUpdate(DeltasOf(m), a, DeltaOf(acc));
    assert DeltasOf(m[a := acc]) == DeltasOf(m)[a := DeltaOf(acc)];
  }

  lemma TotalGasNonNegative(m: map<Address, Account>)
    ensures TotalGas(m) >= 0
  {
    SumNonNegative(GasOf(m));
  }

  /** Totals see neither code nor cached balances. */
  lemma TotalsOfSame(m: map<Address, Account>, n: map<Address, Account>)
    requires m.Keys == n.Keys
    requires forall a :: a in m ==> m[a].gasUsed == n[a].gasUsed && m[a].transfers == n[a].transfers
    requires forall a :: a in m ==> DeltaOf(m[a]) == DeltaOf(n[a])
    ensures TotalGas(m) == TotalGas(n)
    ensures TotalDelta(m) == TotalDelta(n)
  {
    assert GasOf(m) == GasOf(n);
    assert DeltasOf(m) == DeltasOf(n);
  }
}
