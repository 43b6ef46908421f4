/** The output context on the heap. Amounts are shared by reference between a state and its
    snapshot; isolation rests on writers allocating new amounts and on accounts not being shared. */
module OutputObjects {
  import opened Overflow
  import opened Wrappers
  import opened Types
  import opened OutputModel
  import opened HostModel
  import opened FiniteSums

  // ---------------------------------------------------------------- objects

  /** A big integer held by reference. */
  class Amount {
    var number: int

    constructor (number: int)
      ensures this.number == number
    {
      this.number := number;
    }
  }

  ghost function Read(c: Amount?): Option<int>
    reads c
  {
    if c == null then None else Some(c.number)
  }

  class OutputAccount {
    var address: Address
    var nonce: uint64
    var balance: Amount?
    var balanceDelta: Amount?
    var storageUpdates: map<Bytes, Bytes>
    var code: Bytes
    var codeMetadata: Bytes
    var codeDeployer: Option<Address>
    var outputTransfers: seq<OutputTransfer>
    var gasUsed: uint64

    ghost function View(): Account
      reads this, balance, balanceDelta
    {
      Account(address, nonce, Read(balance), Read(balanceDelta), storageUpdates, code, codeMetadata, codeDeployer,
              outputTransfers, gasUsed)
    }

    /** An account with every field at its zero value. */
    constructor ()
      ensures View() == EMPTY_ACCOUNT && balance == null && balanceDelta == null
    {
      address, nonce, balance, balanceDelta, storageUpdates := "", 0, null, null, map[];
      code, codeMetadata, codeDeployer, outputTransfers, gasUsed := "", "", None, [], 0;
    }

    constructor New(a: Address)
      ensures View() == NewAccount(a) && fresh(balanceDelta)
    {
      var zero := new Amount(0);
      address, nonce, balance, balanceDelta, storageUpdates := a, 0, null, zero, map[];
      code, codeMetadata, codeDeployer, outputTransfers, gasUsed := "", "", None, [], 0;
    }

    method Write(write: FieldWrite)
      modifies this
      ensures View() == Written(old(View()), write)
    {
      match write
      case SetBalance(number) => balance := new Amount(number);
      case SetDelta(number) => balanceDelta := new Amount(number);
      case AppendTransfer(transfer) => outputTransfers := outputTransfers + [transfer];
      case SetGasUsed(gas) => gasUsed := gas;
      case SetStorageUpdate(key, content) => storageUpdates := storageUpdates[key := content];
      case SetCode(bytes) => code := bytes;
      case DropCode => code, codeMetadata, codeDeployer := "", "", None;
    }
  }

  /** An assignment to a field of an account; amounts are always new ones. */
  datatype FieldWrite =
    | SetBalance(balance: int)
    | SetDelta(delta: int)
    | AppendTransfer(transfer: OutputTransfer)
    | SetGasUsed(gasUsed: uint64)
    | SetStorageUpdate(key: Bytes, content: Bytes)
    | SetCode(code: Bytes)
    | DropCode

  function Written(account: Account, write: FieldWrite): Account {
    match write
    case SetBalance(balance) => account.(balance := Some(balance))
    case SetDelta(delta) => account.(balanceDelta := Some(delta))
    case AppendTransfer(transfer) => account.(transfers := account.transfers + [transfer])
    case SetGasUsed(gasUsed) => account.(gasUsed := gasUsed)
    case SetStorageUpdate(key, content) => account.(storage := account.storage[key := content])
    case SetCode(code) => account.(code := code)
    case DropCode => account.(code := "", codeMetadata := "", codeDeployer := None)
  }

  method MergeStorageUpdates(left: OutputAccount, right: OutputAccount)
    requires left != right
    modifies left`storageUpdates
    ensures left.storageUpdates == old(left.storageUpdates) + right.storageUpdates
  {
    var todo := right.storageUpdates.Keys;
    while todo != {}
      invariant todo <= right.storageUpdates.Keys
      invariant left.storageUpdates.Keys == old(left.storageUpdates).Keys + (right.storageUpdates.Keys - todo)
      invariant forall k :: k in right.storageUpdates && k !in todo ==>
                  left.storageUpdates[k] == right.storageUpdates[k]
      invariant forall k :: k in old(left.storageUpdates) && (k in todo || k !in right.storageUpdates) ==>
                  left.storageUpdates[k] == old(left.storageUpdates)[k]
      decreases todo
    {
      var key :| key in todo;
      left.storageUpdates := left.storageUpdates[key := right.storageUpdates[key]];
      todo := todo - {key};
    }
  }

  /** Balances are taken over by reference. */
  method MergeBalances(left: OutputAccount, right: OutputAccount)
    requires left != right
    modifies left`balance, left`balanceDelta
    ensures left.balance == if right.balance != null then right.balance else old(left.balance)
    ensures right.balanceDelta != null ==> left.balanceDelta == right.balanceDelta
    ensures right.balanceDelta == null && old(left.balanceDelta) != null ==> left.balanceDelta == old(left.balanceDelta)
    ensures right.balanceDelta == null && old(left.balanceDelta) == null ==>
              fresh(left.balanceDelta) && left.balanceDelta.number == 0
  {
    if right.balance != null {
      left.balance := right.balance;
    }
    if left.balanceDelta == null {
      left.balanceDelta := new Amount(0);
    }
    if right.balanceDelta != null {
      left.balanceDelta := right.balanceDelta;
    }
  }

  method MergeCode(left: OutputAccount, right: OutputAccount)
    requires left != right
    modifies left`code, left`codeMetadata, left`codeDeployer
    ensures left.code == if |right.code| > 0 then right.code else old(left.code)
    ensures left.codeMetadata == if |right.codeMetadata| > 0 then right.codeMetadata else old(left.codeMetadata)
    ensures left.codeDeployer == if right.codeDeployer.Some? then right.codeDeployer else old(left.codeDeployer)
  {
    if |right.code| > 0 {
      left.code := right.code;
    }
    if |right.codeMetadata| > 0 {
      left.codeMetadata := right.codeMetadata;
    }
    if right.codeDeployer.Some? {
      left.codeDeployer := right.codeDeployer;
    }
  }

  method MergeCounters(left: OutputAccount, right: OutputAccount)
    requires left != right
    modifies left`nonce, left`outputTransfers, left`gasUsed
    ensures left.nonce == if right.nonce > old(left.nonce) then right.nonce else old(left.nonce)
    ensures left.outputTransfers ==
            if |right.outputTransfers| > |old(left.outputTransfers)|
            then old(left.outputTransfers) + right.outputTransfers[|old(left.outputTransfers)|..]
            else old(left.outputTransfers)
    ensures left.gasUsed == right.gasUsed
  {
    if right.nonce > left.nonce {
      left.nonce := right.nonce;
    }
    if |right.outputTransfers| > |left.outputTransfers| {
      left.outputTransfers := left.outputTransfers + right.outputTransfers[|left.outputTransfers|..];
    }
    left.gasUsed := right.gasUsed;
  }

  method MergeOutputAccounts(left: OutputAccount, right: OutputAccount)
    requires left != right
    modifies left
    ensures left.View() == MergeAccount(old(left.View()), right.View())
  {
    if |right.address| != 0 {
      left.address := right.address;
    }
    MergeStorageUpdates(left, right);
    MergeBalances(left, right);
    MergeCode(left, right);
    MergeCounters(left, right);
  }

  type Accounts = map<Address, OutputAccount>

  ghost predicate Injective(m: Accounts) {
    forall a, b :: a in m && b in m && a != b ==> m[a] != m[b]
  }

  ghost function AmountsOf(m: Accounts): set<Amount?>
    reads m.Values
  {
    (set a | a in m :: m[a].balance) + (set a | a in m :: m[a].balanceDelta)
  }

  ghost function Views(m: Accounts): map<Address, Account>
    reads m.Values, AmountsOf(m)
  {
    map a | a in m :: m[a].View()
  }

  lemma OneViewChanged(was: map<Address, Account>, m: Accounts, a: Address)
    requires a in m && m.Keys == was.Keys + {a}
    requires forall b :: b in m && b != a ==> m[b].View() == was[b]
    ensures Views(m) == was[a := m[a].View()]
  {
    hide OutputAccount.View;
  }

  lemma SameViews(was: map<Address, Account>, m: Accounts)
    requires m.Keys == was.Keys
    requires forall a :: a in m ==> m[a].View() == was[a]
    ensures Views(m) == was
  {
    hide OutputAccount.View;
  }

  lemma ViewsOf(m: Accounts)
    ensures Views(m).Keys == m.Keys
    ensures forall a :: a in m ==> Views(m)[a] == m[a].View()
  {
  }

  lemma KeysAreAddresses(m: Accounts)
    requires WellKeyed(Views(m))
    ensures forall a :: a in m ==> m[a].address == a
  {
    forall a | a in m
      ensures m[a].address == a
    {
      assert Views(m)[a].address == a;
    }
  }

  class Output {
    var returnData: seq<Bytes>
    var returnCode: ReturnCode
    var returnMessage: string
    var gasRemaining: uint64
    var gasRefund: Amount?
    var accounts: Accounts
    var logs: seq<LogEntry>

    ghost function View(): VMOutput
      reads this, gasRefund, accounts.Values, AmountsOf(accounts)
    {
      VMOutput(returnData, returnCode, returnMessage, gasRemaining, Read(gasRefund), Views(accounts), logs)
    }

    constructor ()
      ensures View() == NEW_OUTPUT && accounts == map[] && fresh(gasRefund)
    {
      var zero := new Amount(0);
      returnData, returnCode, returnMessage, gasRemaining, gasRefund, accounts, logs :=
        [], Ok, "", 0, zero, map[], [];
      new;
      assert Views(accounts) == map[];
    }

    constructor Failed(code: ReturnCode, message: string)
      ensures View() == VMOutput([], code, message, 0, Some(0), map[], []) && accounts == map[]
    {
      var zero := new Amount(0);
      returnData, returnCode, returnMessage, gasRemaining, gasRefund, accounts, logs :=
        [], code, message, 0, zero, map[], [];
      new;
      assert Views(accounts) == map[];
    }
  }

  /** The account under an address, created empty if there is none. */
  method Entry(output: Output, a: Address) returns (account: OutputAccount)
    requires Injective(output.accounts)
    modifies output`accounts
    ensures Injective(output.accounts) && output.accounts == old(output.accounts)[a := account]
    ensures a in old(output.accounts) ==> account == old(output.accounts)[a]
    ensures a !in old(output.accounts) ==> fresh(account) && account.View() == EMPTY_ACCOUNT
  {
    if a !in output.accounts {
      account := new OutputAccount();
      output.accounts := output.accounts[a := account];
    } else {
      account := output.accounts[a];
    }
  }

  ghost function WithMerged(m: map<Address, Account>, a: Address, r: Account): map<Address, Account> {
    m[a := MergeAccount(if a in m then m[a] else EMPTY_ACCOUNT, r)]
  }

  /** One account of the right output merged into the left one. */
  method MergeOne(left: Output, right: OutputAccount)
    requires Injective(left.accounts) && right !in left.accounts.Values
    modifies left`accounts, left.accounts.Values
    ensures right.address in left.accounts && Injective(left.accounts) && right !in left.accounts.Values
    ensures left.accounts == old(left.accounts)[right.address := left.accounts[right.address]]
    ensures right.address in old(left.accounts) ==> left.accounts[right.address] == old(left.accounts)[right.address]
    ensures right.address !in old(left.accounts) ==> fresh(left.accounts[right.address])
    ensures Views(left.accounts) == WithMerged(old(Views(left.accounts)), right.address, right.View())
  {
    hide MergeAccount, Views, AmountsOf, OutputAccount.View;
    ghost var was := Views(left.accounts);
    ViewsOf(left.accounts);
    var account := Entry(left, right.address);
    MergeOutputAccounts(account, right);
    forall b | b in left.accounts && b != right.address
      ensures left.accounts[b].View() == was[b]
    {
      assert left.accounts[b] != account;
    }
    OneViewChanged(was, left.accounts, right.address);
  }

  /** What the left accounts have become once those in `done` are merged. */
  ghost function PartMerged(l: map<Address, Account>, r: map<Address, Account>, done: set<Address>)
    : map<Address, Account>
    requires done <= r.Keys
  {
    map a | a in l.Keys + done :: if a in done then MergedEntry(l, r, a) else l[a]
  }

  lemma PartMergedStep(l: map<Address, Account>, r: map<Address, Account>, done: set<Address>, a: Address)
    requires done <= r.Keys && a in r && a !in done
    ensures PartMerged(l, r, done + {a}) == WithMerged(PartMerged(l, r, done), a, r[a])
  {
    hide MergeAccount;
  }

  lemma PartMergedEnds(l: map<Address, Account>, r: map<Address, Account>)
    ensures PartMerged(l, r, {}) == l
    ensures PartMerged(l, r, r.Keys) == MergeAccounts(l, r)
  {
    hide MergeAccount;
  }

  /** Merging one account leaves every account of the right output as it was. */
  method MergeStep(left: Output, right: Output, a: Address)
    requires left != right && left.accounts.Values !! right.accounts.Values
    requires Injective(left.accounts) && a in right.accounts && right.accounts[a].address == a
    modifies left`accounts, left.accounts.Values
    ensures Injective(left.accounts) && left.accounts.Values !! right.accounts.Values
    ensures fresh(left.accounts.Values - old(left.accounts.Values))
    ensures Views(right.accounts) == old(Views(right.accounts))
    ensures a in Views(right.accounts)
    ensures Views(left.accounts) == WithMerged(old(Views(left.accounts)), a, Views(right.accounts)[a])
  {
    hide MergeAccount, WithMerged, Views, AmountsOf, OutputAccount.View;
    ghost var was := Views(right.accounts);
    ViewsOf(right.accounts);
    MergeOne(left, right.accounts[a]);
    forall b | b in right.accounts
      ensures right.accounts[b].View() == was[b]
    {
      assert right.accounts[b] in right.accounts.Values;
      assert right.accounts[b].View() == old(right.accounts[b].View());
    }
    SameViews(was, right.accounts);
  }

  method MergeAccountMaps(left: Output, right: Output)
    requires left != right && left.accounts.Values !! right.accounts.Values
    requires Injective(left.accounts) && WellKeyed(Views(right.accounts))
    modifies left`accounts, left.accounts.Values
    ensures Injective(left.accounts) && left.accounts.Values !! right.accounts.Values
    ensures fresh(left.accounts.Values - old(left.accounts.Values))
    ensures Views(right.accounts) == old(Views(right.accounts))
    ensures Views(left.accounts) == MergeAccounts(old(Views(left.accounts)), old(Views(right.accounts)))
  {
    hide MergeAccount, AmountsOf, WithMerged, Injective, Views, MergedEntry, OutputAccount.View, MergeAccounts,
      PartMerged;
    var todo := right.accounts.Keys;
    ghost var l, r := Views(left.accounts), Views(right.accounts);
    ViewsOf(right.accounts);
    PartMergedEnds(l, r);
    assert r.Keys - todo == {};
    while todo != {}
      invariant todo <= right.accounts.Keys
      invariant Injective(left.accounts) && left.accounts.Values !! right.accounts.Values
      invariant fresh(left.accounts.Values - old(left.accounts.Values))
      invariant Views(right.accounts) == r && WellKeyed(r)
      invariant Views(left.accounts) == PartMerged(l, r, r.Keys - todo)
      decreases todo
    {
      var a :| a in todo;
      KeysAreAddresses(right.accounts);
      MergeStep(left, right, a);
      PartMergedStep(l, r, r.Keys - todo, a);
      assert r.Keys - todo + {a} == r.Keys - (todo - {a});
      todo := todo - {a};
    }
    assert r.Keys - todo == r.Keys;
  }

  /** Everything but the accounts. */
  method MergeRest(left: Output, right: Output)
    requires left != right
    modifies left`logs, left`returnData, left`gasRemaining, left`gasRefund, left`returnCode, left`returnMessage
    ensures left.logs == old(left.logs) + right.logs && left.returnData == old(left.returnData) + right.returnData
    ensures left.gasRemaining == right.gasRemaining
    ensures left.returnCode == right.returnCode && left.returnMessage == right.returnMessage
    ensures right.gasRefund != null ==> left.gasRefund == right.gasRefund
    ensures right.gasRefund == null ==> fresh(left.gasRefund) && left.gasRefund.number == 0
  {
    left.logs := left.logs + right.logs;
    left.returnData := left.returnData + right.returnData;
    left.gasRemaining := right.gasRemaining;
    left.gasRefund := right.gasRefund;
    if left.gasRefund == null {
      left.gasRefund := new Amount(0);
    }
    left.returnCode := right.returnCode;
    left.returnMessage := right.returnMessage;
  }

  method MergeVMOutputs(left: Output, right: Output)
    requires left != right && left.accounts.Values !! right.accounts.Values
    requires Injective(left.accounts) && WellKeyed(right.View().accounts)
    modifies left, left.accounts.Values
    ensures Injective(left.accounts) && left.accounts.Values !! right.accounts.Values
    ensures fresh(left.accounts.Values - old(left.accounts.Values))
    ensures right.View() == old(right.View())
    ensures left.View() == Merge(old(left.View()), old(right.View()))
  {
    hide Views, AmountsOf, MergeAccounts, Injective, OutputAccount.View;
    MergeAccountMaps(left, right);
    ghost var l, r := Views(left.accounts), Views(right.accounts);
    ViewsOf(left.accounts);
    ViewsOf(right.accounts);
    MergeRest(left, right);
    SameViews(l, left.accounts);
    SameViews(r, right.accounts);
  }

  lemma HasAccount(output: Output, a: Address)
    ensures a in output.View().accounts <==> a in output.accounts
    ensures a in output.accounts ==> output.View().accounts[a] == output.accounts[a].View()
  {
  }

  method WriteIn(output: Output, a: Address, write: FieldWrite)
    requires Injective(output.accounts) && a in output.accounts
    modifies output.accounts[a]
    ensures a in old(output.View().accounts)
    ensures output.View() == SetAccount(old(output.View()), a, Written(old(output.View()).accounts[a], write))
  {
    hide AmountsOf, Views, Written, OutputAccount.View;
    ghost var views := Views(output.accounts);
    ViewsOf(output.accounts);
    output.accounts[a].Write(write);
    OneViewChanged(views, output.accounts, a);
  }

  method SetFields(
    output: Output, returnData: seq<Bytes>, returnCode: ReturnCode, returnMessage: string, gasRemaining: uint64,
    newRefund: Option<int>, logs: seq<LogEntry>)
    modifies output`returnData, output`returnCode, output`returnMessage, output`gasRemaining, output`gasRefund
    modifies output`logs
    ensures output.View() == VMOutput(
              returnData, returnCode, returnMessage, gasRemaining,
              if newRefund.Some? then newRefund else old(output.View().gasRefund), old(output.View().accounts), logs)
  {
    hide AmountsOf, Views, OutputAccount.View;
    ghost var views := Views(output.accounts);
    ViewsOf(output.accounts);
    output.returnData, output.returnCode, output.returnMessage := returnData, returnCode, returnMessage;
    output.gasRemaining, output.logs := gasRemaining, logs;
    if newRefund.Some? {
      output.gasRefund := new Amount(newRefund.value);
    }
    SameViews(views, output.accounts);
  }

  /** A copy that shares amounts with the original, but no account. */
  method TakeSnapshot(state: Output) returns (copy: Output)
    requires Injective(state.accounts) && WellKeyed(state.View().accounts)
    ensures fresh(copy) && fresh(copy.accounts.Values) && Injective(copy.accounts)
    ensures state.View() == old(state.View()) && copy.View() == Snapshot(old(state.View()))
  {
    hide Output.View, Merge;
    copy := new Output();
    NotReached(old(state.accounts.Values), old(AmountsOf(state.accounts)), copy);
    assert state.View() == old(state.View());
    assert Injective(copy.accounts);
    MergeVMOutputs(copy, state);
  }

  lemma MergeKeepsKeys(l: VMOutput, r: VMOutput)
    requires WellKeyed(l.accounts) && WellKeyed(r.accounts)
    ensures WellKeyed(Merge(l, r).accounts)
  {
  }

  /** The callee's state merged into the saved one, and a snapshot of the result. */
  method MergeDown(previous: Output, state: Output) returns (merged: Output)
    requires previous != state && previous.accounts.Values !! state.accounts.Values
    requires Injective(previous.accounts) && WellKeyed(previous.View().accounts) && WellKeyed(state.View().accounts)
    modifies previous, previous.accounts.Values
    ensures fresh(merged) && fresh(merged.accounts.Values) && Injective(merged.accounts)
    ensures merged.View() == PopMerge(old(previous.View()), old(state.View()))
  {
    hide Output.View, Merge, Injective;
    MergeKeepsKeys(previous.View(), state.View());
    MergeVMOutputs(previous, state);
    merged := TakeSnapshot(previous);
  }

  /** A new account under an address that has none. */
  method AddAccount(output: Output, a: Address) returns (account: OutputAccount)
    requires Injective(output.accounts) && a !in output.accounts
    modifies output`accounts
    ensures fresh(account) && Injective(output.accounts) && output.accounts == old(output.accounts)[a := account]
    ensures output.View() == WithAccount(old(output.View()), a)
  {
    hide AmountsOf, Views;
    ghost var views := Views(output.accounts);
    ViewsOf(output.accounts);
    account := new OutputAccount.New(a);
    output.accounts := output.accounts[a := account];
    OneViewChanged(views, output.accounts, a);
  }

  // ---------------------------------------------------------------- gas in an output

  function Clamp(n: nat): uint64 {
    if n > MAX_U64 then MAX_U64 else n
  }

  ghost predicate LocksGas(ts: seq<OutputTransfer>) {
    exists i :: 0 <= i < |ts| && ts[i].gasLocked > 0
  }

  /** Saturating addition of what the transfers carry: the exact total, clamped. */
  method AddTransfers(start: uint64, ts: seq<OutputTransfer>, ghost exact: nat) returns (gas: uint64, locked: bool)
    requires start == Clamp(exact)
    ensures gas == Clamp(exact + TransfersGas(ts))
    ensures locked <==> LocksGas(ts)
  {
    gas, locked := start, false;
    ghost var sum: nat := exact;
    for i := 0 to |ts|
      invariant gas == Clamp(sum) && sum + TransfersGas(ts[i..]) == exact + TransfersGas(ts)
      invariant locked <==> exists j :: 0 <= j < i && ts[j].gasLocked > 0
    {
      assert ts[i..][1..] == ts[i + 1..];
      gas := AddUint64(gas, ts[i].gasLimit);
      gas := AddUint64(gas, ts[i].gasLocked);
      sum := sum + ts[i].gasLimit + ts[i].gasLocked;
      if ts[i].gasLocked > 0 {
        locked := true;
      }
    }
    assert ts[|ts|..] == [];
  }

  lemma GasOfViews(m: Accounts)
    ensures GasOf(Views(m)).Keys == m.Keys
    ensures forall a :: a in m ==> GasOf(Views(m))[a] == m[a].gasUsed + TransfersGas(m[a].outputTransfers)
  {
  }

  /** The loop over the accounts, in any order. */
  method SumGas(accounts: Accounts, ghost shares: map<Address, int>) returns (gas: uint64, locked: bool)
    requires shares.Keys == accounts.Keys && Sum(shares) >= 0
    requires forall a :: a in accounts ==> shares[a] == accounts[a].gasUsed + TransfersGas(accounts[a].outputTransfers)
    ensures gas == Clamp(Sum(shares))
    ensures locked <==> exists a :: a in accounts && LocksGas(accounts[a].outputTransfers)
  {
    hide Sum, TransfersGas, LocksGas;
    gas, locked := 0, false;
    ghost var rest, sum: nat := shares, 0;
    var todo := accounts.Keys;
    while todo != {}
      invariant todo <= accounts.Keys && rest.Keys == todo
      invariant forall a :: a in todo ==> rest[a] == accounts[a].gasUsed + TransfersGas(accounts[a].outputTransfers)
      invariant gas == Clamp(sum) && sum + Sum(rest) == Sum(shares)
      invariant locked <==> exists a :: a in accounts && a !in todo && LocksGas(accounts[a].outputTransfers)
      decreases todo
    {
      var a :| a in todo;
      SumExtract(rest, a);
      gas := AddUint64(gas, accounts[a].gasUsed);
      sum := sum + accounts[a].gasUsed;
      var locks;
      gas, locks := AddTransfers(gas, accounts[a].outputTransfers, sum);
      sum := sum + TransfersGas(accounts[a].outputTransfers);
      locked := locked || locks;
      rest := rest - {a};
      todo := todo - {a};
    }
    SumOfEmpty(rest);
  }

  /** Total gas recorded in the output, whatever the order of iteration over its accounts. */
  method GetCurrentTotalUsedGas(output: Output) returns (gas: uint64, locked: bool)
    ensures gas == CurrentTotalUsedGas(output.View())
    ensures locked <==> exists a :: a in output.accounts && LocksGas(output.accounts[a].outputTransfers)
  {
    hide Sum, TransfersGas, LocksGas, OutputAccount.View, Output.View, Views, GasOf, AccountGas, Clamp;
    GasOfViews(output.accounts);
    ClampIsTotal(output);
    gas, locked := SumGas(output.accounts, GasOf(Views(output.accounts)));
    ghost var amounts := old(AmountsOf(output.accounts));
    assert forall c: Amount? :: c in amounts && c != null ==> unchanged(c);
    assert forall x: OutputAccount :: x in old(output.accounts.Values) ==> unchanged(x);
    assert output.View() == old(output.View());
  }

  lemma ClampIsTotal(output: Output)
    ensures Clamp(0) == 0 && TotalGas(output.View().accounts) == Sum(GasOf(Views(output.accounts)))
    ensures TotalGas(output.View().accounts) >= 0
    ensures Clamp(TotalGas(output.View().accounts)) == CurrentTotalUsedGas(output.View())
  {
    hide GasOf, Sum, Views;
    TotalGasNonNegative(output.View().accounts);
  }

  lemma SumOfEmpty(m: map<Address, int>)
    requires m.Keys == {}
    ensures Sum(m) == 0
  {
    assert |m| == |m.Keys|;
  }

  // ---------------------------------------------------------------- the stack of states

  ghost function AccountsIn(stack: seq<Output>): set<OutputAccount>
    reads set i | 0 <= i < |stack| :: stack[i]
  {
    set i, a | 0 <= i < |stack| && a in stack[i].accounts :: stack[i].accounts[a]
  }

  ghost function AmountsIn(stack: seq<Output>): set<Amount?>
    reads set i | 0 <= i < |stack| :: stack[i]
    reads AccountsIn(stack)
  {
    (set i | 0 <= i < |stack| :: stack[i].gasRefund) +
    (set i, a | 0 <= i < |stack| && a in stack[i].accounts :: stack[i].accounts[a].balance) +
    (set i, a | 0 <= i < |stack| && a in stack[i].accounts :: stack[i].accounts[a].balanceDelta)
  }

  lemma InStack(stack: seq<Output>, i: nat)
    requires i < |stack|
    ensures stack[i].accounts.Values <= AccountsIn(stack)
    ensures AmountsOf(stack[i].accounts) <= AmountsIn(stack) && stack[i].gasRefund in AmountsIn(stack)
  {
  }

  ghost function SavedViews(stack: seq<Output>): seq<VMOutput>
    reads set i | 0 <= i < |stack| :: stack[i]
    reads AccountsIn(stack), AmountsIn(stack)
  {
    seq(|stack|, i requires 0 <= i < |stack|
      reads set i | 0 <= i < |stack| :: stack[i]
      reads AccountsIn(stack), AmountsIn(stack)
      => InStack(stack, i); stack[i].View())
  }

  lemma SavedViewsOf(stack: seq<Output>)
    ensures |SavedViews(stack)| == |stack|
    ensures forall i :: 0 <= i < |stack| ==> SavedViews(stack)[i] == stack[i].View()
  {
  }

  lemma SameSavedViews(was: seq<VMOutput>, stack: seq<Output>)
    requires |was| == |stack|
    requires forall i :: 0 <= i < |stack| ==> stack[i].View() == was[i]
    ensures SavedViews(stack) == was
  {
    hide Output.View;
  }

  /** The saved states share no account, with each other or with the state in use. */
  ghost predicate Apart(stack: seq<Output>, state: Output)
    reads state, set i | 0 <= i < |stack| :: stack[i]
  {
    && (forall i :: 0 <= i < |stack| ==> stack[i] != state && stack[i].accounts.Values !! state.accounts.Values)
    && (forall i, j :: 0 <= i < j < |stack| ==>
          stack[i] != stack[j] && stack[i].accounts.Values !! stack[j].accounts.Values)
    && (forall i :: 0 <= i < |stack| ==> Injective(stack[i].accounts))
    && Injective(state.accounts)
  }

  /** Accounts and amounts are no other kind of object. */
  lemma NotReached(accounts: set<OutputAccount>, amounts: set<Amount?>, x: object)
    requires !(x is OutputAccount) && !(x is Amount)
    ensures x !in accounts && x !in amounts
  {
  }

  /** The last state and the rest of a stack. */
  lemma SavedViewsSplit(stack: seq<Output>)
    requires |stack| > 0
    ensures SavedViews(stack) == SavedViews(stack[..|stack| - 1]) + [stack[|stack| - 1].View()]
  {
    hide Output.View;
    SavedViewsOf(stack);
    SavedViewsOf(stack[..|stack| - 1]);
  }

  /** The callee's state merged into the last saved one; the other saved states do not notice. */
  method MergeTop(rest: seq<Output>, previous: Output, state: Output) returns (merged: Output)
    requires Apart(rest + [previous], state)
    requires WellKeyed(previous.View().accounts) && WellKeyed(state.View().accounts)
    modifies previous, previous.accounts.Values
    ensures Apart(rest, merged) && SavedViews(rest) == old(SavedViews(rest))
    ensures fresh(merged) && fresh(merged.accounts.Values)
    ensures merged.View() == PopMerge(old(previous.View()), old(state.View()))
  {
    hide Output.View, AccountsIn, AmountsIn, SavedViews, Injective, PopMerge, Views, WellKeyed;
    assert (rest + [previous])[|rest|] == previous;
    assert forall i :: 0 <= i < |rest| ==> (rest + [previous])[i] == rest[i];
    SavedViewsOf(rest);
    ghost var was := SavedViews(rest);
    merged := MergeDown(previous, state);
    forall i | 0 <= i < |rest|
      ensures rest[i].View() == was[i]
    {
      var o := rest[i];
      KindsApart(old(AmountsOf(o.accounts)), old(previous.accounts.Values));
      NotReached(old(o.accounts.Values), old(AmountsOf(o.accounts)), previous);
      assert o.View() == old(o.View());
    }
    SameSavedViews(was, rest);
  }

  lemma KindsApart(amounts: set<Amount?>, accounts: set<OutputAccount>)
    ensures var c: set<object?>, d: set<object?> := amounts, accounts; c !! d
  {
  }

  /** What the runtime and metering contexts report when a frame ends. */
  datatype Readings = Readings(
    scAddress: Address, used: uint64, beyond: uint64, left: uint64, provided: uint64, previous: uint64)

  ghost predicate ReadFrom(r: Readings, h: Host) {
    && r.scAddress == h.runtime.state.scAddress
    && (r.used, r.beyond) == GasUsedByContract(h)
    && r.left == GasLeft(h)
    && r.provided == h.metering.state.initialGasProvided
    && r.previous == h.metering.totalUsedGas
  }

  ghost function PartWithoutCode(m: map<Address, Account>, done: set<Address>, codeUpdates: set<Address>)
    : map<Address, Account>
  {
    map a | a in m :: if a in done && a !in codeUpdates then Written(m[a], DropCode) else m[a]
  }

  lemma PartWithoutCodeStep(m: map<Address, Account>, done: set<Address>, codeUpdates: set<Address>, a: Address)
    requires a in m && a !in done
    ensures a in PartWithoutCode(m, done, codeUpdates)
    ensures PartWithoutCode(m, done + {a}, codeUpdates) ==
            var part := PartWithoutCode(m, done, codeUpdates);
            if a in codeUpdates then part else part[a := Written(part[a], DropCode)]
  {
  }

  lemma PartWithoutCodeEnds(m: map<Address, Account>, codeUpdates: set<Address>)
    ensures PartWithoutCode(m, {}, codeUpdates) == m
    ensures PartWithoutCode(m, m.Keys, codeUpdates) == WithoutCode(m, codeUpdates)
  {
  }

  class OutputContext {
    var outputState: Output
    var stateStack: seq<Output>
    var codeUpdates: set<Address>

    ghost predicate Separate()
      reads this, outputState, set i | 0 <= i < |stateStack| :: stateStack[i]
    {
      Apart(stateStack, outputState)
    }

    ghost function View(): Outputs
      reads this, outputState, outputState.gasRefund, outputState.accounts.Values, AmountsOf(outputState.accounts)
      reads set i | 0 <= i < |stateStack| :: stateStack[i]
      reads AccountsIn(stateStack), AmountsIn(stateStack)
    {
      Outputs(outputState.View(), SavedViews(stateStack), codeUpdates)
    }

    constructor ()
      ensures Separate() && View() == Outputs(NEW_OUTPUT, [], {})
    {
      outputState := new Output();
      stateStack, codeUpdates := [], {};
    }

    /** The context reaches states, accounts and amounts, and no other object. */
    lemma NotMine(x: object)
      requires !(x is Output) && !(x is OutputAccount) && !(x is Amount)
      ensures x != outputState && x != outputState.gasRefund
      ensures x !in outputState.accounts.Values && x !in AmountsOf(outputState.accounts)
      ensures forall i :: 0 <= i < |stateStack| ==> x != stateStack[i]
      ensures x !in AccountsIn(stateStack) && x !in AmountsIn(stateStack)
      ensures forall c :: c in AccountsIn(stateStack) ==> allocated(c)
      ensures forall c :: c in AmountsIn(stateStack) ==> allocated(c)
      ensures forall c :: c in outputState.accounts.Values ==> allocated(c)
      ensures forall c :: c in AmountsOf(outputState.accounts) ==> allocated(c)
    {
    }

    // -------------------------------------------------------------- the stack

    /** The context's own fields change, and no state does. */
    method Replace(stack: seq<Output>, state: Output)
      requires Apart(stack, state)
      modifies this`stateStack, this`outputState
      ensures stateStack == stack && outputState == state && Separate()
      ensures View() == Outputs(old(state.View()), old(SavedViews(stack)), codeUpdates)
    {
      hide Output.View, AccountsIn, AmountsIn, SavedViews, Injective;
      SavedViewsOf(stack);
      ghost var was := SavedViews(stack);
      stateStack, outputState := stack, state;
      forall i | 0 <= i < |stack|
        ensures stack[i].View() == was[i]
      {
        NotReached(old(stack[i].accounts.Values), old(AmountsOf(stack[i].accounts)), this);
      }
      SameSavedViews(was, stack);
      NotReached(old(state.accounts.Values), old(AmountsOf(state.accounts)), this);
      assert state.View() == old(state.View());
    }

    /** A new empty state, and nothing saved. */
    method Reset()
      modifies this
      ensures Separate() && View() == Outputs(NEW_OUTPUT, [], {})
      ensures fresh(outputState) && outputState.accounts == map[] && stateStack == []
    {
      hide Output.View, AccountsIn, AmountsIn, AmountsOf, SavedViews;
      codeUpdates := {};
      var state := new Output();
      SavedViewsOf([]);
      Replace([], state);
    }

    method PushState()
      requires Separate() && WellKeyed(View().state.accounts)
      modifies this`stateStack, this`outputState
      ensures Separate() && outputState == old(outputState) && fresh(Top())
      ensures |stateStack| == |old(stateStack)| + 1 && stateStack[..|old(stateStack)|] == old(stateStack)
      ensures View() == PushOutput(old(View()))
    {
      hide Output.View, AccountsIn, AmountsIn, SavedViews, Injective, Snapshot;
      SavedViewsOf(stateStack);
      ghost var was := SavedViews(stateStack);
      var newState := TakeSnapshot(outputState);
      var pushed := stateStack + [newState];
      forall i | 0 <= i < |stateStack|
        ensures stateStack[i].View() == was[i]
      {
        NotReached(old(stateStack[i].accounts.Values), old(AmountsOf(stateStack[i].accounts)), newState);
        assert stateStack[i].View() == old(stateStack[i].View());
      }
      SameSavedViews(was, stateStack);
      SavedViewsSplit(pushed);
      assert pushed[..|pushed| - 1] == stateStack;
      Replace(pushed, outputState);
    }

    method PopSetActiveState()
      requires Separate()
      modifies this`stateStack, this`outputState
      ensures Separate() && View() == PopSetOutput(old(View()))
      ensures |old(stateStack)| > 0 ==>
                outputState == old(stateStack[|stateStack| - 1]) && stateStack == old(stateStack[..|stateStack| - 1])
    {
      hide Output.View, AccountsIn, AmountsIn, SavedViews, Injective;
      SavedViewsOf(stateStack);
      if |stateStack| == 0 {
        return;
      }
      SavedViewsSplit(stateStack);
      var prevState := stateStack[|stateStack| - 1];
      Replace(stateStack[..|stateStack| - 1], prevState);
    }

    method PopDiscard()
      requires Separate()
      modifies this`stateStack, this`outputState
      ensures Separate() && View() == PopDiscardOutput(old(View())) && outputState == old(outputState)
      ensures |old(stateStack)| > 0 ==> stateStack == old(stateStack[..|stateStack| - 1])
    {
      hide Output.View, AccountsIn, AmountsIn, SavedViews, Injective;
      SavedViewsOf(stateStack);
      if |stateStack| == 0 {
        return;
      }
      SavedViewsSplit(stateStack);
      Replace(stateStack[..|stateStack| - 1], outputState);
    }

    ghost function Top(): set<object>
      reads this, set i | 0 <= i < |stateStack| :: stateStack[i]
    {
      if |stateStack| == 0 then {} else
        {stateStack[|stateStack| - 1]} + stateStack[|stateStack| - 1].accounts.Values
    }

    method PopMergeActiveState()
      requires Separate() && WellKeyed(View().state.accounts)
      requires View().stack != [] ==> WellKeyed(View().stack[|View().stack| - 1].accounts)
      modifies this`stateStack, this`outputState, Top()
      ensures Separate() && View() == PopMergeOutput(old(View()))
      ensures |old(stateStack)| > 0 ==> fresh(outputState) && fresh(outputState.accounts.Values)
      ensures |old(stateStack)| > 0 ==> stateStack == old(stateStack[..|stateStack| - 1])
    {
      hide Output.View, AccountsIn, AmountsIn, AmountsOf, SavedViews, Injective, PopMerge, WellKeyed, Apart;
      SavedViewsOf(stateStack);
      if |stateStack| == 0 {
        return;
      }
      SavedViewsSplit(stateStack);
      var prevState := stateStack[|stateStack| - 1];
      var rest := stateStack[..|stateStack| - 1];
      assert stateStack == rest + [prevState];
      assert View().stack[|rest|] == prevState.View();
      var merged := MergeTop(rest, prevState, outputState);
      Replace(rest, merged);
    }

    method GetOutputAccount(a: Address) returns (account: OutputAccount, isNew: bool)
      requires Separate()
      modifies outputState`accounts
      ensures Separate() && isNew == (a !in old(outputState.accounts))
      ensures outputState.accounts == old(outputState.accounts)[a := account]
      ensures !isNew ==> account == old(outputState.accounts[a])
      ensures isNew ==> fresh(account)
      ensures View() == old(View()).(state := WithAccount(old(View().state), a))
    {
      hide AccountsIn, AmountsIn, SavedViews, Output.View, Injective;
      isNew := a !in outputState.accounts;
      HasAccount(outputState, a);
      if !isNew {
        account := outputState.accounts[a];
        return;
      }
      SavedViewsOf(stateStack);
      ghost var was := SavedViews(stateStack);
      account := AddAccount(outputState, a);
      forall i | 0 <= i < |stateStack|
        ensures stateStack[i].View() == was[i]
      {
        var o := stateStack[i];
        NotReached(old(o.accounts.Values), old(AmountsOf(o.accounts)), outputState);
        assert o.View() == old(o.View());
      }
      SameSavedViews(was, stateStack);
    }

    /** One account of the state in use changes; nothing else is seen to. */
    method WriteAccount(a: Address, write: FieldWrite)
      requires Separate() && a in outputState.accounts && a in View().state.accounts
      modifies outputState.accounts[a]
      ensures Separate()
      ensures View() == old(View()).(
                state := SetAccount(old(View().state), a, Written(old(View().state.accounts[a]), write)))
    {
      hide Output.View, AccountsIn, AmountsIn, SavedViews, Injective, Written;
      SavedViewsOf(stateStack);
      ghost var was := SavedViews(stateStack);
      WriteIn(outputState, a, write);
      forall i | 0 <= i < |stateStack|
        ensures stateStack[i].View() == was[i]
      {
        var o := stateStack[i];
        KindsApart(old(AmountsOf(o.accounts)), {outputState.accounts[a]});
        assert o.View() == old(o.View());
      }
      SameSavedViews(was, stateStack);
    }

    function CurrentDelta(a: Address): (delta: int)
      requires a in outputState.accounts
      reads this, outputState, outputState.gasRefund, outputState.accounts.Values, AmountsOf(outputState.accounts)
      ensures a in outputState.View().accounts && delta == DeltaOf(outputState.View().accounts[a])
    {
      var cell := outputState.accounts[a].balanceDelta;
      if cell == null then 0 else cell.number
    }

    method AddTxValueToAccount(a: Address, value: int)
      requires Separate()
      modifies outputState`accounts, outputState.accounts.Values
      ensures Separate() && outputState == old(outputState)
      ensures fresh(outputState.accounts.Values - old(outputState.accounts.Values))
      ensures View() == old(View()).(state := AddDelta(old(View().state), a, value))
    {
      hide Output.View, Apart, SavedViews, AccountsIn, AmountsIn;
      var account, _ := GetOutputAccount(a);
      var delta := CurrentDelta(a);
      assert View().state == outputState.View();
      WriteAccount(a, SetDelta(delta + value));
    }

    method GetBalanceBigInt(env: Env, a: Address) returns (balance: int)
      requires Separate()
      modifies outputState`accounts, outputState.accounts.Values
      ensures Separate() && outputState == old(outputState)
      ensures fresh(outputState.accounts.Values - old(outputState.accounts.Values))
      ensures View() == old(View()).(state := Balance(env, old(View().state), a).0)
      ensures balance == Balance(env, old(View().state), a).1
    {
      hide Output.View, Apart, SavedViews, AccountsIn, AmountsIn;
      var account, isNew := GetOutputAccount(a);
      var delta := CurrentDelta(a);
      assert View().state == outputState.View();
      HasBalance(a);
      if account.balance != null {
        balance := account.balance.number + delta;
      } else if a !in env.accounts {
        balance := 0;
      } else {
        WriteAccount(a, SetBalance(env.accounts[a].balance));
        balance := env.accounts[a].balance + delta;
      }
    }

    lemma HasBalance(a: Address)
      requires a in outputState.accounts
      ensures a in View().state.accounts
      ensures View().state.accounts[a].balance == Read(outputState.accounts[a].balance)
    {
      HasAccount(outputState, a);
    }

    method TransferValueOnly(
      env: Env, isAsyncCall: bool, destination: Address, sender: Address, value: int, checkPayable: bool)
      returns (err: Option<Error>)
      requires Separate()
      modifies outputState`accounts, outputState.accounts.Values
      ensures Separate() && outputState == old(outputState)
      ensures fresh(outputState.accounts.Values - old(outputState.accounts.Values))
      ensures var (o, e) := HostModel.TransferValueOnly(
                env, old(View().state), isAsyncCall, destination, sender, value, checkPayable);
              View() == old(View()).(state := o) && err == e
    {
      hide OutputContext.View, Apart, Balance;
      if value < 0 {
        return Some(ErrTransferNegativeValue);
      }
      var balance := GetBalanceBigInt(env, sender);
      if balance < value {
        return Some(ErrTransferInsufficientFunds);
      }
      if destination !in env.payable {
        return Some(ErrPayableLookup);
      }
      if checkPayable && !env.payable[destination] && value > 0 && !isAsyncCall {
        return Some(ErrAccountNotPayable);
      }
      AddTxValueToAccount(sender, -value);
      AddTxValueToAccount(destination, value);
      err := None;
    }

    method Transfer(
      env: Env, isAsyncCall: bool, destination: Address, sender: Address,
      gasLimit: uint64, gasLocked: uint64, value: int, data: Bytes, callType: CallType)
      returns (err: Option<Error>)
      requires Separate()
      modifies outputState`accounts, outputState.accounts.Values
      ensures Separate() && outputState == old(outputState)
      ensures fresh(outputState.accounts.Values - old(outputState.accounts.Values))
      ensures var (o, e) := TransferOut(
                env, old(View().state), isAsyncCall, destination, sender, gasLimit, gasLocked, value, data, callType);
              View() == old(View()).(state := o) && err == e
    {
      hide OutputContext.View, Apart, HostModel.TransferValueOnly;
      err := TransferValueOnly(
        env, isAsyncCall, destination, sender, value, gasLimit > 0 && !callType.AsynchronousCallBack?);
      if err.Some? {
        return;
      }
      var account, _ := GetOutputAccount(destination);
      HasBalance(destination);
      WriteAccount(destination, AppendTransfer(
        OutputTransfer(value, gasLimit, gasLocked, data, callType, sender)));
    }

    // -------------------------------------------------------------- everything but accounts

    /** Fields of the state in use are assigned; saved states do not notice. */
    method Assign(
      returnData: seq<Bytes>, returnCode: ReturnCode, returnMessage: string, gasRemaining: uint64,
      newRefund: Option<int>, logs: seq<LogEntry>)
      requires Separate()
      modifies outputState
      ensures Separate() && outputState.accounts == old(outputState.accounts)
      ensures View() == old(View()).(state := VMOutput(
                returnData, returnCode, returnMessage, gasRemaining,
                if newRefund.Some? then newRefund else old(View().state.gasRefund), old(View().state.accounts), logs))
    {
      hide Output.View, AccountsIn, AmountsIn, SavedViews, Injective;
      SavedViewsOf(stateStack);
      ghost var was := SavedViews(stateStack);
      SetFields(outputState, returnData, returnCode, returnMessage, gasRemaining, newRefund, logs);
      forall i | 0 <= i < |stateStack|
        ensures stateStack[i].View() == was[i]
      {
        var o := stateStack[i];
        NotReached(old(o.accounts.Values), old(AmountsOf(o.accounts)), outputState);
        assert o.View() == old(o.View());
      }
      SameSavedViews(was, stateStack);
    }

    method CensorVMOutput()
      requires Separate()
      modifies outputState
      ensures Separate() && outputState.accounts == old(outputState.accounts)
      ensures View() == old(View()).(state := Censored(old(View().state)))
    {
      hide OutputContext.View, Apart;
      Assign([], Ok, "", 0, Some(0), []);
    }

    // -------------------------------------------------------------- the end of a frame

    method RemoveNonUpdatedCode()
      requires Separate()
      modifies outputState.accounts.Values
      ensures Separate()
      ensures View() == old(View()).(state := old(View().state).(
                accounts := WithoutCode(old(View().state.accounts), codeUpdates)))
    {
      hide OutputContext.View, Apart, PartWithoutCode, WithoutCode;
      var accounts := outputState.accounts;
      var todo := accounts.Keys;
      ghost var was := View().state.accounts;
      SameKeys();
      PartWithoutCodeEnds(was, codeUpdates);
      assert was.Keys - todo == {};
      while todo != {}
        invariant todo <= accounts.Keys == was.Keys && Separate()
        invariant View() == old(View()).(state := old(View().state).(
                    accounts := PartWithoutCode(was, was.Keys - todo, codeUpdates)))
        decreases todo
      {
        var a :| a in todo;
        SameKeys();
        if a !in codeUpdates {
          WriteAccount(a, DropCode);
        }
        PartWithoutCodeStep(was, was.Keys - todo, codeUpdates, a);
        assert was.Keys - todo + {a} == was.Keys - (todo - {a});
        todo := todo - {a};
      }
      assert was.Keys - todo == was.Keys;
    }

    lemma SameKeys()
      ensures View().state.accounts.Keys == outputState.accounts.Keys
    {
    }

    /** The running contract's account receives its gas. */
    method RecordGas(r: Readings, ghost h: Host) returns (beyond: uint64)
      requires Separate() && h.output == View() && ReadFrom(r, h)
      modifies outputState, outputState.accounts.Values
      ensures Separate() && outputState == old(outputState)
      ensures fresh(outputState.accounts.Values - old(outputState.accounts.Values))
      ensures View() == old(View()).(state := HostModel.RecordGas(h).0) && beyond == HostModel.RecordGas(h).1
    {
      hide OutputContext.View, Apart, GasUsedByContract, GasLeft;
      var account, _ := GetOutputAccount(r.scAddress);
      StateFields();
      SameKeys();
      if outputState.returnCode.Ok? {
        WriteAccount(r.scAddress, SetGasUsed(r.used));
        StateFields();
        Assign(outputState.returnData, outputState.returnCode, outputState.returnMessage, r.left, None,
               outputState.logs);
        beyond := r.beyond;
      } else {
        GasUsedAt(r.scAddress);
        WriteAccount(r.scAddress, SetGasUsed(AddUint64(account.gasUsed, r.provided)));
        beyond := 0;
      }
    }

    lemma StateFields()
      ensures outputState.returnData == View().state.returnData && outputState.returnCode == View().state.returnCode
      ensures outputState.returnMessage == View().state.returnMessage && outputState.logs == View().state.logs
      ensures outputState.gasRemaining == View().state.gasRemaining
    {
    }

    lemma GasUsedAt(a: Address)
      requires a in outputState.accounts
      ensures a in View().state.accounts && View().state.accounts[a].gasUsed == outputState.accounts[a].gasUsed
    {
      HasAccount(outputState, a);
    }

    method CheckGas(remainedFromForwarded: uint64, r: Readings, ghost h: Host) returns (fits: bool)
      requires Separate() && ReadFrom(r, h)
      modifies outputState
      ensures Separate() && outputState.accounts == old(outputState.accounts)
      ensures View() == old(View()).(state := CheckedGas(h, old(View().state), remainedFromForwarded).0)
      ensures fits == CheckedGas(h, old(View().state), remainedFromForwarded).1
    {
      hide Apart, SavedViews, AccountsIn, AmountsIn, Output.View, CurrentTotalUsedGas, GasUsedByContract, GasLeft;
      var gasUsed, locked := TotalUsedGas();
      StateFields();
      var (remaining, beyond) := SubUint64(outputState.gasRemaining, remainedFromForwarded);
      Assign(outputState.returnData, outputState.returnCode, outputState.returnMessage, remaining, None,
             outputState.logs);
      var total := AddUint64(gasUsed, remaining);
      total := SubUint64(total, beyond).0;
      total := SubUint64(total, r.previous).0;
      fits := total <= r.provided;
    }

    /** Reading the total leaves every state as it was. */
    method TotalUsedGas() returns (gas: uint64, locked: bool)
      requires Separate()
      ensures Separate() && View() == old(View()) && gas == CurrentTotalUsedGas(View().state)
    {
      hide Apart, SavedViews, AccountsIn, AmountsIn, AmountsOf, Output.View, CurrentTotalUsedGas, LocksGas;
      NotMine(this);
      gas, locked := GetCurrentTotalUsedGas(outputState);
      assert View() == old(View());
    }

    /** The output in the case of an error holds no account, log or return data. */
    method CreateVMOutputInCaseOfError(e: Error) returns (output: Output)
      requires Separate()
      ensures Separate() && View() == old(View())
      ensures fresh(output) && output.accounts == map[] && output.View() == ErrorOutput(View().state, e)
    {
      hide Apart, AccountsIn, AmountsIn, AmountsOf, OutputContext.View, ErrorText, ReturnCodeOf;
      StateFields();
      NotMine(this);
      var message :=
        if e.ErrSignalError? || |outputState.returnMessage| > 0 then outputState.returnMessage else ErrorText(e);
      output := new Output.Failed(ReturnCodeOf(e), message);
      assert View() == old(View());
    }

    method GetVMOutput(r: Readings, ghost h: Host) returns (output: Output)
      requires Separate() && h.output == View() && ReadFrom(r, h)
      modifies outputState, outputState.accounts.Values
      ensures Separate() && outputState == old(outputState)
      ensures fresh(outputState.accounts.Values - old(outputState.accounts.Values))
      ensures output == outputState || (fresh(output) && output.accounts == map[])
      ensures h.(output := View()) == HostModel.GetVMOutput(h).0
      ensures output.View() == HostModel.GetVMOutput(h).1
    {
      hide SavedViews, AccountsIn, AmountsIn, Output.View, Apart, HostModel.RecordGas, CheckedGas, ReadFrom,
        ErrorOutput, WithoutCode;
      var beyond := RecordGas(r, h);
      RemoveNonUpdatedCode();
      var fits := CheckGas(beyond, r, h);
      if fits {
        output := outputState;
      } else {
        output := CreateVMOutputInCaseOfError(ErrInputAndOutputGasDoesNotMatch);
      }
    }

    // -------------------------------------------------------------- code and storage caches

    method GetCode(env: Env, a: Address) returns (code: Bytes, err: Option<Error>)
      requires Separate()
      modifies outputState`accounts, outputState.accounts.Values
      ensures Separate() && outputState == old(outputState)
      ensures fresh(outputState.accounts.Values - old(outputState.accounts.Values))
      ensures var (o, c, e) := HostModel.GetCode(env, old(View().state), a);
              View() == old(View()).(state := o) && code == c && err == e
    {
      hide OutputContext.View, Apart;
      var account, _ := GetOutputAccount(a);
      CachedAt(a);
      if |account.code| > 0 {
        return account.code, None;
      }
      if a !in env.accounts {
        return "", Some(ErrInvalidAccount);
      }
      if |env.accounts[a].code| == 0 {
        return "", Some(ErrContractNotFound);
      }
      code, err := env.accounts[a].code, None;
      WriteAccount(a, SetCode(code));
    }

    /** A read of a stored value through the updates of an account, which caches it. */
    method GetStorageUnmetered(env: Env, a: Address, key: Bytes) returns (value: Bytes)
      requires Separate()
      modifies outputState`accounts, outputState.accounts.Values
      ensures Separate() && outputState == old(outputState) && a in outputState.accounts && a in View().state.accounts
      ensures fresh(outputState.accounts.Values - old(outputState.accounts.Values))
      ensures View() == old(View()).(state := CachedRead(env, old(View().state), a, key).0)
      ensures value == CachedRead(env, old(View().state), a, key).1
    {
      hide OutputContext.View, Apart;
      var account, _ := GetOutputAccount(a);
      CachedAt(a);
      if key in account.storageUpdates {
        return account.storageUpdates[key];
      }
      value := HookStorage(env, a, key);
      WriteAccount(a, SetStorageUpdate(key, value));
    }

    lemma CachedAt(a: Address)
      requires a in outputState.accounts
      ensures a in View().state.accounts
      ensures View().state.accounts[a].code == outputState.accounts[a].code
      ensures View().state.accounts[a].storage == outputState.accounts[a].storageUpdates
    {
      HasAccount(outputState, a);
    }

    /** The refund is replaced by a new amount. */
    method FreeGas(gas: uint64)
      requires Separate()
      modifies outputState
      ensures Separate() && outputState.accounts == old(outputState.accounts)
      ensures View() == old(View()).(state := HostModel.FreeGas(old(View().state), gas))
    {
      hide OutputContext.View, Apart;
      StateFields();
      RefundField();
      var refund := (if outputState.gasRefund == null then 0 else outputState.gasRefund.number) % TWO_64;
      Assign(outputState.returnData, outputState.returnCode, outputState.returnMessage, outputState.gasRemaining,
             Some(WrapInt64(AddUint64(refund, gas))), outputState.logs);
    }

    lemma RefundField()
      ensures View().state.gasRefund == Read(outputState.gasRefund)
    {
    }
  }
}
