/** AddToActiveState: the output of a built-in function added to the state in use. */
module ActiveState {
  import opened Overflow
  import opened Wrappers
  import opened Types
  import opened FiniteSums
  import opened OutputModel
  import opened HostModel
  import opened OutputObjects

  // ---------------------------------------------------------------- on values

  type AccountMap = map<Address, Account>

  /** The right account's delta first absorbs the left one. */
  function RightAdded(l: Account, r: Account): Account {
    if r.balanceDelta.Some? then r.(balanceDelta := Some(r.balanceDelta.value + DeltaOf(l))) else r
  }

  /** The left account takes all transfers of the right one. */
  function LeftAdded(l: Account, r: Account): Account {
    if |r.transfers| > 0 then l.(transfers := l.transfers + r.transfers) else l
  }

  function RightPrepared(l: AccountMap, r: AccountMap, done: set<Address>): AccountMap {
    map a | a in r :: if a in l && a in done then RightAdded(l[a], r[a]) else r[a]
  }

  function LeftPrepared(l: AccountMap, r: AccountMap, done: set<Address>): AccountMap {
    map a | a in l :: if a in r && a in done then LeftAdded(l[a], r[a]) else l[a]
  }

  function AddRefund(l: Option<int>, r: Option<int>): Option<int> {
    if r.Some? then Some(r.value + if l.Some? then l.value else 0) else None
  }

  function AddToActive(l: VMOutput, r: VMOutput): VMOutput {
    Merge(l.(accounts := LeftPrepared(l.accounts, r.accounts, r.accounts.Keys)),
          r.(gasRemaining := 0, gasRefund := AddRefund(l.gasRefund, r.gasRefund),
             accounts := RightPrepared(l.accounts, r.accounts, r.accounts.Keys)))
  }

  lemma AddedAccount(l: VMOutput, r: VMOutput, a: Address)
    requires Valid(l) && a in r.accounts
    ensures a in AddToActive(l, r).accounts
    ensures AddToActive(l, r).accounts[a].transfers == TransfersAt(l.accounts, a) + r.accounts[a].transfers
    ensures DeltaOf(AddToActive(l, r).accounts[a]) == DeltaAt(l.accounts, a) + DeltaOf(r.accounts[a])
  {
    var l1 := LeftPrepared(l.accounts, r.accounts, r.accounts.Keys);
    var r1 := RightPrepared(l.accounts, r.accounts, r.accounts.Keys);
    assert AddToActive(l, r).accounts[a] == MergedEntry(l1, r1, a);
  }

  /** Every account's transfers are the left ones followed by the right ones, none twice, whether or
      not the account existed on the left. */
  lemma TransfersConcatenate(l: VMOutput, r: VMOutput, a: Address)
    requires Valid(l)
    ensures AddToActive(l, r).accounts.Keys == l.accounts.Keys + r.accounts.Keys
    ensures TransfersAt(AddToActive(l, r).accounts, a) == TransfersAt(l.accounts, a) + TransfersAt(r.accounts, a)
    ensures DeltaAt(AddToActive(l, r).accounts, a) == DeltaAt(l.accounts, a) + DeltaAt(r.accounts, a)
  {
    if a in r.accounts {
      AddedAccount(l, r, a);
    }
  }

  ghost function Spread(m: AccountMap, keys: set<Address>): map<Address, int> {
    map a | a in keys :: DeltaAt(m, a)
  }

  lemma SumOfSpread(m: AccountMap, keys: set<Address>)
    requires m.Keys <= keys
    ensures Sum(Spread(m, keys)) == TotalDelta(m)
  {
    SumMonotone(DeltasOf(m), Spread(m, keys));
  }

  /** Balance deltas and refunds add up: the built-in function's effect is counted once. */
  lemma TotalsAdd(l: VMOutput, r: VMOutput)
    requires Valid(l) && r.gasRefund.Some?
    ensures TotalDelta(AddToActive(l, r).accounts) == TotalDelta(l.accounts) + TotalDelta(r.accounts)
    ensures AddToActive(l, r).gasRefund == Some(l.gasRefund.value + r.gasRefund.value)
    ensures AddToActive(l, r).gasRemaining == 0
    ensures AddToActive(l, r).logs == l.logs + r.logs && AddToActive(l, r).returnData == l.returnData + r.returnData
  {
    hide AddToActive, Sum;
    var keys := l.accounts.Keys + r.accounts.Keys;
    var sum := AddToActive(l, r).accounts;
    forall a | a in keys
      ensures DeltaAt(sum, a) == DeltaAt(l.accounts, a) + DeltaAt(r.accounts, a)
    {
      TransfersConcatenate(l, r, a);
    }
    TransfersConcatenate(l, r, "");
    SumOfSpread(sum, keys);
    SumOfSpread(l.accounts, keys);
    SumOfSpread(r.accounts, keys);
    SumOfPointwiseSum(Spread(sum, keys), Spread(l.accounts, keys), Spread(r.accounts, keys));
    RestOfAdd(l, r);
  }

  lemma RestOfAdd(l: VMOutput, r: VMOutput)
    requires Valid(l) && r.gasRefund.Some?
    ensures AddToActive(l, r).gasRefund == Some(l.gasRefund.value + r.gasRefund.value)
    ensures AddToActive(l, r).gasRemaining == 0
    ensures AddToActive(l, r).logs == l.logs + r.logs && AddToActive(l, r).returnData == l.returnData + r.returnData
  {
  }

  /** The other fields of an account that is on both sides: the right value where there is one, the larger
      nonce, storage key by key; the gas used is the right one's, whatever was recorded on the left. */
  predicate Joined(x: Account, y: Account, s: Account) {
    && s.gasUsed == y.gasUsed
    && s.nonce >= x.nonce && s.nonce >= y.nonce && (s.nonce == x.nonce || s.nonce == y.nonce)
    && s.balance == (if y.balance.Some? then y.balance else x.balance)
    && s.code == (if y.code != "" then y.code else x.code)
    && s.codeMetadata == (if y.codeMetadata != "" then y.codeMetadata else x.codeMetadata)
    && s.codeDeployer == (if y.codeDeployer.Some? then y.codeDeployer else x.codeDeployer)
    && s.storage.Keys == x.storage.Keys + y.storage.Keys
    && (forall k :: k in y.storage ==> s.storage[k] == y.storage[k])
    && (forall k :: k in x.storage && k !in y.storage ==> s.storage[k] == x.storage[k])
  }

  lemma MergeJoins(x: Account, y: Account)
    ensures Joined(x, y, MergeAccount(LeftAdded(x, y), RightAdded(x, y)))
  {
  }

  /** Accounts that are on one side only stay as they are. */
  lemma FieldsOfAdded(l: VMOutput, r: VMOutput, a: Address)
    requires Valid(l) && Valid(r) && (a in l.accounts || a in r.accounts)
    ensures a in AddToActive(l, r).accounts
    ensures a !in r.accounts ==> AddToActive(l, r).accounts[a] == l.accounts[a]
    ensures a !in l.accounts ==> AddToActive(l, r).accounts[a] == r.accounts[a]
    ensures a in l.accounts && a in r.accounts ==>
              Joined(l.accounts[a], r.accounts[a], AddToActive(l, r).accounts[a])
  {
    hide Joined, LeftAdded, RightAdded, MergeAccount;
    var l1 := LeftPrepared(l.accounts, r.accounts, r.accounts.Keys);
    var r1 := RightPrepared(l.accounts, r.accounts, r.accounts.Keys);
    if a in r.accounts {
      assert AddToActive(l, r).accounts[a] == MergedEntry(l1, r1, a);
      if a in l.accounts {
        MergeJoins(l.accounts[a], r.accounts[a]);
      } else {
        NewAccountMerges(r.accounts[a]);
      }
    } else {
      assert l1[a] == l.accounts[a];
    }
  }

  lemma NewAccountMerges(y: Account)
    requires y.balanceDelta.Some?
    ensures MergeAccount(EMPTY_ACCOUNT, y) == y
  {
    assert EMPTY_ACCOUNT.storage + y.storage == y.storage;
    assert [] + y.transfers[0..] == y.transfers;
  }

  /** What the right output reports replaces what the left one reported. */
  lemma ReportOfAdded(l: VMOutput, r: VMOutput)
    ensures AddToActive(l, r).returnCode == r.returnCode && AddToActive(l, r).returnMessage == r.returnMessage
  {
  }

  // ---------------------------------------------------------------- on the heap

  /** The delta of an account belongs to it alone: no other account or output reaches it. */
  ghost predicate OwnDelta(m: Accounts, others: set<Amount?>, a: Address)
    requires a in m
    reads m.Values
  {
    var d := m[a].balanceDelta;
    d !in others && (forall b :: b in m ==> d != m[b].balance && (b != a ==> d != m[b].balanceDelta))
  }

  /** A delta is added to in place; it is seen in one account of the right output only. */
  method AddInPlace(cell: Amount, value: int, ghost left: Accounts, ghost right: Accounts, ghost a: Address)
    requires a in right && right[a].balanceDelta == cell && OwnDelta(right, AmountsOf(left), a)
    modifies cell
    ensures a in old(Views(right)) && Views(left) == old(Views(left))
    ensures Views(right) ==
            old(Views(right))[a := old(Views(right))[a].(balanceDelta := Some(DeltaOf(old(Views(right))[a]) + value))]
  {
    hide Views;
    ViewsOf(left);
    ViewsOf(right);
    ghost var l, r := Views(left), Views(right);
    cell.number := cell.number + value;
    forall b | b in left
      ensures left[b].View() == l[b]
    {
      assert left[b].balance in AmountsOf(left) && left[b].balanceDelta in AmountsOf(left);
    }
    SameViews(l, left);
    OneViewChanged(r, right, a);
  }

  method AppendTransfers(account: OutputAccount, ts: seq<OutputTransfer>, ghost left: Accounts, ghost right: Accounts,
                         ghost a: Address)
    requires Injective(left) && left.Values !! right.Values && a in left && account == left[a]
    modifies account`outputTransfers
    ensures a in old(Views(left)) && Views(right) == old(Views(right))
    ensures Views(left) ==
            old(Views(left))[a := old(Views(left))[a].(transfers := old(Views(left))[a].transfers + ts)]
  {
    hide Views, AmountsOf;
    ViewsOf(left);
    ViewsOf(right);
    ghost var l, r := Views(left), Views(right);
    account.outputTransfers := account.outputTransfers + ts;
    forall b | b in right
      ensures right[b].View() == r[b]
    {
      assert right[b] in right.Values;
    }
    SameViews(r, right);
    OneViewChanged(l, left, a);
  }

  lemma FieldsOf(account: OutputAccount)
    ensures account.View().balanceDelta == Read(account.balanceDelta)
    ensures account.View().transfers == account.outputTransfers
  {
  }

  /** One account present on both sides. */
  method AddAccounts(
    leftAccount: OutputAccount, rightAccount: OutputAccount, ghost left: Accounts, ghost right: Accounts,
    ghost a: Address)
    requires Injective(left) && left.Values !! right.Values && a in left && a in right
    requires leftAccount == left[a] && rightAccount == right[a] && leftAccount.balanceDelta != null
    requires rightAccount.balanceDelta != null ==> OwnDelta(right, AmountsOf(left), a)
    modifies leftAccount`outputTransfers, rightAccount.balanceDelta
    ensures a in old(Views(left)) && a in old(Views(right))
    ensures Views(left) == old(Views(left))[a := LeftAdded(old(Views(left))[a], old(Views(right))[a])]
    ensures Views(right) == old(Views(right))[a := RightAdded(old(Views(left))[a], old(Views(right))[a])]
  {
    hide Views, AmountsOf, Injective, OwnDelta, OutputAccount.View;
    ViewsOf(left);
    ViewsOf(right);
    FieldsOf(leftAccount);
    FieldsOf(rightAccount);
    if rightAccount.balanceDelta != null {
      AddInPlace(rightAccount.balanceDelta, leftAccount.balanceDelta.number, left, right, a);
    }
    if |rightAccount.outputTransfers| > 0 {
      AppendTransfers(leftAccount, rightAccount.outputTransfers, left, right, a);
    }
  }

  lemma PreparedStep(l: AccountMap, r: AccountMap, done: set<Address>, a: Address)
    requires a in l && a in r && a !in done
    ensures a in LeftPrepared(l, r, done) && a in RightPrepared(l, r, done)
    ensures LeftPrepared(l, r, done)[a] == l[a] && RightPrepared(l, r, done)[a] == r[a]
    ensures LeftPrepared(l, r, done + {a}) == LeftPrepared(l, r, done)[a := LeftAdded(l[a], r[a])]
    ensures RightPrepared(l, r, done + {a}) == RightPrepared(l, r, done)[a := RightAdded(l[a], r[a])]
  {
    hide LeftAdded, RightAdded;
  }

  lemma PreparedSkip(l: AccountMap, r: AccountMap, done: set<Address>, a: Address)
    requires a !in l && a in r
    ensures LeftPrepared(l, r, done + {a}) == LeftPrepared(l, r, done)
    ensures RightPrepared(l, r, done + {a}) == RightPrepared(l, r, done)
    ensures LeftPrepared(l, r, {}) == l && RightPrepared(l, r, {}) == r
  {
    hide LeftAdded, RightAdded;
  }

  lemma PreparedStart(l: AccountMap, r: AccountMap)
    ensures LeftPrepared(l, r, {}) == l && RightPrepared(l, r, {}) == r
  {
    hide LeftAdded, RightAdded;
  }

  ghost function DeltaCells(m: Accounts): set<Amount?>
    reads m.Values
  {
    set a | a in m :: m[a].balanceDelta
  }

  ghost predicate HasDeltas(m: Accounts)
    reads m.Values
  {
    forall a :: a in m ==> m[a].balanceDelta != null
  }

  ghost predicate OwnDeltas(m: Accounts, others: set<Amount?>)
    reads m.Values
  {
    forall a :: a in m && m[a].balanceDelta != null ==> OwnDelta(m, others, a)
  }

  /** One right account, by its address: which amounts are reachable does not change. */
  method AddOne(left: Accounts, right: Accounts, a: Address)
    requires Injective(left) && left.Values !! right.Values && a in right && right[a].address == a
    requires HasDeltas(left) && OwnDeltas(right, AmountsOf(left))
    modifies left.Values, DeltaCells(right)
    ensures HasDeltas(left) && AmountsOf(left) == old(AmountsOf(left)) && OwnDeltas(right, AmountsOf(left))
    ensures DeltaCells(right) == old(DeltaCells(right)) && right[a].address == a
    ensures a in old(Views(right)) && (a in old(Views(left)) <==> a in left)
    ensures a !in left ==> Views(left) == old(Views(left)) && Views(right) == old(Views(right))
    ensures a in left ==> Views(left) == old(Views(left))[a := LeftAdded(old(Views(left))[a], old(Views(right))[a])]
    ensures a in left ==> Views(right) == old(Views(right))[a := RightAdded(old(Views(left))[a], old(Views(right))[a])]
  {
    hide Views, Injective, OwnDelta, LeftAdded, RightAdded, OutputAccount.View;
    ViewsOf(left);
    ViewsOf(right);
    if right[a].address in left {
      AddAccounts(left[a], right[a], left, right, a);
    }
  }

  /** All accounts: right deltas absorb left ones in place, left accounts take the right transfers. */
  method AddAllAccounts(left: Accounts, right: Accounts)
    requires Injective(left) && left.Values !! right.Values && WellKeyed(Views(right))
    requires HasDeltas(left) && OwnDeltas(right, AmountsOf(left))
    modifies left.Values, DeltaCells(right)
    ensures AmountsOf(left) == old(AmountsOf(left)) && DeltaCells(right) == old(DeltaCells(right))
    ensures Views(left) == LeftPrepared(old(Views(left)), old(Views(right)), right.Keys)
    ensures Views(right) == RightPrepared(old(Views(left)), old(Views(right)), right.Keys)
  {
    hide Views, Injective, HasDeltas, OwnDeltas, LeftPrepared, RightPrepared, LeftAdded, RightAdded, AmountsOf,
      OutputAccount.View;
    KeysAreAddresses(right);
    ViewsOf(left);
    ViewsOf(right);
    ghost var l, r := Views(left), Views(right);
    var todo := right.Keys;
    PreparedStart(l, r);
    assert right.Keys - todo == {};
    while todo != {}
      invariant todo <= right.Keys && HasDeltas(left) && OwnDeltas(right, AmountsOf(left))
      invariant forall a :: a in right ==> right[a].address == a
      invariant AmountsOf(left) == old(AmountsOf(left)) && DeltaCells(right) == old(DeltaCells(right))
      invariant Views(left) == LeftPrepared(l, r, right.Keys - todo)
      invariant Views(right) == RightPrepared(l, r, right.Keys - todo)
      decreases todo
    {
      var a :| a in todo;
      if a in left {
        PreparedStep(l, r, right.Keys - todo, a);
      } else {
        PreparedSkip(l, r, right.Keys - todo, a);
      }
      AddOne(left, right, a);
      assert right.Keys - todo + {a} == right.Keys - (todo - {a});
      todo := todo - {a};
    }
    assert right.Keys - todo == right.Keys;
  }

  ghost predicate Unshared(c: set<Amount?>, d: set<Amount?>) {
    forall x :: x in c && x != null ==> x !in d
  }

  /** Nothing else refers to the amounts of the right output that are added to in place: its deltas
      and its refund. Cached balances may be shared. */
  ghost predicate Own(right: Output, others: set<Amount?>)
    reads right, right.accounts.Values
  {
    && OwnDeltas(right.accounts, others)
    && Unshared({right.gasRefund}, others)
    && Unshared({right.gasRefund}, AmountsOf(right.accounts))
  }

  /** An amount that neither map reaches is added to in place. */
  method Increase(cell: Amount, value: int, ghost left: Accounts, ghost right: Accounts)
    requires cell !in AmountsOf(left) && cell !in AmountsOf(right)
    modifies cell
    ensures cell.number == old(cell.number) + value
    ensures Views(left) == old(Views(left)) && Views(right) == old(Views(right))
  {
    hide Views;
    ViewsOf(left);
    ViewsOf(right);
    ghost var l, r := Views(left), Views(right);
    cell.number := cell.number + value;
    forall a | a in left
      ensures left[a].View() == l[a]
    {
      assert left[a].balance in AmountsOf(left) && left[a].balanceDelta in AmountsOf(left);
    }
    SameViews(l, left);
    forall a | a in right
      ensures right[a].View() == r[a]
    {
      assert right[a].balance in AmountsOf(right) && right[a].balanceDelta in AmountsOf(right);
    }
    SameViews(r, right);
  }

  /** The refund is added to in place. */
  method AddRefunds(left: Output, right: Output)
    requires left != right && left.gasRefund != null
    requires Own(right, AmountsOf(left.accounts) + {left.gasRefund})
    modifies right`gasRemaining, right.gasRefund
    ensures left.View() == old(left.View())
    ensures right.View() == old(right.View()).(
              gasRemaining := 0, gasRefund := AddRefund(old(left.View().gasRefund), old(right.View().gasRefund)))
  {
    hide Views, OwnDeltas, AmountsOf, OutputAccount.View;
    if right.gasRefund != null {
      Increase(right.gasRefund, left.gasRefund.number, left.accounts, right.accounts);
    }
    ghost var l, r := Views(left.accounts), Views(right.accounts);
    ViewsOf(left.accounts);
    ViewsOf(right.accounts);
    right.gasRemaining := 0;
    SameViews(l, left.accounts);
    SameViews(r, right.accounts);
  }

  lemma LeftHasDeltas(o: Output)
    requires Valid(o.View())
    ensures HasDeltas(o.accounts) && o.gasRefund != null
  {
    forall a | a in o.accounts
      ensures o.accounts[a].balanceDelta != null
    {
      assert Views(o.accounts)[a].balanceDelta.Some?;
    }
  }

  lemma RefundsApart(right: Output, others: set<Amount?>)
    requires Own(right, others)
    ensures right.gasRefund == null || right.gasRefund !in DeltaCells(right.accounts)
    ensures forall x :: x in others && x != null ==> x !in DeltaCells(right.accounts)
  {
    forall a | a in right.accounts && right.accounts[a].balanceDelta != null
      ensures right.accounts[a].balanceDelta !in others
    {
      assert OwnDelta(right.accounts, others, a);
    }
  }

  /** The accounts of both sides are prepared for the merge. */
  method Prepare(left: Output, right: Output)
    requires left != right && Injective(left.accounts) && left.accounts.Values !! right.accounts.Values
    requires Valid(left.View()) && WellKeyed(right.View().accounts)
    requires Own(right, AmountsOf(left.accounts) + {left.gasRefund})
    modifies left.accounts.Values, DeltaCells(right.accounts)
    ensures left.View() == old(left.View()).(
              accounts := LeftPrepared(old(left.View().accounts), old(right.View().accounts), right.accounts.Keys))
    ensures right.View() == old(right.View()).(
              accounts := RightPrepared(old(left.View().accounts), old(right.View().accounts), right.accounts.Keys))
  {
    hide Views, AmountsOf, OutputAccount.View, Injective, OwnDeltas, WellKeyed, LeftPrepared, RightPrepared,
      HasDeltas, OwnDelta;
    LeftHasDeltas(left);
    RefundsApart(right, AmountsOf(left.accounts) + {left.gasRefund});
    FewerOthers(right.accounts, AmountsOf(left.accounts) + {left.gasRefund}, AmountsOf(left.accounts));
    AddAllAccounts(left.accounts, right.accounts);
  }

  lemma FewerOthers(m: Accounts, others: set<Amount?>, fewer: set<Amount?>)
    requires OwnDeltas(m, others) && fewer <= others
    ensures OwnDeltas(m, fewer)
  {
    forall a | a in m && m[a].balanceDelta != null
      ensures OwnDelta(m, fewer, a)
    {
      assert OwnDelta(m, others, a);
    }
  }

  lemma PreparedKeys(l: AccountMap, r: AccountMap)
    requires WellKeyed(r)
    ensures WellKeyed(RightPrepared(l, r, r.Keys))
  {
  }

  method AddOutputs(left: Output, right: Output)
    requires left != right && Injective(left.accounts) && left.accounts.Values !! right.accounts.Values
    requires Valid(left.View()) && WellKeyed(right.View().accounts)
    requires Own(right, AmountsOf(left.accounts) + {left.gasRefund})
    modifies left, left.accounts.Values, right`gasRemaining, right.gasRefund, DeltaCells(right.accounts)
    ensures Injective(left.accounts) && fresh(left.accounts.Values - old(left.accounts.Values))
    ensures left.View() == AddToActive(old(left.View()), old(right.View()))
  {
    hide Views, AmountsOf, Output.View, Injective, OwnDeltas, WellKeyed, LeftPrepared, RightPrepared, Merge,
      Unshared;
    LeftHasDeltas(left);
    ghost var keys := right.accounts.Keys;
    SameKeysOf(right);
    PreparedKeys(left.View().accounts, right.View().accounts);
    AddRefunds(left, right);
    Prepare(left, right);
    MergeVMOutputs(left, right);
  }

  lemma SameKeysOf(o: Output)
    ensures o.View().accounts.Keys == o.accounts.Keys
  {
  }

  lemma NotTouched(touched: set<Amount?>, stack: seq<Output>, i: nat)
    requires i < |stack| && Unshared(touched, AmountsIn(stack))
    ensures Unshared(touched, AmountsOf(stack[i].accounts) + {stack[i].gasRefund})
  {
    hide AmountsOf, AmountsIn;
    InStack(stack, i);
  }

  /** Saved states share no account and none of the amounts added to in place. */
  ghost predicate Beside(stack: seq<Output>, left: Output, right: Output)
    reads left, right, right.accounts.Values
    reads set i | 0 <= i < |stack| :: stack[i]
    reads AccountsIn(stack)
  {
    && Unshared(DeltaCells(right.accounts) + {right.gasRefund}, AmountsIn(stack))
    && forall i :: 0 <= i < |stack| ==>
         stack[i] != left && stack[i] != right && stack[i].accounts.Values !! left.accounts.Values
  }

  method AddUnder(stack: seq<Output>, left: Output, right: Output)
    requires left != right && Injective(left.accounts) && left.accounts.Values !! right.accounts.Values
    requires Valid(left.View()) && WellKeyed(right.View().accounts)
    requires Own(right, AmountsOf(left.accounts) + {left.gasRefund})
    requires Beside(stack, left, right)
    modifies left, left.accounts.Values, right`gasRemaining, right.gasRefund, DeltaCells(right.accounts)
    ensures Injective(left.accounts) && fresh(left.accounts.Values - old(left.accounts.Values))
    ensures left.View() == AddToActive(old(left.View()), old(right.View()))
    ensures SavedViews(stack) == old(SavedViews(stack))
  {
    hide Output.View, Injective, Own, AddToActive, WellKeyed, AmountsIn, AccountsIn, SavedViews, Valid;
    SavedViewsOf(stack);
    ghost var was := SavedViews(stack);
    ghost var touched := DeltaCells(right.accounts) + {right.gasRefund};
    forall i | 0 <= i < |stack|
      ensures Unshared(touched, AmountsOf(stack[i].accounts) + {stack[i].gasRefund})
    {
      NotTouched(touched, stack, i);
    }
    AddOutputs(left, right);
    forall i | 0 <= i < |stack|
      ensures stack[i].View() == was[i]
    {
      var o := stack[i];
      assert Unshared(touched, old(AmountsOf(o.accounts)) + {old(o.gasRefund)});
      KindsApart(old(AmountsOf(o.accounts)), old(left.accounts.Values));
      KindsApart(old(DeltaCells(right.accounts)), old(o.accounts.Values));
      NotReached(old(o.accounts.Values), old(AmountsOf(o.accounts)), left);
      NotReached(old(o.accounts.Values), old(AmountsOf(o.accounts)), right);
      assert o.View() == old(o.View());
    }
    SameSavedViews(was, stack);
  }

  /** A built-in function's output is added to the state in use; saved states do not notice. */
  method AddToActiveState(context: OutputContext, right: Output)
    requires context.Separate() && Valid(context.View().state) && WellKeyed(right.View().accounts)
    requires right != context.outputState && context.outputState.accounts.Values !! right.accounts.Values
    requires Own(right, AmountsOf(context.outputState.accounts) + {context.outputState.gasRefund})
    requires Beside(context.stateStack, context.outputState, right)
    modifies context.outputState, context.outputState.accounts.Values
    modifies right`gasRemaining, right.gasRefund, DeltaCells(right.accounts)
    ensures context.Separate()
    ensures context.View() == old(context.View()).(state := AddToActive(old(context.View().state), old(right.View())))
  {
    hide Output.View, AccountsIn, AmountsIn, AmountsOf, SavedViews, Injective, Own, AddToActive, WellKeyed, Valid,
      Beside;
    AddUnder(context.stateStack, context.outputState, right);
  }
}
