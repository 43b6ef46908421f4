/** Runs of nested frames over the output context: the heap does what the values do. */
module OutputRuns {
  import opened Overflow
  import opened Wrappers
  import opened Types
  import opened OutputModel
  import opened HostModel
  import opened OutputObjects

  /** What contracts do to the output between a push and its pop; calls nest, and are kept or undone. */
  datatype Use =
    | Pay(sender: Address, destination: Address, value: int)
    | Send(sender: Address, destination: Address, value: int, gasLimit: uint64, data: Bytes)
    | Look(address: Address)
    | Credit(address: Address, value: int)
    | Censor
    | Nested(uses: seq<Use>, keep: bool)

  function RunLeaf(env: Env, o: VMOutput, use: Use): VMOutput
    requires !use.Nested?
  {
    match use
    case Pay(sender, destination, value) =>
      HostModel.TransferValueOnly(env, o, false, destination, sender, value, true).0
    case Send(sender, destination, value, gasLimit, data) =>
      TransferOut(env, o, false, destination, sender, gasLimit, 0, value, data, DirectCall).0
    case Look(address) => Balance(env, o, address).0
    case Credit(address, value) => AddDelta(o, address, value)
    case Censor => Censored(o)
  }

  function RunOne(env: Env, o: Outputs, use: Use): Outputs
    decreases use, 0
  {
    if use.Nested? then
      var inner := RunAll(env, PushOutput(o), use.uses);
      if use.keep then PopMergeOutput(inner) else PopSetOutput(inner)
    else o.(state := RunLeaf(env, o.state, use))
  }

  function RunAll(env: Env, o: Outputs, uses: seq<Use>): Outputs
    decreases uses, 1
  {
    if uses == [] then o else RunAll(env, RunOne(env, o, uses[0]), uses[1..])
  }

  ghost predicate AllKeyed(o: Outputs) {
    WellKeyed(o.state.accounts) && forall s :: s in o.stack ==> WellKeyed(s.accounts)
  }

  lemma AddDeltaKeepsKeys(o: VMOutput, a: Address, v: int)
    requires WellKeyed(o.accounts)
    ensures WellKeyed(AddDelta(o, a, v).accounts)
  {
  }

  lemma BalanceKeepsKeys(env: Env, o: VMOutput, a: Address)
    requires WellKeyed(o.accounts)
    ensures WellKeyed(Balance(env, o, a).0.accounts)
  {
  }

  lemma PayKeepsKeys(env: Env, o: VMOutput, dest: Address, sender: Address, value: int, checkPayable: bool)
    requires WellKeyed(o.accounts)
    ensures WellKeyed(HostModel.TransferValueOnly(env, o, false, dest, sender, value, checkPayable).0.accounts)
  {
    hide Balance, AddDelta;
    BalanceKeepsKeys(env, o, sender);
    var o1 := Balance(env, o, sender).0;
    AddDeltaKeepsKeys(o1, sender, -value);
    AddDeltaKeepsKeys(AddDelta(o1, sender, -value), dest, value);
  }

  lemma LeafKeepsKeys(env: Env, o: VMOutput, use: Use)
    requires !use.Nested? && WellKeyed(o.accounts)
    ensures WellKeyed(RunLeaf(env, o, use).accounts)
  {
    hide Balance, AddDelta, HostModel.TransferValueOnly;
    match use
    case Pay(sender, destination, value) => PayKeepsKeys(env, o, destination, sender, value, true);
    case Send(sender, destination, value, gasLimit, data) =>
      PayKeepsKeys(env, o, destination, sender, value, gasLimit > 0);
    case Look(address) => BalanceKeepsKeys(env, o, address);
    case Credit(address, value) => AddDeltaKeepsKeys(o, address, value);
    case Censor =>
  }

  lemma PushKeepsKeys(o: Outputs)
    requires AllKeyed(o)
    ensures AllKeyed(PushOutput(o))
  {
    MergeKeepsKeys(NEW_OUTPUT, o.state);
  }

  lemma PopKeepsKeys(o: Outputs)
    requires AllKeyed(o)
    ensures AllKeyed(PopMergeOutput(o)) && AllKeyed(PopSetOutput(o))
  {
    if o.stack != [] {
      var top := o.stack[|o.stack| - 1];
      MergeKeepsKeys(top, o.state);
      MergeKeepsKeys(NEW_OUTPUT, Merge(top, o.state));
    }
  }

  /** Every run leaves the saved states alone, and keeps accounts under their addresses. */
  lemma {:induction false} RunAllKeeps(env: Env, o: Outputs, uses: seq<Use>)
    requires AllKeyed(o)
    ensures AllKeyed(RunAll(env, o, uses)) && RunAll(env, o, uses).stack == o.stack
    decreases uses, 1
  {
    if uses != [] {
      RunOneKeeps(env, o, uses[0]);
      RunAllKeeps(env, RunOne(env, o, uses[0]), uses[1..]);
    }
  }

  lemma {:induction false} RunOneKeeps(env: Env, o: Outputs, use: Use)
    requires AllKeyed(o)
    ensures AllKeyed(RunOne(env, o, use)) && RunOne(env, o, use).stack == o.stack
    ensures use.Nested? && !use.keep ==> RunOne(env, o, use).state == Snapshot(o.state)
    decreases use, 0
  {
    if use.Nested? {
      PushKeepsKeys(o);
      RunAllKeeps(env, PushOutput(o), use.uses);
      PopKeepsKeys(RunAll(env, PushOutput(o), use.uses));
    } else {
      LeafKeepsKeys(env, o.state, use);
    }
  }

  method PerformLeaf(env: Env, context: OutputContext, use: Use)
    requires context.Separate() && !use.Nested?
    modifies context.outputState, context.outputState.accounts.Values
    ensures context.Separate() && context.outputState == old(context.outputState)
    ensures fresh(context.outputState.accounts.Values - old(context.outputState.accounts.Values))
    ensures context.View() == old(context.View()).(state := RunLeaf(env, old(context.View().state), use))
  {
    hide OutputContext.View, Apart, HostModel.TransferValueOnly, TransferOut, Balance, AddDelta, Censored;
    match use {
      case Pay(sender, destination, value) =>
        var _ := context.TransferValueOnly(env, false, destination, sender, value, true);
      case Send(sender, destination, value, gasLimit, data) =>
        var _ := context.Transfer(env, false, destination, sender, gasLimit, 0, value, data, DirectCall);
      case Look(address) =>
        var _ := context.GetBalanceBigInt(env, address);
      case Credit(address, value) =>
        context.AddTxValueToAccount(address, value);
      case Censor =>
        context.CensorVMOutput();
    }
  }

  /** The saved states keep their accounts. */
  method Perform(env: Env, context: OutputContext, use: Use)
    requires context.Separate() && AllKeyed(context.View())
    modifies context, context.outputState, context.outputState.accounts.Values
    ensures context.Separate() && context.stateStack == old(context.stateStack)
    ensures forall i :: 0 <= i < |context.stateStack| ==>
              context.stateStack[i].accounts == old(context.stateStack[i].accounts)
    ensures context.outputState == old(context.outputState) || fresh(context.outputState)
    ensures fresh(context.outputState.accounts.Values - old(context.outputState.accounts.Values))
    ensures context.View() == RunOne(env, old(context.View()), use)
    decreases use, 0
  {
    hide OutputContext.View, WellKeyed, RunLeaf, RunAll, PushOutput, PopMergeOutput, PopSetOutput;
    if use.Nested? {
      ghost var o := context.View();
      PushKeepsKeys(o);
      RunAllKeeps(env, PushOutput(o), use.uses);
      context.PushState();
      PerformAll(env, context, use.uses);
      if use.keep {
        context.PopMergeActiveState();
      } else {
        context.PopSetActiveState();
      }
    } else {
      PerformLeaf(env, context, use);
    }
  }

  /** A whole run on the heap computes the run on values: sharing amounts is never observed. */
  method PerformAll(env: Env, context: OutputContext, uses: seq<Use>)
    requires context.Separate() && AllKeyed(context.View())
    modifies context, context.outputState, context.outputState.accounts.Values
    ensures context.Separate() && context.stateStack == old(context.stateStack)
    ensures forall i :: 0 <= i < |context.stateStack| ==>
              context.stateStack[i].accounts == old(context.stateStack[i].accounts)
    ensures context.outputState == old(context.outputState) || fresh(context.outputState)
    ensures fresh(context.outputState.accounts.Values - old(context.outputState.accounts.Values))
    ensures context.View() == RunAll(env, old(context.View()), uses)
    decreases uses, 1
  {
    hide OutputContext.View, AllKeyed, RunOne;
    if |uses| > 0 {
      RunOneKeeps(env, context.View(), uses[0]);
      Perform(env, context, uses[0]);
      PerformAll(env, context, uses[1..]);
    }
  }
}
