/** The runtime, metering and storage contexts: objects whose methods update their own fields. */
module MachineContexts {
  import opened Overflow
  import opened Wrappers
  import opened Types
  import opened HostModel

  class RuntimeContext {
    var vmInput: VMInput
    var scAddress: Address
    var callFunction: FunctionName
    var readOnly: bool
    var asyncCallInfo: Option<AsyncCallInfo>
    var stateStack: seq<RuntimeState>
    var instance: Option<nat>
    var instanceStack: seq<Option<nat>>
    var instances: seq<Instance>
    var codeSize: uint64
    ghost var peak: nat

    ghost function View(): Runtime
      reads this
    {
      Runtime(RuntimeState(vmInput, scAddress, callFunction, readOnly, asyncCallInfo), stateStack,
              instance, instanceStack, instances, codeSize, peak)
    }

    constructor ()
      ensures View() == Runtime(RuntimeState(VMInput("", DirectCall, 0, 0, 0), "", Method(""), false, None), [],
                                None, [], [], 0, 0)
    {
      vmInput, scAddress, callFunction := VMInput("", DirectCall, 0, 0, 0), "", Method("");
      readOnly, asyncCallInfo, stateStack := false, None, [];
      instance, instanceStack, instances, codeSize, peak := None, [], [], 0, 0;
    }

    method InitState()
      modifies this
      ensures View() == old(View()).(
                state := RuntimeState(VMInput("", DirectCall, 0, 0, 0), "", Method(""), false, None), stack := [])
    {
      vmInput, scAddress, callFunction := VMInput("", DirectCall, 0, 0, 0), "", Method("");
      readOnly, asyncCallInfo, stateStack := false, None, [];
    }

    method InitStateFromContractCallInput(input: CallInput)
      modifies this
      ensures View() == InitRuntime(old(View()), input)
    {
      vmInput, scAddress, callFunction := input.vmInput, input.recipient, input.callFunction;
    }

    method PushInstance()
      modifies this`instanceStack
      ensures instanceStack == old(instanceStack) + [instance]
    {
      instanceStack := instanceStack + [instance];
    }

    method PushState()
      modifies this
      ensures View() == PushRuntime(old(View()))
    {
      stateStack := stateStack + [RuntimeState(vmInput, scAddress, callFunction, readOnly, asyncCallInfo)];
      PushInstance();
    }

    method CleanWasmerInstance()
      modifies this`instance, this`instances
      ensures View() == CleanInstance(old(View()))
    {
      if instance.None? || instance.value >= |instances| {
        return;
      }
      var current := instances[instance.value];
      instances := instances[instance.value := current.(cleaned := current.cleaned + 1)];
      instance := None;
    }

    method PopInstance()
      modifies this`instance, this`instances, this`instanceStack
      ensures View() == HostModel.PopInstance(old(View()))
    {
      if |instanceStack| == 0 {
        return;
      }
      var prevInstance := instanceStack[|instanceStack| - 1];
      instanceStack := instanceStack[..|instanceStack| - 1];
      if prevInstance == instance {
        return;
      }
      CleanWasmerInstance();
      instance := prevInstance;
    }

    method PopSetActiveState()
      modifies this
      ensures View() == PopRuntime(old(View()))
    {
      if |stateStack| == 0 {
        return;
      }
      var prevState := stateStack[|stateStack| - 1];
      stateStack := stateStack[..|stateStack| - 1];
      vmInput, scAddress, callFunction := prevState.vmInput, prevState.scAddress, prevState.callFunction;
      readOnly, asyncCallInfo := prevState.readOnly, prevState.asyncCallInfo;
      PopInstance();
    }

    /** A frame starts at most one instance, if there is room on the instance stack. */
    method StartWasmerInstance(env: Env, start: Start) returns (err: Option<Error>)
      modifies this`instance, this`instances, this`peak
      ensures var (r, e) := StartInstance(env, old(View()), start); View() == r && err == e
    {
      if |instanceStack| >= env.maxInstances {
        instance := None;
        return Some(ErrMaxInstancesReached);
      }
      if start.BuildFailed? {
        instance := None;
        return Some(ErrInstanceCreation);
      }
      instance := Some(|instances|);
      instances := instances + [Instance(0, 0)];
      peak := if LiveCount(instances) > peak then LiveCount(instances) else peak;
      if start.HashFailed? {
        CleanWasmerInstance();
        return Some(ErrInstanceCreation);
      }
      err := None;
    }

    function GetPointsUsed(): (points: uint64)
      reads this
      ensures points == PointsUsed(View())
    {
      if instance.Some? && instance.value < |instances| then instances[instance.value].points else 0
    }

    method SetPointsUsed(gasPoints: uint64)
      modifies this`instances
      ensures View() == HostModel.SetPointsUsed(old(View()), gasPoints)
    {
      var points := gasPoints;
      if points > MAX_I64 {
        points := MAX_I64;
      }
      if instance.Some? && instance.value < |instances| {
        instances := instances[instance.value := instances[instance.value].(points := points)];
      }
    }

    method IsContractOnTheStack(address: Address) returns (found: bool)
      ensures found <==> OnTheStack(View(), address)
    {
      found := false;
      for i := 0 to |stateStack|
        invariant found <==> exists j :: 0 <= j < i && stateStack[j].scAddress == address
      {
        if stateStack[i].scAddress == address {
          found := true;
        }
      }
    }
  }

  class MeteringContext {
    var initialGasProvided: uint64
    var initialCost: uint64
    var gasForExecution: uint64
    var stateStack: seq<GasTriple>
    var gasStates: map<Address, GasState>
    var totalUsedGas: uint64

    ghost function View(): Metering
      reads this
    {
      Metering(GasTriple(initialGasProvided, initialCost, gasForExecution), stateStack, gasStates, totalUsedGas)
    }

    constructor ()
      ensures View() == Metering(GasTriple(0, 0, 0), [], map[], 0)
    {
      initialGasProvided, initialCost, gasForExecution, stateStack, gasStates, totalUsedGas := 0, 0, 0, [], map[], 0;
    }

    method InitState()
      modifies this
      ensures View() == old(View()).(state := GasTriple(0, 0, 0), stack := [], gasStates := map[])
    {
      initialGasProvided, initialCost, gasForExecution, stateStack, gasStates := 0, 0, 0, [], map[];
    }

    method PushState()
      modifies this`stateStack
      ensures View() == PushMetering(old(View()))
    {
      stateStack := stateStack + [GasTriple(initialGasProvided, initialCost, gasForExecution)];
    }

    method PopSetActiveState()
      modifies this
      ensures View() == PopMetering(old(View()))
    {
      if |stateStack| == 0 {
        return;
      }
      var prevState := stateStack[|stateStack| - 1];
      stateStack := stateStack[..|stateStack| - 1];
      initialGasProvided := prevState.initialGasProvided;
      initialCost := prevState.initialCost;
      gasForExecution := prevState.gasForExecution;
    }

    /** Returns the input as the caller sees it afterwards: locked gas of a callback is unlocked. */
    method InitStateFromContractCallInput(input: CallInput) returns (unlocked: CallInput)
      modifies this
      ensures unlocked == Unlocked(input)
      ensures View() == InitMetering(old(View()), unlocked)
    {
      unlocked := input;
      if input.vmInput.callType.AsynchronousCallBack? {
        var gasProvided := AddUint64(input.vmInput.gasProvided, input.vmInput.gasLocked);
        unlocked := input.(vmInput := input.vmInput.(gasProvided := gasProvided, gasLocked := 0));
      }
      initialGasProvided := unlocked.vmInput.gasProvided;
      gasForExecution := unlocked.vmInput.gasProvided;
      initialCost := 0;
    }

    method AddForwardedGas(address: Address, gas: uint64)
      modifies this`gasStates
      ensures View() == AddForwarded(old(View()), address, gas)
    {
      var state := if address in gasStates then gasStates[address] else GasState(0, 0);
      gasStates := gasStates[address := state.(forwarded := AddUint64(state.forwarded, gas))];
    }

    method AddReturnedGas(address: Address, gas: uint64)
      modifies this`gasStates
      ensures View() == AddReturned(old(View()), address, gas)
    {
      var state := if address in gasStates then gasStates[address] else GasState(0, 0);
      gasStates := gasStates[address := state.(returned := AddUint64(state.returned, gas))];
    }

    method DeductInitialGas(env: Env, code: Bytes, provided: uint64) returns (err: Option<Error>)
      modifies this`initialCost, this`gasForExecution
      ensures err == if InitialCost(env, code) > provided then Some(ErrNotEnoughGas) else None
      ensures View() == if err.Some? then old(View()) else
                old(View()).(state := old(View().state).(
                  initialCost := InitialCost(env, code), gasForExecution := provided - InitialCost(env, code)))
    {
      var cost := AddUint64(env.gas.getCode, MulUint64(Len(code), env.gas.aotPreparePerByte));
      if cost > provided {
        return Some(ErrNotEnoughGas);
      }
      initialCost, gasForExecution := cost, provided - cost;
      err := None;
    }
  }

  class StorageContext {
    var address: Address
    var stateStack: seq<Address>
    var protectionEnabled: bool

    ghost function View(): Storage
      reads this
    {
      Storage(address, stateStack, protectionEnabled)
    }

    constructor ()
      ensures View() == Storage("", [], true)
    {
      address, stateStack, protectionEnabled := "", [], true;
    }

    method PushState()
      modifies this`stateStack
      ensures View() == old(View()).(stack := old(View().stack) + [old(address)])
    {
      stateStack := stateStack + [address];
    }

    method PopSetActiveState()
      modifies this`stateStack, this`address
      ensures View() == PopStorage(old(View()))
    {
      if |stateStack| == 0 {
        return;
      }
      address := stateStack[|stateStack| - 1];
      stateStack := stateStack[..|stateStack| - 1];
    }
  }
}
