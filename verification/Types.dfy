/** Values exchanged between the host contexts, and the fixed environment they run in. */
module Types {
  import opened Overflow
  import opened Wrappers

  type Bytes = string
  type Address = string

  datatype CallType = DirectCall | AsynchronousCall | AsynchronousCallBack

  /** Function names that are neither protocol built-ins nor the upgrade function. */
  datatype FunctionName = Init | CallBack | Method(name: string)

  datatype ReturnCode =
    | Ok | FunctionNotFound | ContractNotFound | UserError | OutOfGas | OutOfFunds
    | ContractInvalid | ExecutionFailed

  datatype Error =
    | ErrTransferNegativeValue | ErrTransferInsufficientFunds | ErrPayableLookup | ErrAccountNotPayable
    | ErrInitFuncCalledInRun | ErrCallBackFuncCalledInRun | ErrInvalidAccount | ErrContractNotFound
    | ErrContractInvalid | ErrNotEnoughGas | ErrMaxInstancesReached | ErrInstanceCreation | ErrFuncNotFound
    | ErrSignalError | ErrExecutionFailed | ErrReturnCodeNotOk | ErrInputAndOutputGasDoesNotMatch
    | ErrInvalidCallData | ErrStoreReservedKey | ErrCannotWriteProtectedKey

  function ErrorText(e: Error): string {
    match e
    case ErrTransferNegativeValue => "failed transfer (negative value)"
    case ErrTransferInsufficientFunds => "failed transfer (insufficient funds)"
    case ErrPayableLookup => "payable lookup"
    case ErrAccountNotPayable => "sending value to non payable contract"
    case ErrInitFuncCalledInRun => "invalid function (calling init() directly is forbidden)"
    case ErrCallBackFuncCalledInRun => "invalid function (calling callBack() directly is forbidden)"
    case ErrInvalidAccount => "account does not exist"
    case ErrContractNotFound => "invalid contract code (not found)"
    case ErrContractInvalid => "invalid contract code"
    case ErrNotEnoughGas => "not enough gas"
    case ErrMaxInstancesReached => "execution failed (max instances reached)"
    case ErrInstanceCreation => "instance creation"
    case ErrFuncNotFound => "invalid function (not found)"
    case ErrSignalError => "error signalled by smartcontract"
    case ErrExecutionFailed => "execution failed"
    case ErrReturnCodeNotOk => "return code is not ok"
    case ErrInputAndOutputGasDoesNotMatch => "input and output gas does not match"
    case ErrInvalidCallData => "invalid call data"
    case ErrStoreReservedKey => "cannot write to storage under reserved key"
    case ErrCannotWriteProtectedKey => "cannot write to protected key"
  }

  function ReturnCodeOf(e: Error): (r: ReturnCode)
    ensures r != Ok
  {
    match e
    case ErrSignalError => UserError
    case ErrFuncNotFound => FunctionNotFound
    case ErrInitFuncCalledInRun => UserError
    case ErrCallBackFuncCalledInRun => UserError
    case ErrNotEnoughGas => OutOfGas
    case ErrContractNotFound => ContractNotFound
    case ErrContractInvalid => ContractInvalid
    case ErrTransferInsufficientFunds => OutOfFunds
    case _ => ExecutionFailed
  }

  function ReturnCodeText(c: ReturnCode): string {
    match c
    case Ok => "ok"
    case FunctionNotFound => "function not found"
    case ContractNotFound => "contract not found"
    case UserError => "user error"
    case OutOfGas => "out of gas"
    case OutOfFunds => "out of funds"
    case ContractInvalid => "contract invalid"
    case ExecutionFailed => "execution failed"
  }

  datatype VMInput = VMInput(
    callerAddr: Address, callType: CallType, callValue: int, gasProvided: uint64, gasLocked: uint64)

  datatype CallInput = CallInput(
    vmInput: VMInput, recipient: Address, callFunction: FunctionName, allowInit: bool)

  /** What the node knows about an address; it does not change while a transaction runs. */
  datatype HookAccount = HookAccount(
    balance: nat, code: Bytes, readable: bool, storage: map<Bytes, Bytes>)

  datatype GasSchedule = GasSchedule(
    aotPreparePerByte: uint64, getCode: uint64, asyncCallStep: uint64, asyncCallbackGasLock: uint64,
    dataCopyPerByte: uint64, storePerByte: uint64, releasePerByte: uint64, persistPerByte: uint64)

  datatype Env = Env(
    accounts: map<Address, HookAccount>,
    payable: map<Address, bool>,      // an address without entry makes the lookup fail
    withCallback: set<Address>,       // contracts exporting the default callback
    gas: GasSchedule,
    maxInstances: nat,
    protectedKeyPrefix: Bytes)

  const ADDRESS_LEN := 32
  const PROTECTED_STORAGE_PREFIX: Bytes := "ANDES@"

  /** Slice lengths are machine ints; lengths beyond that range do not exist. */
  function Len(s: Bytes): (r: uint64)
    ensures |s| <= MAX_I64 ==> r == |s|
  {
    if |s| <= MAX_I64 then |s| else MAX_I64
  }
}
