# Verification of the VM host, its contexts, and its companions

A Dafny 4.11 model of a smart-contract virtual machine: nested contract execution over five
contexts, the ordered JSON parser and printer of its scenario files, the dialogue between the node
and the VM process, and the smaller loops these rest on.

`dafny verify dfyconfig.toml` checks everything.

## How it is built

Nested execution is modelled twice and the two are proved equal.

*On values.* `HostModel` has the five contexts (big integers, output, runtime, metering, storage)
as values and every operation as a function, with the source's branches, constants and error
cases. A contract body is a script of actions: use gas, transfer, store, read, log, finish, fail,
signal, call on a destination context, call on the same context, or end with an asynchronous call
(which is sent away, or runs here followed by its callback). Scripts are arbitrary finite trees, so
a statement over all scripts covers every run of contracts that use these actions; the actions they
lack are listed under "Left out". The whole-run theorems are in `Effects` and `TransactionEffects`
(what a run shows is the list of events of what was kept), `Frames` (rollback, stacks, merge,
instances), `Numbers` (big integers), `OutputGrowth` (value, overdraft, caches), `GasCosts` (what every
action and call costs), `GasConservation` and `GasLedger` (gas), `GasCheck` (when gas checks pass;
`GasExamples` has runs in which they do not), `Recursion` (contracts that are called back), `Failures`
(which error comes out as what) and `Transactions` (a transaction from a quiescent host).

*On objects.* `BigIntObjects`, `OutputObjects`, `MachineContexts` and `HostObjects` are the code:
classes whose methods push, update in place and pop. The heap is the source's: a pushed output
state shares its amounts (big integers) by reference with the state it was taken from, and only
because accounts are copied and writers allocate new amounts do frames stay isolated. This is
proved: `VMHost.RunSmartContractCall` and every method under it, for every script, end in a state
whose abstract value is what the functions compute, so the theorems above hold of the objects.
`OutputRuns` and `ActiveState` add runs of nested frames on the output alone and the one place
where amounts are changed in place (`AddToActiveState`).

The other components: `StorageCache` (the cache refines one flat map of cells; byte accounting),
`AsyncCalls`, `AsyncHere` and `AsyncGasShares` (how asynchronous calls split gas, in this shard and
out of it), `AnswerText` (the data of an answer), `OrderedJson`, `JsonGrammar`, `JsonParsing`,
`JsonParsesGrammar`, `JsonLanguage`, `JsonRoundTrip` and `JsonCode` (automaton, invariant, the exact
language of the parser, round trip, and the loops that implement both directions), `Dialogue` (the two
processes as a state machine, and the code of each step), `LinearMemory`, `Leb128`, and `Overflow`
(saturating and checked arithmetic). `Types`, `Wrappers` and `FiniteSums` are shared.

## Where code and intent differ

- The gas check of a frame compares what has been recorded with a baseline. A destination call sets
  the baseline to what was recorded before it, a same-context call inherits its caller's, and every
  finished destination call sets it to 0 (vmhost/hostCore/execution.go:227). `GasCheck` states exactly
  when a frame passes, and for scripts with destination calls only the condition is one a caller can
  check (`ExactDestCallCheck`, `ExactSameCallCheck`): a callee that itself calls a destination fails if
  anything was recorded before it. The call is then an ordinary failed one; no gas is lost
  (`GasExamples.NestedCheckFails`).
- A same-context callee whose gas check fails is kept, yet reports no gas spent, so its gas is recorded
  without being counted as forwarded. In a root contract the baseline is 0, so this happens to every
  finished same-context call made after anything was recorded, and the transaction then fails unless
  the callee spent nothing (`GasExamples.SameCallCountsTwice`). `Unpaid` adds up what scripts record in
  this way, and `TransactionConservesGas` says that a root that ends without error is Ok exactly when it
  is 0.
- The merge takes the callee's gas refund and drops the caller's (vmhost/contexts/output.go:623), so
  refunds add up exactly when the caller's was 0 (`Frames.DestCallMerges`; `GasExamples.RefundIsLost`
  is a transaction that loses one).
- The JSON parser accepts more than section 2 of RFC 8259 allows: any bytes other than `]` and `,` after
  an array item (`JsonParsesGrammar.SkipsByte`, `JsonRoundTrip.MissingCommaIsAccepted`), and a comma before
  the first member of an object (`LeadingCommaIsAccepted`). It accepts less in two cases: a boolean that
  is the whole text needs a whitespace byte after it (`BooleanNeedsNewline`, `ParseUndoesText`; the
  printer's final newline provides one), and a string may not end in an escaped backslash
  (`EscapedBackslashIsRefused`). `JsonLanguage.ExactLanguage` says which texts are accepted, and as what.
- `MemStore` and `MemLoad` cut off what lies beyond 2^31-1, because the addition of offset and length
  saturates (`LinearMemory.TruncatedStore`). Data of 2^31 bytes or more is first converted to a 32-bit
  length.
- A contract that is called back while it waits on the stack is taken to have forwarded, in the inner
  run, what the outer one forwarded before; when that is more than the inner run spends, its caller is
  charged the difference (`Recursion.CallBackOvercharges`). No gas is lost in `RecursiveTransaction`, where
  nothing was forwarded before.
- The gas locked for a callback is to pay for compiling the contract again, but the code size it is
  computed from is that of the contract loaded last (`AsyncHere.LockAfterCall`).
- The callback of an asynchronous call that runs in this shard starts on a counter of 0, and what the
  contract had spent itself is added back only if the destination and the callback both succeed
  (vmhost/hostCore/asyncCall.go:184-193, `AsyncHere.AsyncHereUses`).
- A transfer made by a contract may name a gas limit it does not pay for. The limit counts as recorded
  unpaid, and the root's check fails (`GasExamples.NamedGasFails`).

## Model

| member | source | states |
|---|---|---|
| `Overflow.AddUint64WithErr` | math/overflow.go:23-30 | comparing the wrapped sum with both operands reports overflow exactly when the true sum does not fit; otherwise the sum is true |
| `Overflow.AddUint64` | math/overflow.go:12-20 | the true sum, or the largest uint64 when it does not fit |
| `Overflow.SubUint64` | math/overflow.go:44-50 | difference and shortfall: one is 0 and the other the distance between the operands |
| `Overflow.WrappedProductDividesBack` | math/overflow.go:64-71 | the wrapped product divided by one operand gives back the other exactly when the true product fits |
| `Overflow.MulUint64WithErr` | math/overflow.go:64-71 | the division test reports overflow exactly when the true product does not fit |
| `Overflow.MulUint64` | math/overflow.go:53-61 | the true product, or the largest uint64 when it does not fit |
| `Overflow.AddInt32WithError` | math/overflow.go:85-92 | overflow in either direction is detected exactly |
| `Overflow.AddInt32` | math/overflow.go:74-82 | the true sum, or the largest int32 on overflow in either direction, as the source does |
| `Overflow.SubInt` | math/overflow.go:95-103 | the true difference, or the smallest int when it does not fit |
| `OutputModel.SnapshotIsIdentity` | vmhost/contexts/output.go:71-75 | merging into a new output copies it: what PushState saves is the state itself |
| `OutputModel.MergeAccountOnSuccess` | vmhost/contexts/output.go:632-672 | merging an account into one it extends gives the extended account: each transfer once, in order; code is kept when the callee dropped it |
| `OutputModel.MergeOnSuccess` | vmhost/contexts/output.go:94-106 | if the callee state extends the pushed one, the merge has the callee's deltas, storage, nonces, gas used and transfers (each once, in order), the caller's logs and return data followed by the callee's, and the callee's code, gas and refund |
| `OutputGrowth.BalanceGrows` | vmhost/contexts/blockchain.go:67-92 | reading a balance caches the node's balance, changes no delta, and never reports more than balance plus delta |
| `OutputGrowth.AddDeltaSound` | vmhost/contexts/output.go:408-411 | the sum of balance deltas changes by the value added, every other delta is unchanged |
| `OutputGrowth.TransferValueOnlyGrows` | vmhost/contexts/output.go:255-289 | any transfer, to oneself included, keeps the sum of deltas, overdraws no account, and keeps caches sound, on every exit |
| `OutputGrowth.TransferMoves` | vmhost/contexts/output.go:255-289 | on success the receiver gains the value, the sender loses it, every other delta stays; on failure no delta changes; each error, and success, has its exact condition on the value, the sender's balance and the payable table |
| `OutputGrowth.TransferOutGrows` | vmhost/contexts/output.go:294-314 | the same for transfers that append an output transfer; earlier transfers stay a prefix |
| `OutputGrowth.TransferOutSucceeds` | vmhost/contexts/output.go:294-314 | exactly when a transfer succeeds: payability is checked only for one that runs code and is not an answer |
| `OutputGrowth.GetCodeGrows` | vmhost/contexts/blockchain.go:141-164 | looking up code only extends the output, and cached code is the node's |
| `OutputGrowth.CachedReadGrows` | vmhost/contexts/storage.go:156-171 | filling the storage cache only extends the output and keeps protected entries equal to the node's |
| `OutputGrowth.StoredGrows` | vmhost/contexts/storage.go:204-292 | storing an update keeps deltas, transfers and the entries of protocol-protected keys |
| `OutputGrowth.GetVMOutputGrows` | vmhost/contexts/output.go:433-459 | producing the final output only extends the accounts; when it reports Ok the output is the state itself |
| `OutputGrowth.OutputCode` | vmhost/contexts/output.go:535-544 | the output names code, metadata and deployer of an account exactly if its code was updated |
| `OutputGrowth.MergedGrows` | vmhost/contexts/output.go:606-630 | merging a grown callee state keeps the sum of deltas, no overdraft and sound caches |
| `Frames.StartInstanceInside` | vmhost/contexts/runtime.go:117-137 | a frame that starts at most one instance has at most one live instance of its own, and the live instances never exceed the limit |
| `Frames.FailedStartCleans` | vmhost/contexts/runtime.go:117-137 | a start that fails leaves no instance, and has cleaned the one it started, if any |
| `Frames.PopRuntimeInside` | vmhost/contexts/runtime.go:384-405 | popping restores the caller's fields and instance, cleans the callee's instance exactly once, and leaves no cleaned instance running or on the stack |
| `Frames.LiveCountOfSuffix` | vmhost/contexts/runtime.go:692-701 | instances cleaned since do not count as live: the live ones are those of before and the frame's own |
| `Frames.WriteStorageKept` | vmhost/contexts/storage.go:204-292 | a storage write keeps all stacks, the frame, the instance and the sum of deltas |
| `Frames.LocalActionKept` | vmhost/hostCore/execution.go:630-645 | every action that makes no call keeps all stacks, the frame, the instance, the gas triple and the growth of the output |
| `Frames.LeaveDestKept` | vmhost/hostCore/execution.go:255-297 | leaving a frame restores stack heights, frame, instance, gas triple and storage address; unless the callee returned Ok the observable state is the one of entry |
| `Frames.LeaveSameKept` | vmhost/hostCore/execution.go:342-376 | both exits of the same-context finisher restore the stacks; the failing exit restores the entry state exactly |
| `Frames.DestCallKept` | vmhost/hostCore/execution.go:203-253 | over every script, with any calls nested in it: every exit restores all stacks, frame, instance, gas triple and storage address, and no cleaned instance is running or on the stack; a failed call leaves the caller's big integers, output, runtime, metering and storage exactly as on entry |
| `Frames.DestCallMerges` | vmhost/hostCore/execution.go:255-297 | over every script: a successful call leaves the callee's accounts (up to cached code), extending the caller's, the caller's logs and return data followed by the callee's, and the callee's gas refund alone, which is the sum of both exactly when the caller's was 0 |
| `Frames.SameCallKept` | vmhost/hostCore/execution.go:301-340 | the same rollback, restoration and instances for calls in the caller's context |
| `Frames.BodyKept` | vmhost/hostCore/execution.go:545-595 | a contract body, whatever it calls, keeps its frame, stacks and instance; the output grows; started instances are cleaned, and none running or on the stack is; the peak of live instances stays within the limit |
| `Frames.PrepareAsyncKept` | vmhost/contexts/runtime.go:742-774 | registering an asynchronous call keeps the frame and stacks |
| `Frames.SendAsyncKept` | vmhost/hostCore/asyncCall.go:214-239 | sending the call away keeps the frame and stacks and the sum of deltas |
| `Frames.CallbackKept` | vmhost/hostCore/asyncCall.go:160-204 | running the callback, or reporting that it failed, keeps the frame and stacks |
| `Frames.AsyncKept` | vmhost/hostCore/asyncCall.go:18-71 | an asynchronous call, sent away or run here with its callback, keeps the frame, stacks and instance |
| `Effects.LocalFollows` | vmhost/hostCore/execution.go:630-645 | an action that makes no call leaves exactly its own events in the output: value moved, transfer sent, cell written, refund, log, return data |
| `Effects.DestFollows` | vmhost/hostCore/execution.go:203-253 | over every script: the callee's own output shows the events of its call (entry transfer and kept actions) on empty logs, data, message and refund; the caller's output shows them after its own; a failed call shows nothing |
| `Effects.SameFollows` | vmhost/hostCore/execution.go:301-340 | the same for a call in the caller's context, which writes to the caller's storage |
| `Effects.AsyncFollows` | vmhost/hostCore/asyncCall.go:18-71 | an asynchronous call shows its value and transfer if it leaves the shard, else the events of the destination and of the callback |
| `Effects.CallbackFollows` | vmhost/hostCore/asyncCall.go:160-204 | a callback shows its events; one that cannot be paid for, or fails, is reported by message, return code and an empty datum |
| `Effects.BodyFollows` | vmhost/hostCore/execution.go:630-645 | the output after any script differs from the one before by exactly the events of its kept actions, in order |
| `TransactionEffects.DestCallShows` | vmhost/hostCore/execution.go:203-253 | the logs and data a successful call hands out are those of its script, whatever its caller wrote; the caller has them after its own; every balance changes by the net of the call's transfers |
| `TransactionEffects.DestCallPays` | vmhost/contexts/output.go:255-289 | a successful call of a contract that moves no value leaves it with the call value, its caller without it, and all others as they were |
| `TransactionEffects.TransactionShows` | vmhost/hostCore/execution.go:133-182 | an accepted output shows exactly the events of the transaction: logs, data, message, refund, and per account delta, transfers and storage; a contract called from another shard ends with its answer: call value, data, call type, receiver and all gas left |
| `AnswerText.ReadUndoesJoin` | vmhost/hostCore/asyncCall.go:242-272 | the return code and all data can be read back from the hexadecimal fields of an answer |
| `Numbers.BodyHasNumbers` | vmhost/contexts/bigint.go:36-46 | the big integers after any script are those its kept actions set, calls in the same context included |
| `Numbers.DestCallNumbers` | vmhost/contexts/bigint.go:36-46 | a destination call, successful or not, gives its caller back the big integers it had |
| `Numbers.DestFrameNumbers` | vmhost/contexts/bigint.go:30-33 | a destination call starts with no big integers |
| `Failures.CodesOfErrors` | vmhost/contexts/output.go:546-580 | which errors each return code stands for, both ways |
| `Failures.CodesDiffer` | vmhost/hostCore/asyncCall.go:242-272 | return codes have different texts |
| `Failures.ErrorOutputSays` | vmhost/contexts/output.go:510-533 | an error output has only the code and a message: the one reported already, or the error's; a signal's own even if empty |
| `Failures.FaultStops` | vmhost/contexts/runtime.go:529-543 | a failed API call takes all gas left and changes code and message only |
| `Failures.LocalErrors` | vmhost/contexts/runtime.go:529-543 | exactly when an action without calls succeeds, and what code and message it leaves otherwise |
| `Failures.AsyncOutcome` | vmhost/hostCore/asyncCall.go:18-71 | exactly how an asynchronous call ends its contract: short of gas, data that cannot be parsed, the error of its transfer if it leaves the shard, no error if it runs here |
| `Failures.BodyErrors` | vmhost/hostCore/breakpoints.go:21-36 | the errors that can stop a script |
| `Failures.CalleeErrors` | vmhost/hostCore/execution.go:545-595 | each reason why a callee cannot be run, on its exact condition |
| `Failures.EntryErrors` | vmhost/hostCore/execution.go:203-253 | a call is entered exactly when the caller can pay the value and the recipient is in the payable table; a callback with value always |
| `Failures.TransactionCodes` | vmhost/hostCore/execution.go:133-182 | the codes ContractNotFound, ContractInvalid and FunctionNotFound occur exactly for a missing contract, one that cannot be started, a missing function; a failed output carries code and message only |
| `Failures.SignalReported` | vmhost/contexts/runtime.go:546-551 | of a contract that can be run, the code is UserError exactly when its script reaches a signal, and the message is the signalled one |
| `GasLedger.TransferOutLedger` | vmhost/contexts/output.go:294-314 | a transfer adds exactly its gas limit and locked gas to the recorded gas |
| `GasLedger.RecordGasLedger` | vmhost/contexts/output.go:433-459 | gas used replaces what the account had; no other account changes |
| `GasLedger.RecordGasOfFailure` | vmhost/contexts/output.go:433-459 | a contract that reported an error is recorded with all gas provided on top of what was recorded |
| `GasLedger.GetVMOutputLedger` | vmhost/contexts/output.go:472-496 | what the gas check adds up, and that it passes exactly when the recorded gas since the frame began fits the gas provided |
| `GasConservation.PrepareGas` | vmhost/hostCore/execution.go:545-595 | all gas provided is charged to the caller, or none exactly when the call names the init function; the callee starts with at least the price of its code paid |
| `GasConservation.LoadAndStartGas` | vmhost/contexts/metering.go:380-397 | initial cost plus gas for execution is the gas provided; a started instance has used no points |
| `GasConservation.LeaveDestGas` | vmhost/hostCore/execution.go:255-297 | what the caller's books gain across the settlement is exactly what the callee recorded beyond its spending; the rest of the charge is restored |
| `GasConservation.KeepSameGas` | vmhost/hostCore/execution.go:342-376 | the same when the callee ran in the caller's context; a callee that failed its check adds all it spent |
| `GasConservation.SettleGas` | vmhost/contexts/output.go:433-459 | a callee with balanced books that reports Ok has gas spent plus gas remaining equal to gas provided; what it recorded beyond is its slack |
| `GasConservation.DestCallGas` | vmhost/hostCore/execution.go:203-253 | over every call tree without repeated addresses: a successful child costs what it was given minus what remains, all of it recorded and at least the price of loading code; a failed child costs nothing exactly when refused (value not transferable, or init), else all it was given, and records nothing |
| `GasConservation.SameCallGas` | vmhost/hostCore/execution.go:301-340 | a call that ends in an error costs nothing when refused, else all it was given; one that ends without error records what it spent, and costs that if its gas check passes, else all it was given |
| `GasConservation.BodyGas` | vmhost/hostCore/execution.go:545-595 | every script: recorded gas grows by gas forwarded plus exactly the gas recorded unpaid (limits named by transfers, spending of same-context callees that fail their check) |
| `GasConservation.AsyncGas` | vmhost/hostCore/asyncCall.go:214-239 | a call that leaves the shard records in its transfer all the gas it takes, and none is left |
| `Transactions.RootSettles` | vmhost/contexts/output.go:472-496 | the root's gas check passes exactly when the gas recorded is the gas forwarded, and then recorded plus remaining is the gas provided |
| `Transactions.TransactionKeepsHost` | vmhost/hostCore/execution.go:133-182 | every transaction: stacks end empty, each started instance is cleaned exactly once, live instances never exceed the limit, deltas sum to the call value, no account is overdrawn, protected cache entries equal the node's values |
| `Transactions.TransactionConservesGas` | vmhost/hostCore/execution.go:133-182 | every transaction whose call tree repeats no address: it ends Ok exactly when its root ends without error and no gas was recorded unpaid, and then gas used and carried by transfers over all accounts plus gas remaining equals gas provided; with destination calls only and no named gas nothing is unpaid |
| `GasConservation.ExactIsPaid` | vmhost/hostCore/execution.go:203-253 | scripts with destination calls only, whose transfers name no gas, record nothing unpaid |
| `GasCosts.DestPoints` | vmhost/hostCore/execution.go:255-297 | over every script: a call costs its caller the gas given less what the callee's output says remains, nothing if refused |
| `GasCosts.SamePoints` | vmhost/hostCore/execution.go:342-376 | the same in the caller's context; a failed call gets nothing back |
| `GasCosts.EntersUnlocked` | vmhost/contexts/metering.go:110-115 | a callback starts with its locked gas on top of the gas provided, any other call without |
| `GasCosts.BodyUses` | vmhost/contexts/metering.go:146-149 | the gas a script uses is the sum of what its actions cost: gas named, bytes stored, persisted, read and copied, and the calls; the counter stops at 2^63-1 |
| `GasCosts.InitialCostIsLoadCost` | vmhost/contexts/metering.go:380-397 | the initial cost is the price of looking up the code plus its length times the price of compiling a byte, saturating; the code is the node's |
| `GasCosts.DestCallCosts` | vmhost/hostCore/execution.go:203-253 | the gas given to a successful callee is its load cost, the cost of its script and what is left; its output reports what is left, less what was forwarded beyond what was spent |
| `GasCosts.TransactionCosts` | vmhost/hostCore/execution.go:133-182 | the same for a whole transaction |
| `Recursion.ForwardGasRecords` | vmhost/contexts/metering.go:179-193 | forwarded gas grows for the source only; returned gas grows for the destination exactly when it is the source or the address of a frame on the stack; nothing else changes |
| `Recursion.DestCallRecords` | vmhost/hostCore/execution.go:255-297 | what a successful call records: gas spent, forwarded by the caller, returned to a callee that waits below, and the callee's GasUsed |
| `Recursion.RecursiveCall` | vmhost/contexts/metering.go:179-193 | A calls B and B calls A back: the records of both after it, for any gas forwarded before |
| `Recursion.RecursiveTransaction` | vmhost/hostCore/execution.go:133-182 | in such a transaction both calls pass their checks, A is recorded with what both its runs spent, B with what it spent, the output is Ok, and all of it plus the gas remaining is the gas provided |
| `Recursion.CallBackOvercharges` | vmhost/contexts/metering.go:179-193 | a contract called back after it had forwarded more than it spends is charged for the excess too, through its caller |
| `GasCheck.FrameCheck` | vmhost/contexts/output.go:472-496 | a frame with balanced books passes exactly when what was recorded before it plus what it recorded unpaid, compared with saturation, is within the baseline |
| `GasCheck.BodyBaseline` | vmhost/hostCore/execution.go:203-253 | every script leaves the baseline alone, or at 0 if it finished a destination call |
| `GasCheck.DestCallCheck` | vmhost/hostCore/execution.go:255-297 | a destination call whose frame ends without error fails exactly when the frame recorded gas unpaid, or gas had been recorded before and the frame itself finished a destination call |
| `GasCheck.SameCallCheck` | vmhost/hostCore/execution.go:342-376 | exactly when a finished same-context callee passes its check, for any amounts of gas; either way it is kept and what it spent is recorded, counted as forwarded only if it passed |
| `GasCheck.SameCallAtRoot` | vmhost/hostCore/execution.go:342-376 | called from a root, it passes exactly when nothing was recorded before and it recorded nothing unpaid |
| `GasCheck.ExactDestCallCheck` | vmhost/hostCore/execution.go:219-233 | what a caller can check: with destination calls only, the callee's finished frame fails exactly when gas has been recorded before and its script calls a destination |
| `GasCheck.ExactSameCallCheck` | vmhost/hostCore/execution.go:342-376 | the same for a same-context call: it passes exactly when the gas recorded before is within the caller's baseline, or within 0 if the callee's script calls a destination |
| `GasCheck.CalleeIsModest` | vmhost/contexts/output.go:472-496 | as long as what a contract recorded plus what it was provided is within 2^63-1, the check of a callee compares the gas recorded before it without saturation |
| `GasExamples.NestedCheckFails` | vmhost/hostCore/execution.go:219-233 | a transaction in which such a callee fails although no gas is unpaid, and the root ends Ok without its effects |
| `GasExamples.SameCallCountsTwice` | vmhost/hostCore/execution.go:342-376 | a transaction that fails because a same-context callee, called after something was recorded, is counted twice |
| `GasExamples.NamedGasFails` | vmhost/contexts/output.go:294-314 | a transaction that fails because a transfer names a gas limit nobody pays for |
| `GasExamples.RefundIsLost` | vmhost/contexts/output.go:606-630 | a transaction whose contract is credited 3 for released bytes and whose output, after a call that succeeds, has refund 0 |
| `StorageCache.ReadStorageRefines` | vmhost/contexts/storage.go:95-112 | a read returns the cell of the flat (address, key) map and changes no cell |
| `StorageCache.ReadStorageFromAddressRefines` | vmhost/contexts/storage.go:115-154 | a read of another account returns its cell if readable, else nothing, and changes no cell; protected keys agree with the node |
| `StorageCache.WriteStorageRefines` | vmhost/contexts/storage.go:204-292 | exactly one cell changes, or none (read-only, reserved or protected key); errors exactly when refused and not read-only; the status classifies old and new value |
| `StorageCache.WriteProtectedStorageRefines` | vmhost/contexts/storage.go:196-201 | the protected write reaches VM keys but no protocol key, and the protection is on afterwards on every exit |
| `StorageCache.PriceIsOfBytes` | vmhost/contexts/storage.go:204-292 | the price of a change is that of the bytes stored, persisted and released; gas is freed exactly when bytes are released |
| `StorageCache.WriteCharges` | vmhost/contexts/storage.go:204-292 | the points and the refund after a write: nothing for a key that may not be written, the copied bytes for an equal value, else the bytes stored and persisted, with the released bytes added to the refund, in saturating arithmetic |
| `StorageCache.RunAccountsBytes` | vmhost/contexts/storage.go:204-292 | over every run of writes, gas used and refund credited are the prices of bytes stored, persisted, copied and released (as far as the counters can hold them), and bytes stored minus bytes released is the change in total stored length |
| `StorageCache.ReadCharges` | vmhost/contexts/storage.go:95-112 | a read costs the bytes of the key beyond 32 and of the value, at the price of copied bytes |
| `StorageCache.ReadFromAddressCharges` | vmhost/contexts/storage.go:115-154 | the same for a read of another account, permitted or not |
| `AsyncCalls.AsyncGasSplit` | vmhost/contexts/runtime.go:742-774 | gas left is exactly step + lock + limit with limit > 0; it fails exactly when nothing would be left; the lock is code size times compile price plus step plus minimal execution, or 0 without a callback |
| `AsyncCalls.LockIsPriced` | vmhost/contexts/metering.go:312-333 | the lock is this sum, or the largest uint64 when it does not fit |
| `AsyncCalls.AsyncCallSpendsAll` | vmhost/hostCore/asyncCall.go:214-239 | when the call leaves the shard: gas the contract used + gas it had forwarded before + the transfer's limit + locked gas = gas provided, none is left; the transfer carries the call's value and data |
| `AsyncCalls.TransactionSpendsAll` | vmhost/hostCore/asyncCall.go:214-239 | a direct call whose contract makes any calls and then sends such a call, with an Ok output: the account's GasUsed + what was recorded before the call was sent + limit and locked gas on the last transfer is the gas provided, and GasRemaining is 0 |
| `AsyncHere.CallbackGets` | vmhost/hostCore/asyncCall.go:355-426 | gas provided + step + price of the call data (name, separators, code, data or message) = gas that came back + gas locked, and no callback exactly when nothing would be left; caller, recipient, call type, and the value of the destination's last transfer if it returned nothing else |
| `AsyncHere.AsyncHereUses` | vmhost/hostCore/asyncCall.go:160-204 | the gas of an asynchronous call that runs here: step, lock and what the destination did not send back, then the callback's cost on a counter reset to 0, plus what the contract had spent itself exactly if both succeeded |
| `AsyncHere.ReportedInput` | vmhost/hostCore/asyncCall.go:428-447 | the gas provided in the contract's input is set to 0 exactly when the callback was reported |
| `AsyncHere.LockAfterCall` | vmhost/contexts/metering.go:312-333 | after a call to a contract that makes none, the lock is priced with the callee's code size |
| `AsyncGasShares.AsyncContextInfo.SetupAsyncCallsGas` | vmhost/hostCore/asyncCall.go:765-809 | in any iteration order: fails exactly when requests exceed gas left, or a call asks for zero and nothing is left over; else explicit requests are honoured and zero requests get equal shares |
| `AsyncGasShares.TotalOfShared` | vmhost/hostCore/asyncCall.go:765-809 | the limits add up to the explicit requests plus the share times the zero requests |
| `AsyncGasShares.SharesAddUp` | vmhost/hostCore/asyncCall.go:765-809 | the sum of limits is at most the gas left, and short of it by less than the number of zero requests when there are any |
| `ActiveState.TransfersConcatenate` | vmhost/contexts/output.go:583-604 | each account's transfers become left followed by right, none twice, and its delta the sum, whether or not the account existed on the left |
| `ActiveState.TotalsAdd` | vmhost/contexts/output.go:583-604 | total balance delta and gas refund become the sums of both sides; logs and return data are concatenated |
| `ActiveState.FieldsOfAdded` | vmhost/contexts/output.go:632-672 | all other fields of an account after AddToActiveState: storage key by key, balance, nonce, code, and the gas used, which is the right one's alone |
| `ActiveState.ReportOfAdded` | vmhost/contexts/output.go:606-630 | return code and message of the right output replace those of the left |
| `ActiveState.AddToActiveState` | vmhost/contexts/output.go:583-604 | on the heap, adding in place to amounts the right output owns and then merging by reference computes that sum, and no saved state notices |
| `BigIntObjects.FreeHandle` | vmhost/contexts/bigint.go:72-84 | the probing ends within one probe more than there are values, at an unused handle, in wrapping 32-bit arithmetic |
| `BigIntObjects.BigIntContext.Put` | vmhost/contexts/bigint.go:72-84 | an unused handle gets a new cell; every other handle keeps its cell |
| `BigIntObjects.BigIntContext.GetOne` | vmhost/contexts/bigint.go:87-93 | the cell itself is returned; a missing handle first gets a new 0 |
| `BigIntObjects.BigIntContext.Clone` | vmhost/contexts/bigint.go:63-69 | new cells with the same numbers |
| `BigIntObjects.BigIntContext.PushState` | vmhost/contexts/bigint.go:30-33 | the saved cells are new, so no cell is reachable from two frames |
| `BigIntObjects.BigIntContext.PopSetActiveState` | vmhost/contexts/bigint.go:36-46 | the last saved numbers come back; nothing happens on an empty stack |
| `BigIntObjects.BigIntContext.PopDiscard` | vmhost/contexts/bigint.go:49-56 | the last saved numbers are dropped |
| `BigIntObjects.BigIntContext.PushUsePop` | vmhost/contexts/bigint.go:30-46 | whatever is put or written through references between push and pop, the pop restores exactly the pushed numbers |
| `OutputObjects.MergeStorageUpdates` | vmhost/contexts/output.go:674-684 | in any iteration order: right updates win |
| `OutputObjects.MergeOutputAccounts` | vmhost/contexts/output.go:632-672 | amounts are taken over by reference; the resulting account is the merge of the two values |
| `OutputObjects.MergeVMOutputs` | vmhost/contexts/output.go:606-630 | in any iteration order the left output becomes the merge of the two values, with new accounts only, and the right output is unchanged |
| `OutputObjects.GetCurrentTotalUsedGas` | vmhost/contexts/output.go:414-430 | saturating addition in any order gives the exact total, clamped; the flag says whether a transfer locks gas |
| `OutputObjects.OutputContext.PushState` | vmhost/contexts/output.go:71-75 | the snapshot shares amounts but no account with the state in use |
| `OutputObjects.OutputContext.PopSetActiveState` | vmhost/contexts/output.go:78-87 | the last saved state is in use again; the others are untouched |
| `OutputObjects.OutputContext.PopMergeActiveState` | vmhost/contexts/output.go:94-106 | the state becomes the merge of saved and current, in new objects; other saved states do not notice |
| `OutputObjects.OutputContext.PopDiscard` | vmhost/contexts/output.go:110-117 | the last saved state is dropped |
| `OutputObjects.OutputContext.CensorVMOutput` | vmhost/contexts/output.go:128-137 | only the state in use loses its return data, logs, code, gas and refund |
| `OutputObjects.OutputContext.GetOutputAccount` | vmhost/contexts/output.go:156-166 | the account under the address, new exactly when there was none |
| `OutputObjects.OutputContext.GetBalanceBigInt` | vmhost/contexts/blockchain.go:67-92 | cached or node balance plus delta; 0 for an unknown account |
| `OutputObjects.OutputContext.TransferValueOnly` | vmhost/contexts/output.go:255-289 | the state as the transfer on values leaves it; saved states sharing the old amounts are unchanged |
| `OutputObjects.OutputContext.Transfer` | vmhost/contexts/output.go:294-314 | the same with the output transfer appended |
| `OutputObjects.OutputContext.AddTxValueToAccount` | vmhost/contexts/output.go:408-411 | the delta grows in a new amount |
| `OutputObjects.OutputContext.RemoveNonUpdatedCode` | vmhost/contexts/output.go:535-544 | code is dropped from exactly the accounts without a code update |
| `OutputObjects.OutputContext.CheckGas` | vmhost/contexts/output.go:472-496 | passes exactly when the gas recorded since the frame began fits the gas provided |
| `OutputObjects.OutputContext.CreateVMOutputInCaseOfError` | vmhost/contexts/output.go:510-533 | an output without accounts, logs or data, with the code of the error and the message already set or its text |
| `OutputObjects.OutputContext.GetVMOutput` | vmhost/contexts/output.go:433-459 | gas is recorded, unchanged code dropped, and the state itself or an error output returned |
| `OutputRuns.RunOneKeeps` | vmhost/contexts/output.go:78-87 | over every nesting of frames, saved states stay as they are and an undone frame leaves the snapshot |
| `OutputRuns.PerformAll` | vmhost/contexts/output.go:71-75 | any run of transfers, reads and nested frames on shared amounts computes the run on values: sharing is never observed |
| `MachineContexts.RuntimeContext.PushState` | vmhost/contexts/runtime.go:322-339 | fields and running instance go on their stacks |
| `MachineContexts.RuntimeContext.PopSetActiveState` | vmhost/contexts/runtime.go:343-359 | fields come back, then the instance |
| `MachineContexts.RuntimeContext.PopInstance` | vmhost/contexts/runtime.go:384-405 | the running instance is cleaned unless it is the one below |
| `MachineContexts.RuntimeContext.CleanWasmerInstance` | vmhost/contexts/runtime.go:692-701 | the running instance is cleaned once and forgotten |
| `MachineContexts.RuntimeContext.StartWasmerInstance` | vmhost/contexts/runtime.go:117-137 | refused when the instance stack is at the limit; a failed build or hash leaves no running instance |
| `MachineContexts.RuntimeContext.SetPointsUsed` | vmhost/contexts/runtime.go:669-674 | points are clamped to the largest int64 |
| `MachineContexts.RuntimeContext.IsContractOnTheStack` | vmhost/contexts/runtime.go:705-712 | true exactly when some saved frame has the address |
| `MachineContexts.MeteringContext.PushState` | vmhost/contexts/metering.go:67-75 | the gas triple goes on the stack |
| `MachineContexts.MeteringContext.PopSetActiveState` | vmhost/contexts/metering.go:79-91 | the gas triple comes back |
| `MachineContexts.MeteringContext.InitStateFromContractCallInput` | vmhost/contexts/metering.go:110-115 | a callback's locked gas is unlocked, in the caller's input too |
| `MachineContexts.MeteringContext.DeductInitialGas` | vmhost/contexts/metering.go:380-397 | fails exactly when the cost exceeds the gas provided; else cost plus gas for execution is the gas provided |
| `MachineContexts.StorageContext.PopSetActiveState` | vmhost/contexts/storage.go:55-65 | the caller's address comes back |
| `HostObjects.VMHost.UseGas` | vmhost/contexts/metering.go:146-149 | points used grow, saturating; no other context changes |
| `HostObjects.VMHost.RestoreGas` | vmhost/contexts/metering.go:152-158 | points used shrink when they cover the gas |
| `HostObjects.VMHost.ForwardGas` | vmhost/contexts/metering.go:179-193 | forwarded gas is recorded, and returned gas too when the destination is the source or on the stack |
| `HostObjects.VMHost.GetStorage` | vmhost/contexts/storage.go:95-112 | the metered read on the objects is the read on values |
| `HostObjects.VMHost.GetStorageFromAddress` | vmhost/contexts/storage.go:115-154 | the metered read of another account on the objects is the read on values |
| `HostObjects.VMHost.SetStorage` | vmhost/contexts/storage.go:204-292 | the write on the objects is the write on values: same cell, price, status and error |
| `HostObjects.VMHost.SetProtectedStorage` | vmhost/contexts/storage.go:196-201 | the protected write on the objects is the one on values |
| `HostObjects.VMHost.ExecuteAsyncCall` | vmhost/contexts/runtime.go:742-774 | gas is used and locked, and the call registered, as on values |
| `HostObjects.VMHost.SendAsyncCallToDestination` | vmhost/hostCore/asyncCall.go:214-239 | the transfer, the forwarded gas and the points used are those on values |
| `HostObjects.VMHost.AnswerText` | vmhost/hostCore/asyncCall.go:242-272 | the loop over the return data builds the text of the answer |
| `HostObjects.VMHost.SendCallbackToCaller` | vmhost/hostCore/asyncCall.go:242-272 | the answer carries the return data and all gas left |
| `HostObjects.VMHost.RunCallback` | vmhost/hostCore/asyncCall.go:160-204 | the callback input is read off the callee's output object; the result is the callback on values |
| `HostObjects.VMHost.RunAsync` | vmhost/hostCore/asyncCall.go:18-71 | sent away or run here, the objects end as the values do |
| `HostObjects.VMHost.FinishDest` | vmhost/hostCore/execution.go:255-297 | contexts popped, gas returned and forwarded, output merged or dropped; the returned output object still shows what it was handed out with |
| `HostObjects.VMHost.FinishSame` | vmhost/hostCore/execution.go:342-376 | undone, or kept and settled, as on values |
| `HostObjects.VMHost.ExecuteCall` | vmhost/hostCore/execution.go:545-595 | prepares and runs the callee's body, and stops it over its limit or without an Ok code |
| `HostObjects.VMHost.ExecuteOnDestContext` | vmhost/hostCore/execution.go:203-253 | over every script, pushes, pops and merges on shared objects give the host, output and error of the call on values; saved objects are untouched and only new ones taken over |
| `HostObjects.VMHost.ExecuteOnSameContext` | vmhost/hostCore/execution.go:301-340 | the same for calls in the caller's context |
| `HostObjects.VMHost.RunSmartContractCall` | vmhost/hostCore/execution.go:133-182 | the whole transaction on objects is the one on values; stacks end empty, deltas sum to the call value, and gas is conserved when no address repeats |
| `JsonParsing.StepKeeps` | scenarios/orderedjson/ojParse.go:44-181 | every inner step keeps the automaton's invariant, reaches no internal error, and lowers the number of inner steps still possible |
| `JsonParsing.Consume` | scenarios/orderedjson/ojParse.go:44-181 | one byte, in as many inner steps as it takes, ends in no internal error and keeps the invariant |
| `JsonParsing.Parse` | scenarios/orderedjson/ojParse.go:39-200 | on every input no internal-error branch is reached, and an accepted tree is printable |
| `JsonParsesGrammar.FeedValue` | scenarios/orderedjson/ojParse.go:39-198 | feeding any value of the grammar, on any stack, completes exactly its tree |
| `JsonParsesGrammar.DocumentParses` | scenarios/orderedjson/ojParse.go:39-198 | completeness: every text of RFC 8259 made of objects, arrays, strings and booleans, with any white space around its tokens, is accepted as its tree (of equal keys the first counts), except a boolean with nothing after it; strings must not hold an unescaped quote or end in a backslash |
| `JsonParsesGrammar.SkipsByte` | scenarios/orderedjson/ojParse.go:108-125 | after an item of a list the parser stays as it is on exactly the bytes other than `]` and `,` |
| `JsonLanguage.StepFollows` | scenarios/orderedjson/ojParse.go:39-198 | every inner step extends a derivation of the text read so far |
| `JsonLanguage.ExactLanguage` | scenarios/orderedjson/ojParse.go:39-200 | a text is accepted as a tree if and only if the lenient grammar derives it for that tree: RFC 8259 plus text after array items, one comma before a first member, and raw strings |
| `JsonLanguage.OneTree` | scenarios/orderedjson/ojParse.go:39-200 | the lenient grammar is unambiguous: a text stands for one tree |
| `JsonRoundTrip.ParseUndoesPrint` | scenarios/orderedjson/ojParse.go:39-200 | parsing the printed text returns the tree, order included, if and only if keys are distinct per map and every quote in keys and strings follows a backslash and none ends in one |
| `JsonRoundTrip.ReparseIsStable` | scenarios/orderedjson/ojParse.go:39-200 | printing the tree of any accepted input and parsing again gives the same tree |
| `JsonRoundTrip.ParseUndoesText` | scenarios/orderedjson/ojParse.go:39-198 | without the final newline the round trip holds exactly for printable trees that are not a boolean |
| `JsonRoundTrip.BooleanNeedsNewline` | scenarios/orderedjson/ojParse.go:39-198 | `true` is refused, `true` and a newline is accepted |
| `JsonRoundTrip.MissingCommaIsAccepted` | scenarios/orderedjson/ojParse.go:108-125 | a list of two strings without a comma is accepted as the list of the first |
| `JsonRoundTrip.LeadingCommaIsAccepted` | scenarios/orderedjson/ojParse.go:126-150 | an object with a comma before its first member is accepted |
| `JsonRoundTrip.EscapedBackslashIsRefused` | scenarios/orderedjson/ojParse.go:90-100 | a string that is an escaped backslash, valid by section 7 of RFC 8259, is refused |
| `JsonCode.Builder.WriteMap` | scenarios/orderedjson/ojToJson.go:22-45 | the builder gains exactly the text of the map |
| `JsonCode.Builder.WriteList` | scenarios/orderedjson/ojToJson.go:47-66 | the builder gains exactly the text of the list |
| `JsonCode.Print` | scenarios/orderedjson/ojToJson.go:9-14 | the text of the tree and a newline |
| `JsonCode.OJsonMap.Put` | scenarios/orderedjson/ojModel.go:44-51 | a key not in the key set is appended; an existing key is left alone |
| `JsonCode.OJsonMap.RefreshKeySet` | scenarios/orderedjson/ojModel.go:59-64 | the key set becomes exactly the keys of the pairs |
| `JsonCode.JsonParser.ConsumeByte` | scenarios/orderedjson/ojParse.go:44-181 | one byte on the parser object is one byte of the automaton, in one to three inner steps |
| `JsonCode.JsonParser.FinishValue` | scenarios/orderedjson/ojParse.go:202-217 | a finished text becomes a string or boolean, or is refused |
| `JsonCode.ParseOrderedJSON` | scenarios/orderedjson/ojParse.go:39-200 | the loop computes the automaton's result on every input; every peek, pop and look-back is in range |
| `Dialogue.Messenger.Send` | ipc/common/messenger.go:40-46 | the nonce advances, wrapping, and stamps the message |
| `Dialogue.Messenger.Receive` | ipc/common/messenger.go:49-64 | accepted exactly when the stamp is the next nonce; the nonce becomes the stamp |
| `Dialogue.Messenger.ResetDialogue` | ipc/common/messenger.go:72-74 | the nonce is 0 |
| `Dialogue.StepKeepsInv` | ipc/vmpart/part.go:75-95 | every enabled step of either process keeps the phase invariant |
| `Dialogue.RunKeepsInv` | ipc/nodepart/part.go:93-131 | the invariant holds in every state of every interleaving |
| `Dialogue.DialogueSafety` | ipc/nodepart/part.go:73-88 | in every run: at most one message in flight, no invalid nonce (wrap included), each response answers its request, and when StartLoop returns both pipes are empty, the node nonce is 0 and the VM nonce 0 or one reset away |
| `Dialogue.NoDeadlock` | ipc/nodepart/part.go:93-131 | while a dialogue runs, some step other than a new request is enabled |
| `Dialogue.NonceRefuses` | ipc/common/messenger.go:49-64 | a peer in step is accepted; the message accepted last, or one after a lost message, is refused |
| `Dialogue.DialogueCompletes` | ipc/nodepart/part.go:93-131 | from every state at rest, a request with any number of hook calls, even past the wrap of the nonces, can be completed: the node gets its response, is told whether the request was known, and both sides are ready again |
| `Dialogue.Session.NodeStartLoop` | ipc/nodepart/part.go:73-88 | the code's step on messengers and pipes is the step of the state machine |
| `Dialogue.Session.NodeDoLoop` | ipc/nodepart/part.go:93-131 | receiving a hook call or the response is the node's receive step |
| `Dialogue.Session.NodeEndLoop` | ipc/nodepart/part.go:73-88 | the end of the loop resets the node's nonce: the node's closing step |
| `Dialogue.Session.NodeReplyToHookCall` | ipc/nodepart/part.go:133-140 | the reply is the node's reply step |
| `Dialogue.Session.VMReceiveNodeRequest` | ipc/vmpart/messenger.go:23-30 | the VM's receive step |
| `Dialogue.Session.VMSendHookCall` | ipc/vmpart/messenger.go:45-59 | the sending half of a hook call |
| `Dialogue.Session.VMReceiveHookResponse` | ipc/vmpart/messenger.go:45-59 | the receiving half of a hook call |
| `Dialogue.Session.VMSendResponse` | ipc/vmpart/messenger.go:33-42 | the VM's answer step |
| `Dialogue.Session.VMResetDialogue` | ipc/vmpart/part.go:75-95 | the VM's reset step |
| `LinearMemory.Memory.MemLoad` | vmhost/contexts/runtime.go:829-859 | every error case, and the range zero-padded past the end, unless both memory and range pass 2^31-1, where the load is cut off |
| `LinearMemory.Memory.MemLoadMultiple` | vmhost/contexts/runtime.go:862-880 | succeeds exactly when every slice can be loaded where the lengths before it, added in 32-bit arithmetic, lead, and returns these slices; over a range inside the memory that ends by 2^31-1 the slices join up to it; past it, a further slice fails, or the bytes beyond read as zeros |
| `LinearMemory.Memory.MemStore` | vmhost/contexts/runtime.go:883-917 | for data of any length: exactly when it succeeds, grows a page, and fails with which error; on success exactly the range up to 2^31-1 changes |
| `LinearMemory.Memory.StoreThenLoad` | vmhost/contexts/runtime.go:883-917 | a successful store followed by a load returns the data if the range ends by 2^31-1, else the data up to there and zeros; other bytes are unchanged |
| `LinearMemory.TruncatedStore` | vmhost/contexts/runtime.go:883-917 | a store of two bytes at offset 2^31-2, of which the second is lost |
| `Leb128.DecodeUndoesEncode` | vmhost/helpers.go:99-112 | the unsigned decoder of section 5.2.2 of WebAssembly Core 1.0 returns the number and what follows it |
| `Leb128.OnlyLastByteEnds` | vmhost/helpers.go:99-112 | exactly the last byte lacks the continuation bit |
| `Leb128.EncodingIsShortest` | vmhost/helpers.go:99-112 | no byte string that decodes to the number is shorter |
| `Leb128.U64ToLEB128` | vmhost/helpers.go:99-112 | the loop yields that encoding, of at most 10 bytes, and decoding it gives the input |

## Left out

- Built-in functions and token (DCDT) transfers: their behaviour is in other packages; only the
  output they hand to `AddToActiveState` is covered, as an arbitrary output.
- Contract creation, deployment and upgrade, including `CreateNewContract`, which deletes an output
  account outright when it fails.
- `processAsyncInfo`, `processCallbackStack`, `getPendingAsyncCalls` and the stored maps of pending
  asynchronous calls: the gas they are given is covered by `AsyncGasShares`, nothing else.
- Transactions that are themselves asynchronous callbacks.
- Gas equality for trees in which a contract is called again after it has ended: what was recorded for
  it is overwritten (`Recursion.DestCallRecords`), so the source's totals do not add up. A contract that
  calls others and is called back by them is covered for one level by `RecursiveTransaction`.
- Gas equality for trees with asynchronous calls that run in the same shard; rollback, value and
  instances are proved for them.
- Actions that set read-only mode (vmhost/vmhooks/baseOps.go:2353-2355; reads and writes in that mode
  are modelled), call in the name of the caller's caller (`executeOnDestContextByCaller`), or read a
  balance, a nonce or block data.
- Configurations with an epoch flag off, and warm instances.
- Wasm execution: an instance is its points and how often it was cleaned; how starting it turns out
  is part of the script. A body over its gas limit is stopped, as the instance's metering does. The
  model also stops a body that is over its limit after an asynchronous call that ran in this shard;
  there the source charges points itself and checks the limit in the root only (`checkFinalGasAfterExit`).
- The node's state is fixed while a transaction runs; payability, code, storage and readability are
  tables with an explicit missing case.
- Transaction hashes, call arguments, nonces beyond their merge, deleted and touched accounts.
- Storage updates are values in an account's map: the source's update objects are never written
  after they are made, so sharing them cannot be observed.
- Timeouts, crashes, the stop request and message encoding of the pipes.
- JSON trees with missing children; bytes are characters; the parser's states are values on its
  stack.
- Panics caught at the top level, and `ResetGas`.
- BigIntObjects.BigIntContext.Put: requires fewer than 2^32 values, since with every handle in use
  the source never returns.
- ActiveState.AddToActiveState: requires that nothing else refers to the deltas and the refund of the
  right output, since the source adds to them in place; its cached balances may be shared.
