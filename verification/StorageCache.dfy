/** The storage cache in the output accounts refines one flat map of cells. */
module StorageCache {
  import opened Overflow
  import opened Wrappers
  import opened Types
  import opened FiniteSums
  import opened OutputModel
  import opened HostModel
  import opened OutputGrowth

  /** The cell a contract sees: the cached entry if there is one, else the node's value. */
  function Cell(env: Env, o: VMOutput, a: Address, key: Bytes): Bytes {
    if a in o.accounts && key in o.accounts[a].storage then o.accounts[a].storage[key] else HookStorage(env, a, key)
  }

  ghost predicate SameCells(env: Env, o: VMOutput, p: VMOutput) {
    forall a, key :: Cell(env, p, a, key) == Cell(env, o, a, key)
  }

  /** Every cell but one is unchanged. */
  ghost predicate SameCellsBut(env: Env, o: VMOutput, p: VMOutput, b: Address, k: Bytes) {
    forall a, key :: (a, key) != (b, k) ==> Cell(env, p, a, key) == Cell(env, o, a, key)
  }

  lemma CachedReadRefines(env: Env, o: VMOutput, a: Address, key: Bytes)
    ensures var (p, v) := CachedRead(env, o, a, key);
      v == Cell(env, o, a, key) && SameCells(env, o, p) && a in p.accounts
  {
  }

  /** Reading returns the cell and leaves every cell as it was. */
  lemma ReadStorageRefines(env: Env, h: Host, key: Bytes)
    ensures var (k, v) := ReadStorage(env, h, key);
      && v == Cell(env, h.output.state, h.storage.address, key)
      && SameCells(env, h.output.state, k.output.state)
  {
    CachedReadRefines(env, h.output.state, h.storage.address, key);
  }

  /** Reading another account's cell needs its permission; a key protected by the protocol is
      read from the node, which agrees with the cell as long as the cache is sound. */
  lemma ReadStorageFromAddressRefines(env: Env, h: Host, a: Address, key: Bytes)
    requires Sound(env, h.output.state)
    ensures var (k, v) := ReadStorageFromAddress(env, h, a, key);
      && SameCells(env, h.output.state, k.output.state)
      && v == if a == h.storage.address || (a in env.accounts && env.accounts[a].readable)
              then Cell(env, h.output.state, a, key) else ""
  {
    CachedReadRefines(env, h.output.state, a, key);
    if a in h.output.state.accounts {
      assert AccountSound(env, a, h.output.state.accounts[a]);
    }
  }

  /** When SetStorage writes at all. */
  predicate Writable(env: Env, h: Host, key: Bytes) {
    && !h.runtime.state.readOnly
    && !HasPrefix(key, env.protectedKeyPrefix)
    && !(HasPrefix(key, PROTECTED_STORAGE_PREFIX) && h.storage.protectionEnabled)
  }

  function StatusOf(before: Bytes, after: Bytes): StorageStatus {
    if before == after then StorageUnchanged
    else if before == "" then StorageAdded
    else if after == "" then StorageDeleted
    else StorageModified
  }

  /** SetStorage changes exactly one cell, or none when the key may not be written; its status
      says how the old and the new value differ. */
  lemma WriteStorageRefines(env: Env, h: Host, key: Bytes, value: Bytes)
    ensures var (k, status, err) := WriteStorage(env, h, key, value);
      var a := h.storage.address;
      && (!Writable(env, h, key) ==> k == h && status == StorageUnchanged)
      && (err.Some? <==> !h.runtime.state.readOnly && !Writable(env, h, key))
      && (err.Some? ==> err.value == if HasPrefix(key, env.protectedKeyPrefix) then ErrStoreReservedKey
                                     else ErrCannotWriteProtectedKey)
      && (Writable(env, h, key) ==>
            && Cell(env, k.output.state, a, key) == value
            && SameCellsBut(env, h.output.state, k.output.state, a, key)
            && status == StatusOf(Cell(env, h.output.state, a, key), value))
  {
    hide CachedRead, PriceOfChange, SetPointsUsed, FreeGas;
    if Writable(env, h, key) {
      var a := h.storage.address;
      CachedReadRefines(env, h.output.state, a, key);
      var (o, current) := CachedRead(env, h.output.state, a, key);
      StoreRefines(env, o, a, key, value);
      PriceStatus(env, current, value);
      if current != value {
        var e := PriceOfChange(env, Len(current), Len(value));
        var acc := o.accounts[a];
        FreeGasRefines(SetAccount(o, a, acc.(storage := acc.storage[key := value])), e.freed);
      }
    }
  }

  function WithProtection(h: Host, enabled: bool): Host {
    h.(storage := h.storage.(protectionEnabled := enabled))
  }

  /** SetProtectedStorage: the VM's own protection is off for one write, and on afterwards. */
  function WriteProtectedStorage(env: Env, h: Host, key: Bytes, value: Bytes): (Host, StorageStatus, Option<Error>) {
    var (k, status, err) := WriteStorage(env, WithProtection(h, false), key, value);
    (WithProtection(k, true), status, err)
  }

  /** The protected write reaches keys of the VM, still none of the protocol's, and leaves the
      protection on whether or not it wrote. */
  lemma WriteProtectedStorageRefines(env: Env, h: Host, key: Bytes, value: Bytes)
    ensures var (k, status, err) := WriteProtectedStorage(env, h, key, value);
      var writable := !h.runtime.state.readOnly && !HasPrefix(key, env.protectedKeyPrefix);
      && k.storage.protectionEnabled && k.storage.address == h.storage.address
      && (err.Some? <==> !h.runtime.state.readOnly && !writable)
      && (!writable ==> k == WithProtection(h, true) && status == StorageUnchanged)
      && (writable ==>
            && Cell(env, k.output.state, h.storage.address, key) == value
            && SameCellsBut(env, h.output.state, k.output.state, h.storage.address, key)
            && status == StatusOf(Cell(env, h.output.state, h.storage.address, key), value))
  {
    hide CachedRead, PriceOfChange, FreeGas, UseGasOn, ChargeKey;
    WriteStorageRefines(env, WithProtection(h, false), key, value);
    StorageOfCharge(env, WithProtection(h, false), key, value);
  }

  lemma StorageOfCharge(env: Env, h: Host, key: Bytes, value: Bytes)
    ensures WriteStorage(env, h, key, value).0.storage == h.storage
  {
    hide CachedRead, PriceOfChange, FreeGas;
  }

  lemma StoreRefines(env: Env, o: VMOutput, a: Address, key: Bytes, value: Bytes)
    requires a in o.accounts
    ensures var p := SetAccount(o, a, o.accounts[a].(storage := o.accounts[a].storage[key := value]));
      Cell(env, p, a, key) == value && SameCellsBut(env, o, p, a, key)
  {
  }

  lemma FreeGasRefines(o: VMOutput, freed: Option<uint64>)
    ensures (if freed.Some? then FreeGas(o, freed.value) else o).accounts == o.accounts
  {
  }

  lemma PriceStatus(env: Env, before: Bytes, after: Bytes)
    ensures before != after ==> PriceOfChange(env, Len(before), Len(after)).status == StatusOf(before, after)
  {
  }

  // ---------------------------------------------------------------- bytes paid and released

  /** Bytes priced at StorePerByte, ReleasePerByte, PersistPerByte and DataCopyPerByte. */
  datatype PricedBytes = PricedBytes(stored: nat, released: nat, persisted: nat, copied: nat)

  const NO_BYTES := PricedBytes(0, 0, 0, 0)

  /** The bytes of a value that is replaced by another. */
  function BytesOf(oldLen: nat, newLen: nat): (b: PricedBytes)
    ensures b.stored - b.released == newLen - oldLen
    ensures b.stored <= newLen && b.persisted <= newLen && b.released <= oldLen && b.copied == 0
  {
    if oldLen == 0 then PricedBytes(newLen, 0, 0, 0)
    else if newLen == 0 then PricedBytes(0, oldLen, 0, 0)
    else if newLen > oldLen then PricedBytes(newLen - oldLen, 0, oldLen, 0)
    else if newLen < oldLen then PricedBytes(0, oldLen - newLen, newLen, 0)
    else NO_BYTES
  }

  lemma PriceIsOfBytes(env: Env, oldLen: uint64, newLen: uint64)
    requires oldLen <= MAX_I64 && newLen <= MAX_I64
    ensures var e := PriceOfChange(env, oldLen, newLen);
      var b := BytesOf(oldLen, newLen);
      && e.used == AddUint64(MulUint64(env.gas.persistPerByte, b.persisted), MulUint64(env.gas.storePerByte, b.stored))
      && e.freed == if b.released == 0 then None else Some(MulUint64(env.gas.releasePerByte, b.released))
  {
  }

  /** What SetStorage charges and credits, in the source's saturating operations: nothing for a key
      that may not be written, copying for an unchanged value, and otherwise the bytes stored and
      persisted, with the bytes released credited to the refund. */
  lemma WriteCharges(env: Env, h: Host, key: Bytes, value: Bytes)
    ensures var before := Cell(env, h.output.state, h.storage.address, key);
      var k := WriteStorage(env, h, key, value).0;
      var b := BytesOf(Len(before), Len(value));
      var charged := ChargeKey(env, h, key);
      && (!Writable(env, h, key) ==> k == h)
      && (Writable(env, h, key) && before == value ==>
            && k.runtime == UseGasOn(charged, MulUint64(env.gas.dataCopyPerByte, Len(value))).runtime
            && k.output.state.gasRefund == h.output.state.gasRefund)
      && (Writable(env, h, key) && before != value ==>
            && k.runtime == UseGasOn(charged, AddUint64(MulUint64(env.gas.persistPerByte, b.persisted),
                                                        MulUint64(env.gas.storePerByte, b.stored))).runtime
            && k.output.state.gasRefund
               == if b.released == 0 then h.output.state.gasRefund
                  else FreeGas(h.output.state, MulUint64(env.gas.releasePerByte, b.released)).gasRefund)
  {
    hide PriceOfChange, MulUint64, SetPointsUsed, BytesOf;
    if Writable(env, h, key) {
      CachedReadRefines(env, h.output.state, h.storage.address, key);
      PriceIsOfBytes(env, Len(Cell(env, h.output.state, h.storage.address, key)), Len(value));
    }
  }

  // ---------------------------------------------------------------- runs of writes

  datatype Write = Write(address: Address, key: Bytes, value: Bytes)

  function OnAddress(h: Host, a: Address): Host {
    h.(storage := h.storage.(address := a))
  }

  function Perform(env: Env, h: Host, w: Write): Host {
    WriteStorage(env, OnAddress(h, w.address), w.key, w.value).0
  }

  /** The part of a key beyond the length of an address is paid for like copied data. */
  function LongKey(key: Bytes): nat {
    if |key| > ADDRESS_LEN then Len(key[ADDRESS_LEN..]) else 0
  }

  function BytesOfWrite(env: Env, h: Host, w: Write): PricedBytes {
    var before := Cell(env, h.output.state, w.address, w.key);
    if !Writable(env, h, w.key) then NO_BYTES
    else if before == w.value then NO_BYTES.(copied := LongKey(w.key) + Len(w.value))
    else BytesOf(Len(before), Len(w.value)).(copied := LongKey(w.key))
  }

  function AddBytes(b: PricedBytes, c: PricedBytes): PricedBytes {
    PricedBytes(b.stored + c.stored, b.released + c.released, b.persisted + c.persisted, b.copied + c.copied)
  }

  /** A run of writes, and the bytes of all of them. */
  function RunWrites(env: Env, h: Host, ws: seq<Write>): (Host, PricedBytes)
    decreases |ws|
  {
    if ws == [] then (h, NO_BYTES) else
      var (k, c) := RunWrites(env, Perform(env, h, ws[0]), ws[1..]);
      (k, AddBytes(BytesOfWrite(env, h, ws[0]), c))
  }

  /** So many bytes at a price, however large. */
  function Price(perByte: uint64, bytes: nat): nat {
    NonNegative(perByte, bytes);
    perByte * bytes
  }

  lemma PricesAdd(perByte: uint64, b: nat, c: nat)
    ensures Price(perByte, b + c) == Price(perByte, b) + Price(perByte, c)
  {
  }

  /** The source's saturating product counts as the true one. */
  lemma PriceCounts(perByte: uint64, bytes: uint64)
    ensures CountsAs(MulUint64(perByte, bytes), Price(perByte, bytes))
  {
  }

  /** The same amount, or one that is just as much too large. */
  predicate CountsAs(gas: uint64, price: nat) {
    gas == price || (gas > MAX_I64 && price > MAX_I64)
  }

  /** The price of bytes stored, persisted and copied. */
  function CostOf(env: Env, b: PricedBytes): nat {
    Price(env.gas.storePerByte, b.stored) + Price(env.gas.persistPerByte, b.persisted)
    + Price(env.gas.dataCopyPerByte, b.copied)
  }

  /** A host with an instance to charge. */
  predicate Chargeable(h: Host) {
    && h.runtime.instance.Some? && h.runtime.instance.value < |h.runtime.instances|
    && PointsUsed(h.runtime) <= MAX_I64
  }

  /** The counter of points stops at the largest int64. */
  function Counted(points: nat): uint64 {
    if points > MAX_I64 then MAX_I64 else points
  }

  /** Between h and k this much gas was used. */
  predicate Used(h: Host, k: Host, gas: nat) {
    PointsUsed(k.runtime) == Counted(PointsUsed(h.runtime) + gas)
  }

  lemma UseGasAdds(h: Host, gas: uint64)
    requires Chargeable(h)
    ensures Chargeable(UseGasOn(h, gas)) && Used(h, UseGasOn(h, gas), gas)
  {
  }

  lemma ChargeKeyAdds(env: Env, h: Host, key: Bytes)
    requires Chargeable(h)
    ensures var k := ChargeKey(env, h, key);
      Chargeable(k) && Used(h, k, Price(env.gas.dataCopyPerByte, LongKey(key)))
  {
    hide SetPointsUsed, PointsUsed;
    if |key| > ADDRESS_LEN {
      UseGasAdds(h, MulUint64(env.gas.dataCopyPerByte, LongKey(key)));
      PriceCounts(env.gas.dataCopyPerByte, LongKey(key));
    }
  }

  lemma NonNegative(a: nat, b: nat)
    ensures a * b >= 0
  {
  }

  lemma CostsAdd(env: Env, b: PricedBytes, c: PricedBytes)
    ensures CostOf(env, AddBytes(b, c)) == CostOf(env, b) + CostOf(env, c)
    ensures CostOf(env, b) >= 0 && CostOf(env, c) >= 0
  {
    PricesAdd(env.gas.storePerByte, b.stored, c.stored);
    PricesAdd(env.gas.persistPerByte, b.persisted, c.persisted);
    PricesAdd(env.gas.dataCopyPerByte, b.copied, c.copied);
  }

  /** Gas used after gas used: a saturating price counts as the true one as long as that fits. */
  lemma UsesAfter(h: Host, charged: Host, k: Host, first: nat, gas: uint64, second: nat)
    requires Chargeable(charged) && Used(h, charged, first)
    requires k.runtime == UseGasOn(charged, gas).runtime && CountsAs(gas, second)
    ensures Chargeable(k) && Used(h, k, first + second)
  {
    UseGasAdds(charged, gas);
  }

  /** The price of a change in the source's saturating operations. */
  lemma ChangePrice(env: Env, persisted: uint64, stored: uint64)
    ensures var price := Price(env.gas.persistPerByte, persisted) + Price(env.gas.storePerByte, stored);
      && price >= 0
      && CountsAs(AddUint64(MulUint64(env.gas.persistPerByte, persisted), MulUint64(env.gas.storePerByte, stored)),
                  price)
  {
  }

  /** Each write is charged the price of its bytes. */
  lemma PerformCharges(env: Env, h: Host, w: Write)
    requires Chargeable(h)
    ensures var k := Perform(env, h, w);
      Chargeable(k) && Used(h, k, CostOf(env, BytesOfWrite(env, h, w)))
  {
    hide WriteStorage, ChargeKey, BytesOf, Cell, UseGasOn, Chargeable, Used, MulUint64, AddUint64, FreeGas;
    var h1 := OnAddress(h, w.address);
    SameRuntime(h, h1);
    var before := Cell(env, h.output.state, w.address, w.key);
    var k := Perform(env, h, w);
    WriteCharges(env, h1, w.key, w.value);
    ChargeKeyAdds(env, h1, w.key);
    var charged := ChargeKey(env, h1, w.key);
    var first := Price(env.gas.dataCopyPerByte, LongKey(w.key));
    if !Writable(env, h, w.key) {
      NothingUsed(h, k);
    } else if before == w.value {
      PricesAdd(env.gas.dataCopyPerByte, LongKey(w.key), Len(w.value));
      UsesAfter(h1, charged, k, first, MulUint64(env.gas.dataCopyPerByte, Len(w.value)),
                Price(env.gas.dataCopyPerByte, Len(w.value)));
    } else {
      var b := BytesOf(Len(before), Len(w.value));
      ChangePrice(env, b.persisted, b.stored);
      UsesAfter(h1, charged, k, first,
                AddUint64(MulUint64(env.gas.persistPerByte, b.persisted), MulUint64(env.gas.storePerByte, b.stored)),
                Price(env.gas.persistPerByte, b.persisted) + Price(env.gas.storePerByte, b.stored));
    }
  }

  lemma NothingUsed(h: Host, k: Host)
    requires Chargeable(h) && k.runtime == h.runtime
    ensures Used(h, k, 0) && Chargeable(k)
  {
  }

  lemma SameRuntime(h: Host, k: Host)
    requires k.runtime == h.runtime
    ensures Chargeable(h) <==> Chargeable(k)
    ensures forall l, gas: nat :: Used(h, l, gas) <==> Used(k, l, gas)
  {
  }

  /** Gas on top of the refund, unless it is too much for the counter. */
  predicate Credited(h: Host, k: Host, gas: nat) {
    && h.output.state.gasRefund.Some? && k.output.state.gasRefund.Some?
    && var refund := h.output.state.gasRefund.value;
       0 <= refund && refund + gas <= MAX_I64 ==> k.output.state.gasRefund.value == refund + gas
  }

  /** Each write is credited the price of the bytes it releases. */
  lemma PerformCredits(env: Env, h: Host, w: Write)
    requires h.output.state.gasRefund.Some?
    ensures Credited(h, Perform(env, h, w), Price(env.gas.releasePerByte, BytesOfWrite(env, h, w).released))
  {
    hide WriteStorage, ChargeKey, BytesOf, Cell, UseGasOn, FreeGas, MulUint64, Price;
    var h1 := OnAddress(h, w.address);
    WriteCharges(env, h1, w.key, w.value);
    var released := BytesOfWrite(env, h, w).released;
    FreeCredits(h, MulUint64(env.gas.releasePerByte, released), Price(env.gas.releasePerByte, released)) by {
      PriceCounts(env.gas.releasePerByte, released);
    }
    NoPrice(env.gas.releasePerByte);
  }

  lemma NoPrice(perByte: uint64)
    ensures Price(perByte, 0) == 0
  {
  }

  lemma FreeCredits(h: Host, gas: uint64, price: nat)
    requires h.output.state.gasRefund.Some? && CountsAs(gas, price)
    ensures Credited(h, WithOutput(h, FreeGas(h.output.state, gas)), price)
  {
  }

  // ---------------------------------------------------------------- reads

  /** A read pays for the part of the key beyond the length of an address and for the value it returns. */
  lemma ReadCharges(env: Env, h: Host, key: Bytes)
    requires Chargeable(h)
    ensures var (k, v) := ReadStorage(env, h, key);
      Chargeable(k) && Used(h, k, Price(env.gas.dataCopyPerByte, LongKey(key) + Len(v)))
  {
    hide ChargeKey, CachedRead, UseGasOn, Chargeable, Used, LongKey, Price, MulUint64, Len;
    ChargeKeyAdds(env, h, key);
    var h1 := ChargeKey(env, h, key);
    var (o, v) := CachedRead(env, h1.output.state, h1.storage.address, key);
    OutputUsesNothing(h1, o, MulUint64(env.gas.dataCopyPerByte, Len(v)));
    CopyCharges(env, h, h1, LongKey(key), v, ReadStorage(env, h, key).0);
  }

  lemma OutputUsesNothing(h: Host, o: VMOutput, gas: uint64)
    ensures UseGasOn(WithOutput(h, o), gas).runtime == UseGasOn(h, gas).runtime
  {
  }

  /** The same for a read of another account, also where it returns nothing for want of permission. */
  lemma ReadFromAddressCharges(env: Env, h: Host, a: Address, key: Bytes)
    requires Chargeable(h)
    ensures var (k, v) := ReadStorageFromAddress(env, h, a, key);
      Chargeable(k) && Used(h, k, Price(env.gas.dataCopyPerByte, LongKey(key) + Len(v)))
  {
    hide ChargeKey, CachedRead, UseGasOn, Chargeable, Used, LongKey, Price, MulUint64, HookStorage, HasPrefix;
    ChargeKeyAdds(env, h, key);
    var h1 := ChargeKey(env, h, key);
    if a == h1.storage.address || (a in env.accounts && env.accounts[a].readable) {
      var (o, v) := if HasPrefix(key, env.protectedKeyPrefix)
                    then (h1.output.state, HookStorage(env, a, key))
                    else CachedRead(env, h1.output.state, a, key);
      OutputUsesNothing(h1, o, MulUint64(env.gas.dataCopyPerByte, Len(v)));
      CopyCharges(env, h, h1, LongKey(key), v, ReadStorageFromAddress(env, h, a, key).0);
    } else {
      assert LongKey(key) + Len("") == LongKey(key);
    }
  }

  /** Copied bytes on top of other copied bytes. */
  lemma CopyCharges(env: Env, h: Host, charged: Host, bytes: nat, v: Bytes, k: Host)
    requires Chargeable(charged) && Used(h, charged, Price(env.gas.dataCopyPerByte, bytes))
    requires k.runtime == UseGasOn(charged, MulUint64(env.gas.dataCopyPerByte, Len(v))).runtime
    ensures Chargeable(k) && Used(h, k, Price(env.gas.dataCopyPerByte, bytes + Len(v)))
  {
    hide UseGasOn, Chargeable, Used, Price, MulUint64;
    PriceCounts(env.gas.dataCopyPerByte, Len(v));
    PricesAdd(env.gas.dataCopyPerByte, bytes, Len(v));
    UsesAfter(h, charged, k, Price(env.gas.dataCopyPerByte, bytes), MulUint64(env.gas.dataCopyPerByte, Len(v)),
              Price(env.gas.dataCopyPerByte, Len(v)));
  }

  // ---------------------------------------------------------------- stored lengths

  ghost function Lengths(env: Env, o: VMOutput, cells: set<(Address, Bytes)>): map<(Address, Bytes), int> {
    map c | c in cells :: Len(Cell(env, o, c.0, c.1))
  }

  ghost function StoredLength(env: Env, o: VMOutput, cells: set<(Address, Bytes)>): int {
    Sum(Lengths(env, o, cells))
  }

  lemma PerformStores(env: Env, h: Host, w: Write, cells: set<(Address, Bytes)>)
    requires (w.address, w.key) in cells
    ensures var b := BytesOfWrite(env, h, w);
      StoredLength(env, Perform(env, h, w).output.state, cells) - StoredLength(env, h.output.state, cells)
      == b.stored - b.released
  {
    hide Sum, WriteStorage;
    var h1 := OnAddress(h, w.address);
    WriteStorageRefines(env, h1, w.key, w.value);
    var before := Lengths(env, h.output.state, cells);
    var after := Lengths(env, Perform(env, h, w).output.state, cells);
    if Writable(env, h1, w.key) {
      SumUpdate(before, (w.address, w.key), Len(w.value));
      assert after == before[(w.address, w.key) := Len(w.value)];
    }
  }

  /** Byte accounting: over every run of SetStorage, the gas used and the refund credited are the
      prices of some bytes stored, persisted, copied and released (as far as the counters can hold
      them), and the bytes stored minus the bytes released are the change in the total length of the
      stored values. */
  lemma {:induction false} RunAccountsBytes(env: Env, h: Host, ws: seq<Write>, cells: set<(Address, Bytes)>)
    requires Chargeable(h) && h.output.state.gasRefund.Some?
    requires forall i :: 0 <= i < |ws| ==> (ws[i].address, ws[i].key) in cells
    ensures var (k, b) := RunWrites(env, h, ws);
      && Used(h, k, CostOf(env, b))
      && Credited(h, k, Price(env.gas.releasePerByte, b.released))
      && StoredLength(env, k.output.state, cells) - StoredLength(env, h.output.state, cells) == b.stored - b.released
    decreases |ws|
  {
    hide Sum, Perform, BytesOfWrite, CostOf, PointsUsed, Chargeable, StoredLength;
    if ws == [] {
      NothingCosts(env);
      NothingUsed(h, h);
    } else {
      var w := ws[0];
      assert (w.address, w.key) in cells;
      PerformCharges(env, h, w);
      PerformCredits(env, h, w);
      PerformStores(env, h, w, cells);
      var next := Perform(env, h, w);
      RunAccountsBytes(env, next, ws[1..], cells);
      var b, c := BytesOfWrite(env, h, w), RunWrites(env, next, ws[1..]).1;
      CostsAdd(env, b, c);
      PricesAdd(env.gas.releasePerByte, b.released, c.released);
    }
  }

  lemma NothingCosts(env: Env)
    ensures CostOf(env, NO_BYTES) == 0
  {
  }
}
