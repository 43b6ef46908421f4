/** The big integers of a contract, held by reference: handles, snapshots, and their isolation. */
module BigIntObjects {
  import opened Overflow
  import opened HostModel

  class BigInt {
    var number: int

    constructor (number: int)
      ensures this.number == number
    {
      this.number := number;
    }
  }

  type Cells = map<int32, BigInt>

  ghost function Numbers(cells: Cells): map<int32, int>
    reads cells.Values
  {
    map h | h in cells :: cells[h].number
  }

  ghost predicate Injective(cells: Cells) {
    forall g, h :: g in cells && h in cells && g != h ==> cells[g] != cells[h]
  }

  ghost function CellsOf(stack: seq<Cells>): set<BigInt> {
    set i, h | 0 <= i < |stack| && h in stack[i] :: stack[i][h]
  }

  ghost function SavedNumbers(stack: seq<Cells>): seq<map<int32, int>>
    reads CellsOf(stack)
  {
    seq(|stack|, i requires 0 <= i < |stack| reads CellsOf(stack) =>
      assert stack[i].Values <= CellsOf(stack); Numbers(stack[i]))
  }

  // ---------------------------------------------------------------- counting handles

  lemma {:induction false} SubsetSize(a: set<int32>, b: set<int32>)
    requires a <= b
    ensures |a| <= |b|
    decreases |a|
  {
    if a != {} {
      var x :| x in a;
      SubsetSize(a - {x}, b - {x});
    }
  }

  /** The k-th handle probed after the first one, in wrapping 32-bit arithmetic. */
  function Probe(first: int32, k: nat): int32 {
    WrapInt32(first + k)
  }

  lemma ProbesDiffer(first: int32, j: nat, k: nat)
    requires j < k < TWO_32
    ensures Probe(first, j) != Probe(first, k)
  {
    var dj := (first + j - Probe(first, j)) / TWO_32;
    var dk := (first + k - Probe(first, k)) / TWO_32;
    assert first + j == Probe(first, j) + dj * TWO_32;
    assert first + k == Probe(first, k) + dk * TWO_32;
  }

  lemma SameResidue(x: int, y: int, q: int)
    requires x == y + q * TWO_32
    ensures WrapInt32(x) == WrapInt32(y)
  {
    assert x % TWO_32 == y % TWO_32;
  }

  lemma NextProbe(first: int32, k: nat)
    ensures WrapInt32(Probe(first, k) + 1) == Probe(first, k + 1)
  {
    hide WrapInt32;
    var x: int := first + k;
    var q := (x - Probe(first, k)) / TWO_32;
    assert x == Probe(first, k) + q * TWO_32;
    SameResidue(x + 1, Probe(first, k) + 1, q);
  }

  lemma FirstProbe(first: int32)
    ensures Probe(first, 0) == first
  {
  }

  /** A handle not in use, found within one probe more than there are values. */
  method FreeHandle(used: set<int32>) returns (handle: int32, ghost probes: nat)
    requires |used| < TWO_32
    ensures handle !in used && probes <= |used| + 1
  {
    hide WrapInt32;
    var first := WrapInt32(|used|);
    handle := first;
    probes := 1;
    ghost var tried: set<int32> := {};
    FirstProbe(first);
    while handle in used
      invariant 1 <= probes <= |used| + 1 && handle == Probe(first, probes - 1)
      invariant tried == set k | 0 <= k < probes - 1 :: Probe(first, k)
      invariant |tried| == probes - 1 && tried <= used
      decreases |used| + 1 - probes
    {
      forall j | 0 <= j < probes - 1
        ensures Probe(first, j) != handle
      {
        ProbesDiffer(first, j, probes - 1);
      }
      SubsetSize(tried + {handle}, used);
      NextProbe(first, probes - 1);
      tried := tried + {handle};
      probes := probes + 1;
      var next: int := handle + 1;
      handle := WrapInt32(next);
    }
  }

  // ---------------------------------------------------------------- the context

  class BigIntContext {
    var values: Cells
    var stateStack: seq<Cells>

    /** No cell is reachable from two places: not twice in one map, not from two frames. */
    ghost predicate Valid()
      reads this
    {
      && Injective(values)
      && (forall i :: 0 <= i < |stateStack| ==> Injective(stateStack[i]) && stateStack[i].Values !! values.Values)
      && (forall i, j :: 0 <= i < j < |stateStack| ==> stateStack[i].Values !! stateStack[j].Values)
    }

    ghost function View(): BigInts
      reads this, values.Values, CellsOf(stateStack)
    {
      BigInts(Numbers(values), SavedNumbers(stateStack))
    }

    constructor ()
      ensures Valid() && View() == BigInts(map[], []) && values == map[] && stateStack == []
    {
      values, stateStack := map[], [];
    }

    /** The context reaches big integers, and no other object. */
    lemma NotMine(x: object)
      requires !(x is BigInt)
      ensures x !in values.Values && x !in CellsOf(stateStack)
      ensures forall c :: c in values.Values ==> allocated(c)
      ensures forall c :: c in CellsOf(stateStack) ==> allocated(c)
    {
    }

    method InitState()
      requires Valid()
      modifies this`values
      ensures Valid() && values == map[] && stateStack == old(stateStack)
      ensures View() == old(View()).(values := map[])
    {
      values := map[];
      assert Numbers(values) == map[];
    }

    method ClearStateStack()
      requires Valid()
      modifies this`stateStack
      ensures Valid() && stateStack == [] && values == old(values)
      ensures View() == old(View()).(stack := [])
    {
      stateStack := [];
      assert Numbers(values) == old(Numbers(values));
      assert SavedNumbers(stateStack) == [];
    }

    /** A deep copy: fresh cells with the same numbers. */
    method Clone() returns (copy: Cells)
      requires Valid()
      ensures Injective(copy) && fresh(copy.Values) && copy.Keys == values.Keys
      ensures Numbers(copy) == Numbers(values)
    {
      copy := map[];
      var todo := values.Keys;
      while todo != {}
        invariant todo <= values.Keys && copy.Keys == values.Keys - todo
        invariant Injective(copy) && fresh(copy.Values)
        invariant forall h :: h in copy ==> copy[h].number == values[h].number
        decreases todo
      {
        var h :| h in todo;
        var cell := new BigInt(values[h].number);
        assert forall g :: g in copy ==> copy[g] in copy.Values;
        copy := copy[h := cell];
        todo := todo - {h};
      }
    }

    method PushState()
      requires Valid()
      modifies this`stateStack
      ensures Valid() && values == old(values)
      ensures |stateStack| == |old(stateStack)| + 1 && stateStack[..|old(stateStack)|] == old(stateStack)
      ensures fresh(stateStack[|old(stateStack)|].Values)
      ensures View() == old(BigInts(View().values, View().stack + [View().values]))
    {
      var copy := Clone();
      stateStack := stateStack + [copy];
      assert View().stack == old(View().stack + [View().values]);
    }

    method PopSetActiveState()
      requires Valid()
      modifies this
      ensures Valid() && View() == PopBigInt(old(View()))
      ensures |old(stateStack)| > 0 ==>
                values == old(stateStack[|stateStack| - 1]) && stateStack == old(stateStack[..|stateStack| - 1])
    {
      if |stateStack| == 0 {
        return;
      }
      values := stateStack[|stateStack| - 1];
      stateStack := stateStack[..|stateStack| - 1];
      assert View().stack == old(View().stack)[..|stateStack|];
    }

    method PopDiscard()
      requires Valid()
      modifies this`stateStack
      ensures Valid() && values == old(values) && View() == DiscardBigInt(old(View()))
      ensures |old(stateStack)| > 0 ==> stateStack == old(stateStack[..|stateStack| - 1])
    {
      if |stateStack| == 0 {
        return;
      }
      stateStack := stateStack[..|stateStack| - 1];
      assert View().stack == old(View().stack)[..|stateStack|];
    }

    /** A new cell under a free handle. */
    method Insert(handle: int32, value: int)
      requires Valid() && handle !in values
      modifies this`values
      ensures Valid() && handle in values && fresh(values[handle])
      ensures values == old(values)[handle := values[handle]]
      ensures View() == old(View()).(values := old(View().values)[handle := value])
    {
      var cell := new BigInt(value);
      values := values[handle := cell];
      assert Numbers(values) == old(Numbers(values))[handle := value];
      assert SavedNumbers(stateStack) == old(SavedNumbers(stateStack));
    }

    method Put(value: int) returns (handle: int32)
      requires Valid() && |values| < TWO_32
      modifies this`values
      ensures Valid() && handle !in old(values) && handle in values && fresh(values[handle])
      ensures values == old(values)[handle := values[handle]]
      ensures View() == old(View()).(values := old(View().values)[handle := value])
    {
      ghost var probes;
      handle, probes := FreeHandle(values.Keys);
      assert Numbers(values) == old(Numbers(values));
      assert SavedNumbers(stateStack) == old(SavedNumbers(stateStack));
      Insert(handle, value);
    }

    /** The cell itself: what is written to it is seen under the handle, and nowhere else. */
    method GetOne(handle: int32) returns (cell: BigInt)
      requires Valid()
      modifies this`values
      ensures Valid() && handle in values && cell == values[handle]
      ensures handle in old(values) ==> values == old(values)
      ensures handle !in old(values) ==> fresh(cell) && values == old(values)[handle := cell]
      ensures View() == old(View()).(values := if handle in old(values) then old(View().values)
                                               else old(View().values)[handle := 0])
    {
      hide CellsOf, SavedNumbers, Numbers;
      if handle !in values {
        Insert(handle, 0);
      }
      cell := values[handle];
    }

    /** A write through the reference that GetOne returned. */
    method Write(handle: int32, number: int)
      requires Valid() && handle in values
      modifies values[handle]
      ensures Valid() && View() == old(View()).(values := old(View().values)[handle := number])
    {
      values[handle].number := number;
      assert Numbers(values) == old(Numbers(values))[handle := number];
      assert SavedNumbers(stateStack) == old(SavedNumbers(stateStack));
    }

    /** One use of the numbers by a contract. */
    method UseOne(use: BigIntUse)
      requires Valid()
      modifies this`values, values.Values
      ensures Valid() && stateStack == old(stateStack)
      ensures fresh(values.Values - old(values.Values))
      ensures View().stack == old(View().stack)
    {
      hide CellsOf, SavedNumbers, Numbers;
      match use
      case PutNumber(number) =>
        if |values| < TWO_32 {
          var _ := Put(number);
        }
      case SetNumber(handle, number) =>
        var _ := GetOne(handle);
        Write(handle, number);
    }

    /** A contract's uses of its numbers between a push and its pop. */
    method Use(uses: seq<BigIntUse>)
      requires Valid()
      modifies this`values, values.Values
      ensures Valid() && stateStack == old(stateStack)
      ensures fresh(values.Values - old(values.Values))
      ensures View().stack == old(View().stack)
      decreases |uses|
    {
      hide CellsOf, SavedNumbers, Numbers, Valid;
      if |uses| > 0 {
        UseOne(uses[0]);
        Use(uses[1..]);
      }
    }

    /** Whatever is written through the references in between, the pop restores the pushed values. */
    method PushUsePop(uses: seq<BigIntUse>)
      requires Valid()
      modifies this, values.Values
      ensures Valid() && View() == old(View())
    {
      PushState();
      Use(uses);
      PopSetActiveState();
    }
  }

  datatype BigIntUse = PutNumber(number: int) | SetNumber(handle: int32, number: int)
}
