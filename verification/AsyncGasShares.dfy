/** setupAsyncCallsGas: gas limits for the asynchronous calls a contract registered. */
module AsyncGasShares {
  import opened Overflow
  import opened FiniteSums

  datatype AsyncCall = AsyncCall(providedGas: uint64, gasLimit: uint64)

  type Contexts = map<string, seq<AsyncCall>>

  // ---------------------------------------------------------------- specification

  function Provided(cs: seq<AsyncCall>): nat {
    if cs == [] then 0 else Provided(cs[..|cs| - 1]) + cs[|cs| - 1].providedGas
  }

  function Zeros(cs: seq<AsyncCall>): nat {
    if cs == [] then 0 else Zeros(cs[..|cs| - 1]) + if cs[|cs| - 1].providedGas == 0 then 1 else 0
  }

  function Limits(cs: seq<AsyncCall>): nat {
    if cs == [] then 0 else Limits(cs[..|cs| - 1]) + cs[|cs| - 1].gasLimit
  }

  ghost function ProvidedOf(m: Contexts): map<string, int> {
    map id | id in m :: Provided(m[id])
  }

  ghost function ZerosOf(m: Contexts): map<string, int> {
    map id | id in m :: Zeros(m[id])
  }

  ghost function LimitsOf(m: Contexts): map<string, int> {
    map id | id in m :: Limits(m[id])
  }

  ghost function TotalProvided(m: Contexts): int {
    Sum(ProvidedOf(m))
  }

  ghost function TotalZeros(m: Contexts): int {
    Sum(ZerosOf(m))
  }

  ghost function TotalLimits(m: Contexts): int {
    Sum(LimitsOf(m))
  }

  /** One context may be set apart from any total. */
  lemma TotalsExtract(m: Contexts, id: string)
    requires id in m
    ensures TotalProvided(m) == Provided(m[id]) + TotalProvided(m - {id})
    ensures TotalZeros(m) == Zeros(m[id]) + TotalZeros(m - {id})
    ensures TotalLimits(m) == Limits(m[id]) + TotalLimits(m - {id})
  {
    hide Sum;
    SumExtract(ProvidedOf(m), id);
    SumExtract(ZerosOf(m), id);
    SumExtract(LimitsOf(m), id);
    assert ProvidedOf(m) - {id} == ProvidedOf(m - {id});
    assert ZerosOf(m) - {id} == ZerosOf(m - {id});
    assert LimitsOf(m) - {id} == LimitsOf(m - {id});
  }

  lemma TotalsNonNegative(m: Contexts)
    ensures TotalProvided(m) >= 0 && TotalZeros(m) >= 0
  {
    SumNonNegative(ProvidedOf(m));
    SumNonNegative(ZerosOf(m));
  }

  /** Explicit requests are honoured, zero requests get the share. */
  ghost predicate Shared(before: seq<AsyncCall>, after: seq<AsyncCall>, share: uint64) {
    && |after| == |before|
    && forall i :: 0 <= i < |before| ==>
         && after[i].providedGas == before[i].providedGas
         && after[i].gasLimit == if before[i].providedGas == 0 then share else before[i].providedGas
  }

  ghost predicate AllShared(before: Contexts, after: Contexts, share: uint64) {
    after.Keys == before.Keys && forall id :: id in before ==> Shared(before[id], after[id], share)
  }

  lemma {:induction false} LimitsOfShared(before: seq<AsyncCall>, after: seq<AsyncCall>, share: uint64)
    requires Shared(before, after, share)
    ensures Limits(after) == Provided(before) + share * Zeros(before)
  {
    if before != [] {
      var n := |before| - 1;
      LimitsOfShared(before[..n], after[..n], share);
      assert Zeros(before) == Zeros(before[..n]) + if before[n].providedGas == 0 then 1 else 0;
      assert share * (Zeros(before[..n]) + 1) == share * Zeros(before[..n]) + share;
    }
  }

  lemma {:induction false} TotalOfShared(before: Contexts, after: Contexts, share: uint64)
    requires AllShared(before, after, share)
    ensures TotalLimits(after) == TotalProvided(before) + share * TotalZeros(before)
    decreases |before|
  {
    hide TotalProvided, TotalZeros, TotalLimits, Limits, Zeros, Provided, Shared;
    if before == map[] {
      TotalsOfNothing();
    } else {
      var id :| id in before;
      TotalsExtract(before, id);
      TotalsExtract(after, id);
      LimitsOfShared(before[id], after[id], share);
      assert (before - {id}).Keys == before.Keys - {id};
      TotalOfShared(before - {id}, after - {id}, share);
      Distribute(share, Zeros(before[id]), TotalZeros(before - {id}));
    }
  }

  lemma TotalsOfNothing()
    ensures TotalProvided(map[]) == TotalZeros(map[]) == TotalLimits(map[]) == 0
  {
    assert ProvidedOf(map[]) == ZerosOf(map[]) == LimitsOf(map[]) == map[];
  }

  lemma Distribute(a: int, b: int, c: int)
    ensures a * (b + c) == a * b + a * c
  {
  }

  ghost function Restrict(m: Contexts, visited: set<string>): Contexts {
    map id | id in m && id in visited :: m[id]
  }

  lemma VisitOne(m: Contexts, visited: set<string>, id: string)
    requires id in m && id !in visited
    ensures var next := Restrict(m, visited + {id});
      && TotalProvided(next) == TotalProvided(Restrict(m, visited)) + Provided(m[id])
      && TotalZeros(next) == TotalZeros(Restrict(m, visited)) + Zeros(m[id])
  {
    hide TotalProvided, TotalZeros, TotalLimits;
    TotalsExtract(Restrict(m, visited + {id}), id);
    assert Restrict(m, visited + {id}) - {id} == Restrict(m, visited);
  }

  lemma VisitNone(m: Contexts)
    ensures TotalProvided(Restrict(m, m.Keys - m.Keys)) == TotalZeros(Restrict(m, m.Keys - m.Keys)) == 0
  {
    TotalsOfNothing();
    assert Restrict(m, m.Keys - m.Keys) == map[];
  }

  lemma VisitedAll(m: Contexts)
    ensures Restrict(m, m.Keys - {}) == m
  {
  }

  lemma VisitedAtMostAll(m: Contexts, visited: set<string>)
    ensures TotalProvided(Restrict(m, visited)) <= TotalProvided(m)
  {
    SumMonotone(ProvidedOf(Restrict(m, visited)), ProvidedOf(m));
  }

  lemma {:induction false} ProvidedPrefix(cs: seq<AsyncCall>, i: nat)
    requires i <= |cs|
    ensures Provided(cs[..i]) <= Provided(cs)
    decreases |cs|
  {
    if i < |cs| {
      assert cs[..|cs| - 1][..i] == cs[..i];
      ProvidedPrefix(cs[..|cs| - 1], i);
    } else {
      assert cs[..i] == cs;
    }
  }

  // ---------------------------------------------------------------- the two passes

  lemma CountsTo(cs: seq<AsyncCall>, n: nat)
    requires n <= |cs|
    ensures n == 0 ==> Provided(cs[..n]) == 0 && Zeros(cs[..n]) == 0
    ensures n > 0 ==> Provided(cs[..n]) == Provided(cs[..n - 1]) + cs[n - 1].providedGas
    ensures n > 0 ==> Zeros(cs[..n]) == Zeros(cs[..n - 1]) + if cs[n - 1].providedGas == 0 then 1 else 0
  {
    assert n > 0 ==> cs[..n][..n - 1] == cs[..n - 1];
  }

  class AsyncContextInfo {
    var contexts: Contexts

    constructor (contexts: Contexts)
      ensures this.contexts == contexts
    {
      this.contexts := contexts;
    }

    /** First pass over one context: explicit requests become limits, zero requests are counted. */
    method SetExplicit(id: string, gasLeft: uint64, needed: uint64) returns (err: bool, gasNeeded: uint64, zeros: nat)
      requires id in contexts && needed <= gasLeft
      modifies this
      ensures contexts.Keys == old(contexts.Keys)
      ensures forall x :: x in contexts && x != id ==> contexts[x] == old(contexts)[x]
      ensures err <==> needed + Provided(old(contexts)[id]) > gasLeft
      ensures !err ==> gasNeeded == needed + Provided(old(contexts)[id]) && zeros == Zeros(old(contexts)[id])
      ensures !err ==> ExplicitSet(old(contexts)[id], contexts[id])
    {
      hide Provided, Zeros;
      ghost var cs := contexts[id];
      gasNeeded, zeros, err := needed, 0, false;
      var i := 0;
      CountsTo(cs, 0);
      while i < |contexts[id]|
        invariant id in contexts && contexts == old(contexts)[id := contexts[id]]
        invariant 0 <= i <= |contexts[id]| == |cs|
        invariant gasNeeded == needed + Provided(cs[..i]) && gasNeeded <= gasLeft
        invariant zeros == Zeros(cs[..i])
        invariant forall k :: 0 <= k < |cs| ==> contexts[id][k].providedGas == cs[k].providedGas
        invariant forall k :: 0 <= k < i && cs[k].providedGas > 0 ==> contexts[id][k].gasLimit == cs[k].providedGas
      {
        var call := contexts[id][i];
        CountsTo(cs, i + 1);
        ProvidedPrefix(cs, i + 1);
        var sum := AddUint64WithErr(gasNeeded, call.providedGas);
        if sum.Overflow? || sum.value > gasLeft {
          return true, gasNeeded, zeros;
        }
        gasNeeded := sum.value;
        if call.providedGas == 0 {
          zeros := zeros + 1;
        } else {
          contexts := contexts[id := contexts[id][i := call.(gasLimit := call.providedGas)]];
        }
        i := i + 1;
      }
      assert cs[..i] == cs;
    }

    /** Second pass over one context: zero requests receive the share. */
    method SetShares(id: string, share: uint64)
      requires id in contexts
      modifies this
      ensures contexts.Keys == old(contexts.Keys)
      ensures forall x :: x in contexts && x != id ==> contexts[x] == old(contexts)[x]
      ensures forall before :: ExplicitSet(before, old(contexts)[id]) ==> Shared(before, contexts[id], share)
    {
      ghost var cs := contexts[id];
      var i := 0;
      while i < |contexts[id]|
        invariant contexts.Keys == old(contexts.Keys)
        invariant forall x :: x in contexts && x != id ==> contexts[x] == old(contexts)[x]
        invariant 0 <= i <= |contexts[id]| == |cs|
        invariant forall k :: i <= k < |cs| ==> contexts[id][k] == cs[k]
        invariant forall k :: 0 <= k < i ==>
          contexts[id][k] == if cs[k].providedGas == 0 then cs[k].(gasLimit := share) else cs[k]
      {
        if contexts[id][i].providedGas == 0 {
          contexts := contexts[id := contexts[id][i := contexts[id][i].(gasLimit := share)]];
        }
        i := i + 1;
      }
    }

    /** The first pass over all contexts, in any order. */
    method SetAllExplicit(gasLeft: uint64) returns (err: bool, gasNeeded: uint64, zeros: nat)
      modifies this
      ensures contexts.Keys == old(contexts).Keys
      ensures err <==> TotalProvided(old(contexts)) > gasLeft
      ensures !err ==> gasNeeded == TotalProvided(old(contexts)) && zeros == TotalZeros(old(contexts))
      ensures !err ==> forall id :: id in contexts ==> ExplicitSet(old(contexts)[id], contexts[id])
    {
      hide TotalProvided, TotalZeros, ExplicitSet, Provided, Zeros, Restrict;
      ghost var m := contexts;
      VisitNone(m);
      err, gasNeeded, zeros := false, 0, 0;
      var toVisit := contexts.Keys;
      while toVisit != {}
        invariant contexts.Keys == m.Keys && toVisit <= m.Keys && !err
        invariant gasNeeded == TotalProvided(Restrict(m, m.Keys - toVisit)) && gasNeeded <= gasLeft
        invariant zeros == TotalZeros(Restrict(m, m.Keys - toVisit))
        invariant forall id :: id in toVisit ==> contexts[id] == m[id]
        invariant forall id :: id in m && id !in toVisit ==> ExplicitSet(m[id], contexts[id])
        decreases toVisit
      {
        var id :| id in toVisit;
        VisitOne(m, m.Keys - toVisit, id);
        assert m.Keys - (toVisit - {id}) == m.Keys - toVisit + {id};
        VisitedAtMostAll(m, m.Keys - toVisit + {id});
        var z;
        err, gasNeeded, z := SetExplicit(id, gasLeft, gasNeeded);
        if err {
          return;
        }
        zeros := zeros + z;
        toVisit := toVisit - {id};
      }
      VisitedAll(m);
    }

    /** Whatever order the contexts are visited in: it fails exactly when the gas requested exceeds
        the gas left, or some call asks for zero and nothing is left over. Otherwise explicit
        requests are honoured exactly and zero requests get equal shares of what is left over. */
    method SetupAsyncCallsGas(gasLeft: uint64) returns (err: bool)
      modifies this
      ensures err <==> !Affordable(old(contexts), gasLeft)
      ensures !err ==> AllShared(old(contexts), contexts, ShareOf(old(contexts), gasLeft))
    {
      hide TotalProvided, TotalZeros, ExplicitSet, Shared;
      ghost var m := contexts;
      var gasNeeded, zeros;
      err, gasNeeded, zeros := SetAllExplicit(gasLeft);
      if err {
        return;
      }
      if zeros == 0 {
        ExplicitIsShared(m, contexts);
        return false;
      }
      if gasLeft <= gasNeeded {
        return true;
      }
      ShareBounds(gasLeft - gasNeeded, zeros);
      var share := (gasLeft - gasNeeded) / zeros;
      GiveShares(share, m);
      err := false;
    }

    method GiveShares(share: uint64, ghost m: Contexts)
      requires contexts.Keys == m.Keys && forall id :: id in m ==> ExplicitSet(m[id], contexts[id])
      modifies this
      ensures AllShared(m, contexts, share)
    {
      var toVisit := contexts.Keys;
      while toVisit != {}
        invariant contexts.Keys == m.Keys && toVisit <= m.Keys
        invariant forall id :: id in toVisit ==> ExplicitSet(m[id], contexts[id])
        invariant forall id :: id in m && id !in toVisit ==> Shared(m[id], contexts[id], share)
        decreases toVisit
      {
        var id :| id in toVisit;
        SetShares(id, share);
        toVisit := toVisit - {id};
      }
    }
  }

  ghost predicate ExplicitSet(before: seq<AsyncCall>, after: seq<AsyncCall>) {
    && |after| == |before|
    && forall i :: 0 <= i < |before| ==>
         && after[i].providedGas == before[i].providedGas
         && (before[i].providedGas > 0 ==> after[i].gasLimit == before[i].providedGas)
  }

  lemma {:induction false} NoZeros(cs: seq<AsyncCall>, i: nat)
    requires Zeros(cs) == 0 && i < |cs|
    ensures cs[i].providedGas > 0
    decreases |cs|
  {
    if i < |cs| - 1 {
      NoZeros(cs[..|cs| - 1], i);
    }
  }

  lemma ExplicitIsShared(before: Contexts, after: Contexts)
    requires after.Keys == before.Keys && forall id :: id in before ==> ExplicitSet(before[id], after[id])
    requires TotalZeros(before) == 0
    ensures AllShared(before, after, 0)
  {
    forall id | id in before
      ensures Shared(before[id], after[id], 0)
    {
      TotalsExtract(before, id);
      TotalsNonNegative(before - {id});
      forall i | 0 <= i < |before[id]|
        ensures before[id][i].providedGas > 0
      {
        NoZeros(before[id], i);
      }
    }
  }

  /** Whether the requests can be met. */
  ghost predicate Affordable(m: Contexts, gasLeft: uint64) {
    TotalProvided(m) <= gasLeft && (TotalZeros(m) > 0 ==> TotalProvided(m) < gasLeft)
  }

  ghost function ShareOf(m: Contexts, gasLeft: uint64): (share: uint64)
    requires Affordable(m, gasLeft)
  {
    TotalsNonNegative(m);
    if TotalZeros(m) == 0 then 0 else
      ShareBounds(gasLeft - TotalProvided(m), TotalZeros(m));
      (gasLeft - TotalProvided(m)) / TotalZeros(m)
  }

  /** The limits add up to at most the gas left, short of it by less than the number of zero
      requests; without zero requests they add up to the gas requested. */
  lemma SharesAddUp(before: Contexts, after: Contexts, gasLeft: uint64)
    requires Affordable(before, gasLeft) && AllShared(before, after, ShareOf(before, gasLeft))
    ensures TotalLimits(after) <= gasLeft
    ensures TotalZeros(before) == 0 ==> TotalLimits(after) == TotalProvided(before)
    ensures TotalZeros(before) > 0 ==> gasLeft - TotalLimits(after) < TotalZeros(before)
  {
    hide TotalProvided, TotalZeros, TotalLimits, AllShared;
    TotalsNonNegative(before);
    TotalOfShared(before, after, ShareOf(before, gasLeft));
    if TotalZeros(before) > 0 {
      ShareBounds(gasLeft - TotalProvided(before), TotalZeros(before));
    }
  }

  lemma MulAtLeast(a: nat, b: nat)
    requires b >= 1
    ensures a * b >= a
  {
    assert a * (b - 1) >= 0;
  }

  lemma ShareBounds(rest: nat, zeros: nat)
    requires zeros > 0
    ensures var share := rest / zeros; 0 <= share <= rest && share * zeros <= rest < share * zeros + zeros
  {
    var share := rest / zeros;
    var rem := rest - share * zeros;
    assert 0 <= rem < zeros;
    MulAtLeast(share, zeros);
  }
}
