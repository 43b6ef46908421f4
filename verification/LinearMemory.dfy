/** MemLoad, MemLoadMultiple and MemStore on the linear memory of an instance. */
module LinearMemory {
  import opened Overflow

  /** The page size of section 4.2.8 of WebAssembly Core 1.0. */
  const PAGE := 65536

  /** A memory has fewer than 2^16 pages, so that its length is a uint32. */
  type Pages = p: nat | p < 65536
  type Memory32 = m: seq<byte> | |m| <= MAX_U32

  /** A slice with its end before its start panics, which the caller of the contract catches. */
  datatype Error = ErrBadBounds | ErrNegativeLength | ErrBadLowerBounds | ErrBadUpperBounds | ErrGrow | Panic

  datatype Result<T> = Ok(value: T) | Err(error: Error)

  function Zeros(n: nat): seq<byte> {
    seq(n, _ => 0)
  }

  /** The bytes from an offset on, with zeros past the end of the memory. */
  function Padded(mem: seq<byte>, offset: nat, length: nat): seq<byte> {
    seq(length, i requires i >= 0 => if offset + i < |mem| then mem[offset + i] else 0)
  }

  function Min(a: int, b: int): int {
    if a <= b then a else b
  }

  /** Where a range ends, in saturating 32-bit arithmetic. */
  function EndOf(offset: int32, length: int32): int32 {
    AddInt32(offset, length)
  }

  /** The conversion uint32(x). */
  function Unsigned(x: int32): uint32 {
    if x < 0 then x + TWO_32 else x
  }

  class Memory {
    var data: Memory32
    const maxPages: Pages

    constructor (data: Memory32, maxPages: Pages)
      ensures this.data == data && this.maxPages == maxPages
    {
      this.data := data;
      this.maxPages := maxPages;
    }

    /** Adds zeroed pages, unless the limit forbids it. */
    method Grow(pages: nat) returns (ok: bool)
      modifies this
      ensures ok <==> old(|data|) + pages * PAGE <= maxPages * PAGE
      ensures data == if ok then old(data) + Zeros(pages * PAGE) else old(data)
    {
      ok := |data| + pages * PAGE <= maxPages * PAGE;
      if ok {
        data := data + Zeros(pages * PAGE);
      }
    }

    /** A load starts inside the memory or at its end, and is padded with zeros past it; nothing
        else is cut off unless both the memory and the range pass 2^31-1. */
    method MemLoad(offset: int32, length: int32) returns (r: Result<seq<byte>>)
      ensures length == 0 ==> r == Ok([])
      ensures length != 0 && (offset < 0 || offset > |data|) ==> r == Err(ErrBadBounds)
      ensures length < 0 && 0 <= offset <= |data| ==> r == Err(ErrNegativeLength)
      ensures length > 0 && 0 <= offset <= |data| ==>
        r == Ok(Padded(data[..Min(|data|, EndOf(offset, length))], offset, length))
      ensures length > 0 && 0 <= offset <= |data| && (|data| <= MAX_I32 || offset + length <= MAX_I32) ==>
        r == Ok(Padded(data, offset, length))
    {
      if length == 0 {
        return Ok([]);
      }
      var requestedEnd := AddInt32(offset, length);
      if offset < 0 || offset > |data| {
        return Err(ErrBadBounds);
      }
      if length < 0 {
        return Err(ErrNegativeLength);
      }
      var tail := if requestedEnd > |data| then data[offset..] else data[offset..requestedEnd];
      var bytes := tail + Zeros(length - |tail|);
      assert bytes == Padded(data[..Min(|data|, requestedEnd)], offset, length);
      assert |data| <= MAX_I32 || offset + length <= MAX_I32 ==> bytes == Padded(data, offset, length);
      r := Ok(bytes);
    }

    /** Loads one slice after another, each where the lengths before it, added up in 32-bit arithmetic,
        have led; it succeeds exactly when every slice can be loaded. Over a range inside the memory
        that ends by 2^31-1 the slices join up to it; once the range has passed 2^31-1, a further slice
        that is not empty fails, and without one the bytes beyond read as zeros. */
    method MemLoadMultiple(offset: int32, lengths: seq<int32>) returns (r: Result<seq<seq<byte>>>)
      ensures r.Ok? <==> forall k :: 0 <= k < |lengths| ==> Loads(data, Position(offset, lengths, k), lengths[k])
      ensures r.Ok? ==>
        && |r.value| == |lengths|
        && forall k :: 0 <= k < |lengths| ==> r.value[k] == Slice(data, Position(offset, lengths, k), lengths[k])
      ensures InBounds(data, offset, lengths) && offset + Total(lengths) <= MAX_I32 ==>
        && r.Ok? && |r.value| == |lengths|
        && (forall i :: 0 <= i < |lengths| ==> |r.value[i]| == lengths[i])
        && Join(r.value) == Range(data, offset, Total(lengths))
      ensures InBounds(data, offset, lengths) && !StopsAtLimit(offset, lengths) ==> r == Err(ErrBadBounds)
      ensures InBounds(data, offset, lengths) && StopsAtLimit(offset, lengths) ==>
        && r.Ok? && |r.value| == |lengths|
        && (forall i :: 0 <= i < |lengths| ==> |r.value[i]| == lengths[i])
        && Join(r.value) == Padded(data[..Min(|data|, MAX_I32)], offset, Total(lengths))
    {
      hide Range, Join, Padded, Total, EndOf, StopsAtLimit, WrapInt32, AddInt32, Position;
      ghost var inside := InBounds(data, offset, lengths);
      ghost var cut := data[..Min(|data|, MAX_I32)];
      NothingYet(cut, offset);
      FirstPosition(offset, lengths);
      var results: seq<seq<byte>> := [];
      var position: int32 := offset;
      var i := 0;
      while i < |lengths|
        invariant 0 <= i <= |lengths| && |results| == i
        invariant position == Position(offset, lengths, i)
        invariant forall k :: 0 <= k < i ==>
          && Loads(data, Position(offset, lengths, k), lengths[k])
          && results[k] == Slice(data, Position(offset, lengths, k), lengths[k])
        invariant inside ==>
          && 0 <= Total(lengths[..i]) && offset + Total(lengths[..i]) <= |data|
          && position == Signed(offset + Total(lengths[..i]))
          && (forall k :: 0 <= k < i ==> |results[k]| == lengths[k])
          && (forall k :: 0 <= k < i && offset + Total(lengths[..k]) > MAX_I32 ==> lengths[k] == 0)
          && Join(results) == Padded(cut, offset, Total(lengths[..i]))
      {
        var slice := MemLoad(position, lengths[i]);
        if inside {
          TotalStep(lengths, i);
          PaddedJoins(cut, offset, Total(lengths[..i]), lengths[i]);
          if lengths[i] > 0 && offset + Total(lengths[..i]) <= MAX_I32 {
            SliceOf(data, offset + Total(lengths[..i]), lengths[i]);
          }
          NextPosition(offset + Total(lengths[..i]), lengths[i]);
          PastLimit(offset, lengths, i);
        }
        if slice.Err? {
          return Err(slice.error);
        }
        JoinStep(results, slice.value);
        results := results + [slice.value];
        LaterPosition(offset, lengths, i);
        var next: int := position + lengths[i];
        position := WrapInt32(next);
        i := i + 1;
      }
      assert lengths[..i] == lengths;
      if inside {
        WithinLimit(offset, lengths);
        CutIsRange(data, offset, Total(lengths));
      }
      r := Ok(results);
    }

    /** A store grows the memory by at most one page, writes the data at the offset, and changes no
        other byte. The length is converted to a 32-bit integer first, and an end beyond 2^31-1 is
        cut off; otherwise all the data is written. */
    method MemStore(offset: int32, bytes: seq<byte>) returns (err: Result<()>)
      modifies this
      ensures var length := WrapInt32(|bytes|);
        var fits := old(|data|) + PAGE <= maxPages * PAGE;
        var grows := length != 0 && offset >= 0 && Unsigned(EndOf(offset, length)) > old(|data|) && fits;
        && |data| == old(|data|) + (if grows then PAGE else 0)
        && (err.Ok? <==> length == 0 || (offset >= 0 && length > 0 && EndOf(offset, length) <= |data|))
        && (err == Err(ErrBadLowerBounds) <==> length != 0 && offset < 0)
        && (err == Err(ErrGrow) <==>
              length != 0 && offset >= 0 && Unsigned(EndOf(offset, length)) > old(|data|) && !fits)
        && (err.Ok? && length > 0 ==>
              data == Stored(old(data) + Zeros(|data| - old(|data|)), offset, bytes[..EndOf(offset, length) - offset]))
        && (err.Err? || length == 0 ==> data == old(data) + Zeros(|data| - old(|data|)))
    {
      hide WrapInt32, AddInt32, Zeros;
      NoZeros();
      var dataLength := WrapInt32(|bytes|);
      PrefixFits(|bytes|);
      if dataLength == 0 {
        return Ok(());
      }
      var requestedEnd := AddInt32(offset, dataLength);
      if offset < 0 {
        return Err(ErrBadLowerBounds);
      }
      if Unsigned(requestedEnd) > |data| {
        var ok := Grow(1);
        if !ok {
          return Err(ErrGrow);
        }
      }
      if Unsigned(requestedEnd) > |data| {
        return Err(ErrBadUpperBounds);
      }
      if requestedEnd < offset {
        return Err(Panic);
      }
      data := data[..offset] + bytes[..requestedEnd - offset] + data[requestedEnd..];
      err := Ok(());
    }

    /** What was stored is loaded again, with the rest of the memory as it was, exactly as far as
        the end of the range does not pass 2^31-1: what would lie beyond is neither stored nor
        loaded, and reads as zeros. */
    method StoreThenLoad(offset: int32, bytes: seq<byte>) returns (stored: Result<()>, loaded: Result<seq<byte>>)
      modifies this
      ensures var length := WrapInt32(|bytes|);
        && |data| >= old(|data|)
        && (stored.Ok? <==> length == 0 || (offset >= 0 && length > 0 && EndOf(offset, length) <= |data|))
        && (stored.Ok? && |bytes| <= MAX_I32 && offset + |bytes| <= MAX_I32 ==> loaded == Ok(bytes))
        && (stored.Ok? && |bytes| <= MAX_I32 && bytes != [] && offset + |bytes| > MAX_I32 ==>
              loaded == Ok(bytes[..MAX_I32 - offset] + Zeros(offset + |bytes| - MAX_I32)))
        && (stored.Ok? && |bytes| > MAX_I32 ==>
              && length >= 0
              && loaded == if offset + length <= MAX_I32 || length == 0 then Ok(bytes[..length])
                           else Ok(bytes[..MAX_I32 - offset] + Zeros(offset + length - MAX_I32)))
      ensures stored.Ok? ==> forall i :: 0 <= i < |data| && !(offset <= i < offset + |bytes|) ==>
        data[i] == if i < old(|data|) then old(data)[i] else 0
    {
      var length := WrapInt32(|bytes|);
      PrefixFits(|bytes|);
      stored := MemStore(offset, bytes);
      loaded := MemLoad(offset, length);
      if stored.Ok? && length > 0 {
        var end := EndOf(offset, length);
        var tail := Zeros(offset + length - end);
        assert Padded(data[..Min(|data|, end)], offset, length) == bytes[..end - offset] + tail;
        assert end == offset + length ==> bytes[..end - offset] + tail == bytes[..length];
        assert |bytes| <= MAX_I32 ==> bytes[..length] == bytes;
      }
    }
  }

  /** A store that is cut off: of two bytes at offset 2^31-2 the second is lost. */
  method TruncatedStore() returns (stored: Result<()>, loaded: Result<seq<byte>>)
    ensures stored.Ok? && loaded == Ok([1, 0])
  {
    var memory := new Memory(Zeros(32768 * PAGE), 32768);
    stored, loaded := memory.StoreThenLoad(MAX_I32 - 1, [1, 1]);
    assert [1, 1][..1] + Zeros(1) == [1, 0];
  }

  lemma PrefixFits(n: nat)
    ensures WrapInt32(n) <= n
    ensures n <= MAX_I32 ==> WrapInt32(n) == n
    ensures n > MAX_I32 ==> WrapInt32(n) < n
  {
  }

  lemma NoZeros()
    ensures Zeros(0) == [] && |Zeros(PAGE)| == PAGE
  {
  }

  function Stored(mem: seq<byte>, offset: nat, bytes: seq<byte>): seq<byte>
    requires offset + |bytes| <= |mem|
  {
    mem[..offset] + bytes + mem[offset + |bytes|..]
  }

  function Total(lengths: seq<int32>): int {
    if lengths == [] then 0 else Total(lengths[..|lengths| - 1]) + lengths[|lengths| - 1]
  }

  function Join(slices: seq<seq<byte>>): seq<byte> {
    if slices == [] then [] else Join(slices[..|slices| - 1]) + slices[|slices| - 1]
  }

  function Range(mem: seq<byte>, offset: int, length: int): seq<byte> {
    if 0 <= offset && 0 <= length && offset + length <= |mem| then mem[offset..offset + length] else []
  }

  predicate InBounds(mem: seq<byte>, offset: int32, lengths: seq<int32>) {
    && (forall i :: 0 <= i < |lengths| ==> lengths[i] >= 0)
    && 0 <= offset && 0 <= Total(lengths) && offset + Total(lengths) <= |mem|
  }

  /** Where slice k starts, for any lengths. */
  function Position(offset: int32, lengths: seq<int32>, k: nat): int32
    requires k <= |lengths|
  {
    WrapInt32(offset + Total(lengths[..k]))
  }

  predicate Loads(mem: seq<byte>, start: int32, length: int32) {
    length == 0 || (length > 0 && 0 <= start <= |mem|)
  }

  function Slice(mem: seq<byte>, start: int32, length: int32): seq<byte> {
    if 0 < length && 0 <= start then Padded(mem[..Min(|mem|, EndOf(start, length))], start, length) else []
  }

  lemma FirstPosition(offset: int32, lengths: seq<int32>)
    ensures Position(offset, lengths, 0) == offset
  {
    assert lengths[..0] == [];
  }

  lemma LaterPosition(offset: int32, lengths: seq<int32>, k: nat)
    requires k < |lengths|
    ensures Position(offset, lengths, k + 1) == WrapInt32(Position(offset, lengths, k) + lengths[k])
  {
    assert lengths[..k + 1][..k] == lengths[..k];
    WrapAdds(offset + Total(lengths[..k]), lengths[k]);
  }

  lemma WrapAdds(x: int, n: int)
    ensures WrapInt32(WrapInt32(x) + n) == WrapInt32(x + n)
  {
  }

  /** The position after adding up lengths that stay inside the memory. */
  function Signed(x: int): int {
    if x > MAX_I32 then x - TWO_32 else x
  }

  /** No slice that is not empty starts beyond 2^31-1. */
  predicate StopsAtLimit(offset: int32, lengths: seq<int32>) {
    forall k :: 0 <= k < |lengths| && offset + Total(lengths[..k]) > MAX_I32 ==> lengths[k] == 0
  }

  lemma NothingYet(mem: seq<byte>, offset: int)
    ensures Total([]) == 0 && Join([]) == [] && (offset >= 0 ==> Padded(mem, offset, 0) == [])
  {
  }

  lemma NextPosition(x: nat, length: nat)
    requires x + length <= MAX_U32
    ensures WrapInt32(Signed(x) + length) == Signed(x + length)
  {
  }

  /** What one load returns, in terms of the memory cut off at 2^31-1. */
  lemma SliceOf(mem: seq<byte>, start: nat, length: int32)
    requires 0 < length && start + length <= |mem| && start <= MAX_I32
    ensures Padded(mem[..Min(|mem|, EndOf(start, length))], start, length)
            == Padded(mem[..Min(|mem|, MAX_I32)], start, length)
  {
  }

  lemma PaddedJoins(mem: seq<byte>, offset: nat, a: nat, b: nat)
    ensures Padded(mem, offset, a) + Padded(mem, offset + a, b) == Padded(mem, offset, a + b)
    ensures |Padded(mem, offset + a, b)| == b && Padded(mem, offset + a, 0) == []
  {
  }

  lemma PastLimit(offset: int32, lengths: seq<int32>, i: nat)
    requires i < |lengths|
    ensures offset + Total(lengths[..i]) > MAX_I32 && lengths[i] != 0 ==> !StopsAtLimit(offset, lengths)
  {
  }

  lemma WithinLimit(offset: int32, lengths: seq<int32>)
    requires forall k :: 0 <= k < |lengths| && offset + Total(lengths[..k]) > MAX_I32 ==> lengths[k] == 0
    ensures StopsAtLimit(offset, lengths)
  {
  }

  lemma CutIsRange(mem: seq<byte>, offset: nat, length: nat)
    requires offset + length <= |mem|
    ensures offset + length <= MAX_I32 ==>
              Padded(mem[..Min(|mem|, MAX_I32)], offset, length) == Range(mem, offset, length)
  {
  }

  lemma JoinStep(slices: seq<seq<byte>>, slice: seq<byte>)
    ensures Join(slices + [slice]) == Join(slices) + slice
  {
    assert (slices + [slice])[..|slices|] == slices;
  }

  /** The running total is that of the prefix, and no prefix exceeds the whole. */
  lemma TotalStep(lengths: seq<int32>, i: nat)
    requires i < |lengths| && forall k :: 0 <= k < |lengths| ==> lengths[k] >= 0
    ensures Total(lengths[..i + 1]) == Total(lengths[..i]) + lengths[i]
    ensures 0 <= Total(lengths[..i]) && Total(lengths[..i + 1]) <= Total(lengths)
  {
    assert lengths[..i + 1][..i] == lengths[..i];
    TotalPrefix(lengths, i + 1);
    TotalPrefix(lengths, i);
  }

  lemma {:induction false} TotalPrefix(lengths: seq<int32>, i: nat)
    requires i <= |lengths| && forall k :: 0 <= k < |lengths| ==> lengths[k] >= 0
    ensures 0 <= Total(lengths[..i]) <= Total(lengths)
    decreases |lengths|
  {
    if i < |lengths| {
      assert lengths[..|lengths| - 1][..i] == lengths[..i];
      TotalPrefix(lengths[..|lengths| - 1], i);
    } else {
      assert lengths[..i] == lengths;
      if i > 0 {
        TotalPrefix(lengths[..i - 1], i - 1);
        assert lengths[..i - 1][..i - 1] == lengths[..i - 1];
      }
    }
  }
}
