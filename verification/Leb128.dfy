/** U64ToLEB128: unsigned LEB128, as section 5.2.2 of WebAssembly Core 1.0 defines it. */
module Leb128 {
  import opened Overflow
  import opened Wrappers

  /** Whether more bytes follow. */
  predicate Continues(b: byte) {
    b >= 0x80
  }

  function Encoding(n: nat): seq<byte> {
    if n < 128 then [n] else [n % 128 + 0x80] + Encoding(n / 128)
  }

  /** The standard decoder: the number at the front of a byte sequence, and the bytes after it. */
  function Decode(bs: seq<byte>): Option<(nat, seq<byte>)>
    decreases |bs|
  {
    if bs == [] then None
    else if !Continues(bs[0]) then Some((bs[0], bs[1..]))
    else
      match Decode(bs[1..])
      case None => None
      case Some((n, rest)) => Some((bs[0] - 0x80 + 128 * n, rest))
  }

  /** Decoding an encoding returns the number, whatever follows it. */
  lemma {:induction false} DecodeUndoesEncode(n: nat, rest: seq<byte>)
    ensures Decode(Encoding(n) + rest) == Some((n, rest))
  {
    if n < 128 {
      assert (Encoding(n) + rest)[1..] == rest;
    } else {
      assert (Encoding(n) + rest)[1..] == Encoding(n / 128) + rest;
      DecodeUndoesEncode(n / 128, rest);
    }
  }

  /** Exactly the last byte lacks the continuation bit. */
  lemma {:induction false} OnlyLastByteEnds(n: nat, i: nat)
    requires i < |Encoding(n)|
    ensures Continues(Encoding(n)[i]) <==> i < |Encoding(n)| - 1
  {
    if n >= 128 && i > 0 {
      OnlyLastByteEnds(n / 128, i - 1);
    }
  }

  /** No byte sequence that decodes to a number is shorter than its encoding. */
  lemma {:induction false} EncodingIsShortest(n: nat, bs: seq<byte>)
    requires Decode(bs) == Some((n, []))
    ensures |Encoding(n)| <= |bs|
    decreases |bs|
  {
    if Continues(bs[0]) {
      var m := Decode(bs[1..]).value.0;
      EncodingIsShortest(m, bs[1..]);
      assert n / 128 == m;
    }
  }

  function Power128(k: nat): nat {
    if k == 0 then 1 else 128 * Power128(k - 1)
  }

  lemma {:induction false} EncodingLength(n: nat, k: nat)
    requires k > 0 && n < Power128(k)
    ensures |Encoding(n)| <= k
  {
    if n >= 128 {
      assert Power128(1) == 128;
      EncodingLength(n / 128, k - 1);
    }
  }

  lemma Uint64FitsTenBytes(n: uint64)
    ensures |Encoding(n)| <= 10
  {
    assert Power128(5) == 128 * 128 * 128 * 128 * 128;
    assert Power128(10) == 128 * 128 * 128 * 128 * 128 * Power128(5);
    EncodingLength(n, 10);
  }

  method U64ToLEB128(n: uint64) returns (out: seq<byte>)
    ensures out == Encoding(n)
    ensures |out| <= 10 && Decode(out) == Some((n as nat, []))
  {
    out := [];
    var rest: nat := n;
    var more := true;
    while more
      invariant more ==> out + Encoding(rest) == Encoding(n)
      invariant !more ==> out == Encoding(n)
      decreases more, rest
    {
      var b := rest % 128;
      var shifted := rest / 128;
      if shifted == 0 {
        more := false;
      } else {
        b := b + 0x80;
      }
      assert Encoding(rest) == [b] + if more then Encoding(shifted) else [];
      out := out + [b];
      rest := shifted;
    }
    Uint64FitsTenBytes(n);
    DecodeUndoesEncode(n, []);
    assert Encoding(n) + [] == Encoding(n);
  }
}
