/** The data of an answer to another shard: hexadecimal fields, each behind a separator. */
module AnswerText {
  import opened Wrappers
  import opened Types

  const SEPARATOR := '@'

  function HexDigit(n: nat): char
    requires n < 16
  {
    "0123456789abcdef"[n]
  }

  function Hex(s: Bytes): Bytes {
    if s == "" then "" else [HexDigit(s[0] as int / 16 % 16), HexDigit(s[0] as int % 16)] + Hex(s[1..])
  }

  function JoinData(data: seq<Bytes>): Bytes
    decreases |data|
  {
    if data == [] then "" else [SEPARATOR] + Hex(data[0]) + JoinData(data[1..])
  }

  lemma FirstField(field: Bytes, data: seq<Bytes>)
    ensures [SEPARATOR] + Hex(field) + JoinData(data[0..]) == JoinData([field] + data)
  {
    assert ([field] + data)[1..] == data == data[0..];
  }

  lemma NextField(text: Bytes, data: seq<Bytes>, i: nat)
    requires i < |data|
    ensures text + JoinData(data[i..]) == text + ([SEPARATOR] + Hex(data[i])) + JoinData(data[i + 1..])
  {
    assert data[i..][1..] == data[i + 1..];
  }

  // ---------------------------------------------------------------- reading an answer

  function DigitValue(c: char): Option<nat> {
    if '0' <= c <= '9' then Some(c as int - '0' as int)
    else if 'a' <= c <= 'f' then Some(c as int - 'a' as int + 10) else None
  }

  function Unhex(s: Bytes): Option<Bytes> {
    if s == "" then Some("")
    else if |s| == 1 then None
    else
      var (high, low, rest) := (DigitValue(s[0]), DigitValue(s[1]), Unhex(s[2..]));
      if high.Some? && low.Some? && rest.Some? && high.value < 16 && low.value < 16
      then Some([(high.value * 16 + low.value) as char] + rest.value) else None
  }

  /** The part up to the next separator. */
  function FieldLength(s: Bytes): (n: nat)
    ensures n <= |s| && SEPARATOR !in s[..n] && (n < |s| ==> s[n] == SEPARATOR)
  {
    if s == "" || s[0] == SEPARATOR then 0 else
      var n := FieldLength(s[1..]);
      assert s[..n + 1] == [s[0]] + s[1..][..n];
      n + 1
  }

  /** Every field behind its separator, decoded. */
  function ReadAnswer(s: Bytes): Option<seq<Bytes>>
    decreases |s|
  {
    if s == "" then Some([])
    else if s[0] != SEPARATOR then None
    else
      var n := FieldLength(s[1..]);
      var (field, rest) := (Unhex(s[1..][..n]), ReadAnswer(s[1..][n..]));
      if field.Some? && rest.Some? then Some([field.value] + rest.value) else None
  }

  predicate IsBytes(s: Bytes) {
    forall i :: 0 <= i < |s| ==> s[i] as int < 256
  }

  lemma DigitsReadBack(n: nat)
    requires n < 16
    ensures DigitValue(HexDigit(n)) == Some(n) && HexDigit(n) != SEPARATOR
  {
  }

  lemma UnhexStep(high: nat, low: nat, s: Bytes)
    requires high < 16 && low < 16
    ensures var t := [HexDigit(high), HexDigit(low)] + s;
      Unhex(t) == if Unhex(s).Some? then Some([(high * 16 + low) as char] + Unhex(s).value) else None
  {
    hide HexDigit, DigitValue;
    DigitsReadBack(high);
    DigitsReadBack(low);
    assert ([HexDigit(high), HexDigit(low)] + s)[2..] == s;
  }

  lemma {:induction false} UnhexUndoesHex(s: Bytes)
    requires IsBytes(s)
    ensures Unhex(Hex(s)) == Some(s) && SEPARATOR !in Hex(s)
  {
    hide Unhex, HexDigit;
    if s == "" {
      assert Unhex("") == Some("") by { NothingToUnhex(); }
    } else {
      var c := s[0] as int;
      UnhexUndoesHex(s[1..]);
      DigitsReadBack(c / 16 % 16);
      DigitsReadBack(c % 16);
      UnhexStep(c / 16 % 16, c % 16, Hex(s[1..]));
      assert [s[0]] + s[1..] == s;
    }
  }

  lemma NothingToUnhex()
    ensures Unhex("") == Some("")
  {
  }

  lemma {:induction false} FieldEnds(field: Bytes, rest: Bytes)
    requires SEPARATOR !in field && (rest == "" || rest[0] == SEPARATOR)
    ensures FieldLength(field + rest) == |field|
  {
    if field != "" {
      assert (field + rest)[1..] == field[1..] + rest;
      FieldEnds(field[1..], rest);
    } else {
      assert field + rest == rest;
    }
  }

  /** The receiver can read back the return code and all data, empty ones included. */
  lemma {:induction false} ReadUndoesJoin(data: seq<Bytes>)
    requires forall i :: 0 <= i < |data| ==> IsBytes(data[i])
    ensures ReadAnswer(JoinData(data)) == Some(data)
    decreases |data|
  {
    hide Hex, Unhex, FieldLength;
    if data != [] {
      var field, rest := Hex(data[0]), JoinData(data[1..]);
      UnhexUndoesHex(data[0]);
      ReadUndoesJoin(data[1..]);
      FieldEnds(field, rest);
      var s := JoinData(data);
      assert s[1..] == field + rest;
      assert s[1..][..|field|] == field && s[1..][|field|..] == rest;
      assert [data[0]] + data[1..] == data;
    }
  }
}
