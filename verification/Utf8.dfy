/** UTF-8 (section 3 of RFC 3629): one to four bytes per character. */
module Utf8 {
  import opened Basics
  import opened FileSystem

  function Width(c: char): (n: nat)
    ensures 1 <= n <= 4
  {
    var v := c as int;
    if v < 0x80 then 1 else if v < 0x800 then 2 else if v < 0x10000 then 3 else 4
  }

  function EncodeChar(c: char): (r: Bytes)
    ensures |r| == Width(c)
  {
    var v := c as int;
    if v < 0x80 then [v as Byte]
    else if v < 0x800 then [(0xC0 + v / 0x40) as Byte, (0x80 + v % 0x40) as Byte]
    else if v < 0x10000 then
      [(0xE0 + v / 0x1000) as Byte, (0x80 + v / 0x40 % 0x40) as Byte, (0x80 + v % 0x40) as Byte]
    else
      [(0xF0 + v / 0x40000) as Byte, (0x80 + v / 0x1000 % 0x40) as Byte,
       (0x80 + v / 0x40 % 0x40) as Byte, (0x80 + v % 0x40) as Byte]
  }

  function Encode(s: string): Bytes {
    if s == "" then [] else EncodeChar(s[0]) + Encode(s[1..])
  }

  function Length(s: string): nat {
    if s == "" then 0 else Width(s[0]) + Length(s[1..])
  }

  lemma {:induction false} EncodedLength(s: string)
    ensures |Encode(s)| == Length(s)
  {
    if s != "" { EncodedLength(s[1..]); }
  }

  predicate Continuation(b: Byte) { 0x80 <= b < 0xC0 }

  /** The length of the sequence a leading byte announces; 0 for a byte that cannot lead. */
  function Announced(b: Byte): nat {
    if b < 0x80 then 1
    else if b < 0xC0 then 0
    else if b < 0xE0 then 2
    else if b < 0xF0 then 3
    else if b < 0xF8 then 4 else 0
  }

  /** The character encoded by the first bytes of `raw`, if they are the encoding of one. */
  function First(raw: Bytes): Option<char> {
    if raw == [] || Announced(raw[0]) == 0 || Announced(raw[0]) > |raw| then None
    else
      var v := Value(raw[..Announced(raw[0])]);
      if (0 <= v < 0xD800 || 0xE000 <= v < 0x11_0000) && EncodeChar(v as char) == raw[..Announced(raw[0])]
      then Some(v as char) else None
  }

  /** The number in the payload bits of one to four bytes. */
  function Value(r: Bytes): int
    requires 1 <= |r| <= 4
  {
    if |r| == 1 then r[0] as int
    else if |r| == 2 then (r[0] as int - 0xC0) * 0x40 + r[1] as int - 0x80
    else if |r| == 3 then (r[0] as int - 0xE0) * 0x1000 + (r[1] as int - 0x80) * 0x40 + r[2] as int - 0x80
    else (r[0] as int - 0xF0) * 0x40000 + (r[1] as int - 0x80) * 0x1000
         + (r[2] as int - 0x80) * 0x40 + r[3] as int - 0x80
  }

  /** The base-64 digits of a number make it up. */
  lemma Digits(v: nat)
    ensures v / 0x40 * 0x40 + v % 0x40 == v
    ensures v / 0x1000 * 0x1000 + v / 0x40 % 0x40 * 0x40 + v % 0x40 == v
    ensures v / 0x40000 * 0x40000 + v / 0x1000 % 0x40 * 0x1000 + v / 0x40 % 0x40 * 0x40 + v % 0x40 == v
  {
    assert v / 0x40 / 0x40 == v / 0x1000;
    assert v / 0x1000 / 0x40 == v / 0x40000;
  }

  lemma ValueOfEncoded(c: char)
    ensures Value(EncodeChar(c)) == c as int
    ensures Announced(EncodeChar(c)[0]) == Width(c)
  {
    Digits(c as int);
  }

  /** bytes.decode("utf-8", errors="ignore"): what does not start a character is passed over. */
  function Decode(raw: Bytes): string
    decreases |raw|
  {
    if raw == [] then ""
    else match First(raw)
    case Some(c) => if Width(c) <= |raw| then [c] + Decode(raw[Width(c)..]) else ""
    case None => Decode(raw[1..])
  }

  lemma FirstOfEncoded(c: char, rest: Bytes)
    ensures First(EncodeChar(c) + rest) == Some(c)
  {
    var raw := EncodeChar(c) + rest;
    assert raw[..Width(c)] == EncodeChar(c);
    assert raw[0] == EncodeChar(c)[0];
    ValueOfEncoded(c);
  }

  /** Continuation bytes alone decode to nothing. */
  lemma {:induction false} ContinuationsVanish(raw: Bytes)
    requires forall b <- raw :: Continuation(b)
    ensures Decode(raw) == ""
  {
    if raw != [] {
      assert raw[0] in raw;
      ContinuationsVanish(raw[1..]);
    }
  }

  /** So does a character cut short. */
  lemma CutCharacterVanishes(c: char, n: nat)
    requires n < Width(c)
    ensures Decode(EncodeChar(c)[..n]) == ""
  {
    var raw := EncodeChar(c)[..n];
    if n > 0 {
      assert raw[0] == EncodeChar(c)[0];
      assert Announced(raw[0]) == Width(c);
      assert First(raw) == None;
      forall b | b in raw[1..] ensures Continuation(b) {
        var i :| 0 <= i < |raw[1..]| && raw[1..][i] == b;
        assert b == EncodeChar(c)[i + 1];
      }
      ContinuationsVanish(raw[1..]);
    }
  }

  /** Cutting an encoding after `n` bytes and decoding gives the longest prefix that fits into `n` bytes. */
  lemma {:induction false} CutDecodes(s: string, n: nat) returns (k: nat)
    requires n <= |Encode(s)|
    ensures k <= |s| && Decode(Encode(s)[..n]) == s[..k] && Length(s[..k]) <= n
    ensures k < |s| ==> n < Length(s[..k]) + Width(s[k])
  {
    if s == "" {
      k := 0;
    } else if n < Width(s[0]) {
      k := 0;
      assert Encode(s)[..n] == EncodeChar(s[0])[..n];
      CutCharacterVanishes(s[0], n);
    } else {
      var w := Width(s[0]);
      var raw := Encode(s)[..n];
      var rest := Encode(s[1..])[..n - w];
      assert raw == EncodeChar(s[0]) + rest;
      FirstOfEncoded(s[0], rest);
      assert raw[w..] == rest;
      var j := CutDecodes(s[1..], n - w);
      k := j + 1;
      assert s[..k] == [s[0]] + s[1..][..j];
      assert s[..k][1..] == s[1..][..j];
      assert Decode(raw) == [s[0]] + Decode(rest);
    }
  }

  /** decode(encode(s)) == s. */
  lemma RoundTrip(s: string)
    ensures Decode(Encode(s)) == s
  {
    EncodedLength(s);
    var k := CutDecodes(s, |Encode(s)|);
    assert Encode(s)[..|Encode(s)|] == Encode(s);
    if k < |s| { LengthOfPrefix(s, k + 1); }
    assert s[..|s|] == s;
  }

  lemma {:induction false} LengthOfPrefix(s: string, k: nat)
    requires 0 < k <= |s|
    ensures Length(s[..k]) == Length(s[..k - 1]) + Width(s[k - 1]) <= Length(s)
  {
    assert s[..k][1..] == s[1..][..k - 1];
    if k > 1 {
      assert s[..k - 1][1..] == s[1..][..k - 2];
      LengthOfPrefix(s[1..], k - 1);
    }
  }
}
