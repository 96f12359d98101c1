/** UTF-8 as sections 3 and 4 of RFC 3629 define it. A Dafny `char` is a Unicode scalar value, so a
    `string` here is exactly a Rust `String`. */
module Utf8 {
  import opened Basics

  function EncodeChar(c: char): (bs: Bytes)
    ensures 1 <= |bs| <= 4
  {
    var n := c as int;
    var q, r := n / 0x40, 0x80 + n % 0x40;
    if n < 0x80 then [n]
    else if n < 0x800 then [0xC0 + q, r]
    else if n < 0x1_0000 then [0xE0 + q / 0x40, 0x80 + q % 0x40, r]
    else [0xF0 + q / 0x40 / 0x40, 0x80 + q / 0x40 % 0x40, 0x80 + q % 0x40, r]
  }

  predicate Tail(b: Byte) { 0x80 <= b <= 0xBF }

  /** The number of bytes of the well-formed sequence at the head of `bs` (the UTF8-char rule of
      section 4), or 0 when there is none: no overlong forms, no surrogates, nothing above U+10FFFF. */
  function CharLen(bs: Bytes): (k: nat)
    ensures k <= |bs| && k <= 4
  {
    if |bs| >= 1 && bs[0] < 0x80 then 1
    else if |bs| >= 2 && 0xC2 <= bs[0] <= 0xDF && Tail(bs[1]) then 2
    else if |bs| >= 3 && Tail(bs[1]) && Tail(bs[2]) && (
      || (bs[0] == 0xE0 && 0xA0 <= bs[1])
      || 0xE1 <= bs[0] <= 0xEC
      || (bs[0] == 0xED && bs[1] <= 0x9F)
      || 0xEE <= bs[0] <= 0xEF) then 3
    else if |bs| >= 4 && Tail(bs[1]) && Tail(bs[2]) && Tail(bs[3]) && (
      || (bs[0] == 0xF0 && 0x90 <= bs[1])
      || 0xF1 <= bs[0] <= 0xF3
      || (bs[0] == 0xF4 && bs[1] <= 0x8F)) then 4
    else 0
  }

  /** The scalar value of the well-formed sequence at the head of `bs`. */
  function HeadChar(bs: Bytes): (c: char)
    requires CharLen(bs) > 0
  {
    match CharLen(bs)
    case 1 => bs[0] as char
    case 2 => Push(bs[0] as int - 0xC0, bs[1]) as char
    case 3 => Push(Push(bs[0] as int - 0xE0, bs[1]), bs[2]) as char
    case _ => Push(Push(Push(bs[0] as int - 0xF0, bs[1]), bs[2]), bs[3]) as char
  }

  /** Appends the six payload bits of a continuation byte. */
  function Push(n: int, tail: Byte): int {
    n * 0x40 + tail as int - 0x80
  }

  function Encode(s: string): (bs: Bytes) {
    if s == "" then [] else EncodeChar(s[0]) + Encode(s[1..])
  }

  function Decode(bs: Bytes): (r: Option<string>)
    decreases |bs|
  {
    if bs == [] then Some("")
    else if CharLen(bs) == 0 then None
    else match Decode(bs[CharLen(bs)..])
      case None => None
      case Some(rest) => Some([HeadChar(bs)] + rest)
  }

  lemma EncodedCharLen(c: char, rest: Bytes)
    ensures CharLen(EncodeChar(c) + rest) == |EncodeChar(c)|
    ensures HeadChar(EncodeChar(c) + rest) == c
  {
    var n := c as int;
    var bs := EncodeChar(c) + rest;
    assert bs[0] == EncodeChar(c)[0];
    if n >= 0x80 { assert bs[1] == EncodeChar(c)[1]; }
    if n >= 0x800 { assert bs[2] == EncodeChar(c)[2]; }
    if n >= 0x1_0000 { assert bs[3] == EncodeChar(c)[3]; }
  }

  lemma PushSplits(n: nat, tail: Byte)
    requires Tail(tail)
    ensures Push(n, tail) / 0x40 == n && 0x80 + Push(n, tail) % 0x40 == tail
  {
  }

  lemma HeadCharEncodes(bs: Bytes)
    requires CharLen(bs) > 0
    ensures EncodeChar(HeadChar(bs)) == bs[..CharLen(bs)]
  {
    var n := HeadChar(bs) as int;
    match CharLen(bs)
    case 1 =>
    case 2 =>
      PushSplits(bs[0] - 0xC0, bs[1]);
      assert EncodeChar(n as char) == [bs[0], bs[1]];
    case 3 =>
      PushSplits(bs[0] - 0xE0, bs[1]);
      PushSplits(Push(bs[0] as int - 0xE0, bs[1]), bs[2]);
      assert EncodeChar(n as char) == [bs[0], bs[1], bs[2]];
    case _ =>
      PushSplits(bs[0] - 0xF0, bs[1]);
      PushSplits(Push(bs[0] as int - 0xF0, bs[1]), bs[2]);
      PushSplits(Push(Push(bs[0] as int - 0xF0, bs[1]), bs[2]), bs[3]);
      assert EncodeChar(n as char) == [bs[0], bs[1], bs[2], bs[3]];
  }

  /** Every string survives encoding. */
  lemma {:induction false} RoundTrip(s: string)
    ensures Decode(Encode(s)) == Some(s)
  {
    if s != "" {
      var head, rest := EncodeChar(s[0]), Encode(s[1..]);
      EncodedCharLen(s[0], rest);
      assert (head + rest)[|head|..] == rest;
      RoundTrip(s[1..]);
      assert s == [s[0]] + s[1..];
    }
  }

  /** Every accepted byte sequence is the encoding of the string it decodes to. */
  lemma {:induction false} Canonical(bs: Bytes)
    requires Decode(bs).Some?
    ensures Encode(Decode(bs).value) == bs
    decreases |bs|
  {
    if bs != [] {
      var k := CharLen(bs);
      Canonical(bs[k..]);
      HeadCharEncodes(bs);
      var s := Decode(bs).value;
      assert s[1..] == Decode(bs[k..]).value;
      assert bs == bs[..k] + bs[k..];
    }
  }

  lemma {:induction false} EncodeAppend(s: string, t: string)
    ensures Encode(s + t) == Encode(s) + Encode(t)
  {
    if s == "" {
      assert s + t == t;
    } else {
      assert (s + t)[1..] == s[1..] + t;
      EncodeAppend(s[1..], t);
    }
  }

  /** The byte has the high bits `mark` and `bits` free ones. */
  predicate Bits(b: Byte, mark: int, bits: nat) {
    mark <= b as int < mark + (if bits == 6 then 64 else if bits == 5 then 32 else if bits == 4 then 16 else 8)
  }

  /** The table of section 3 of RFC 3629: how many bytes a character takes, what they look like, and that
      their payload bits make up its number. */
  lemma EncodedForm(c: char)
    ensures var bs, n := EncodeChar(c), c as int;
      && |bs| == (if n <= 0x7F then 1 else if n <= 0x7FF then 2 else if n <= 0xFFFF then 3 else 4)
      && (|bs| == 1 ==> bs[0] as int == n)
      && (|bs| == 2 ==> Bits(bs[0], 0xC0, 5) && Bits(bs[1], 0x80, 6))
      && (|bs| == 3 ==> Bits(bs[0], 0xE0, 4) && Bits(bs[1], 0x80, 6) && Bits(bs[2], 0x80, 6))
      && (|bs| == 4 ==> Bits(bs[0], 0xF0, 3) && Bits(bs[1], 0x80, 6) && Bits(bs[2], 0x80, 6) && Bits(bs[3], 0x80, 6))
      && (|bs| == 2 ==> (bs[0] as int - 0xC0) * 64 + (bs[1] as int - 0x80) == n)
      && (|bs| == 3 ==> ((bs[0] as int - 0xE0) * 64 + (bs[1] as int - 0x80)) * 64 + (bs[2] as int - 0x80) == n)
      && (|bs| == 4 ==> (((bs[0] as int - 0xF0) * 64 + (bs[1] as int - 0x80)) * 64 + (bs[2] as int - 0x80)) * 64
                        + (bs[3] as int - 0x80) == n)
  {
  }

  /** A byte sequence decodes exactly if it is the encoding of some string. */
  lemma DecodesExactly(bs: Bytes)
    ensures Decode(bs).Some? <==> exists s :: Encode(s) == bs
  {
    if Decode(bs).Some? {
      Canonical(bs);
    }
    forall s | Encode(s) == bs ensures Decode(bs).Some? {
      RoundTrip(s);
    }
  }
}
