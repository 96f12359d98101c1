/** The text codecs the invite token is made of: Base58 (draft-msporny-base58, sections 3 and 4),
    lower-case hex (section 8 of RFC 4648), unsigned 64-bit decimals and colon-separated fields. */
module Codecs {
  import opened Basics
  import opened Numerals

  const U64_LIMIT: nat := 0x1_0000_0000_0000_0000

  // ---- Base58 ----

  /** The alphabet leaves out `0`, `I`, `O` and `l`. */
  function Base58Char(d: nat): char
    requires d < 58
  {
    if d < 9 then ('1' as int + d) as char
    else if d < 17 then ('A' as int + d - 9) as char
    else if d < 22 then ('J' as int + d - 17) as char
    else if d < 33 then ('P' as int + d - 22) as char
    else if d < 44 then ('a' as int + d - 33) as char
    else ('m' as int + d - 44) as char
  }

  function Base58Digit(c: char): (d: Option<nat>)
    ensures d.Some? ==> d.value < 58 && Base58Char(d.value) == c
  {
    if '1' <= c <= '9' then Some(c as int - '1' as int)
    else if 'A' <= c <= 'H' then Some(c as int - 'A' as int + 9)
    else if 'J' <= c <= 'N' then Some(c as int - 'J' as int + 17)
    else if 'P' <= c <= 'Z' then Some(c as int - 'P' as int + 22)
    else if 'a' <= c <= 'k' then Some(c as int - 'a' as int + 33)
    else if 'm' <= c <= 'z' then Some(c as int - 'm' as int + 44)
    else None
  }

  function Base58Text(ds: seq<nat>): (s: string)
    requires IsNumeral(58, ds)
    ensures |s| == |ds|
  {
    if ds == [] then "" else [Base58Char(ds[0])] + Base58Text(ds[1..])
  }

  function Base58Digits(s: string): (r: Option<seq<nat>>)
    ensures r.Some? ==> IsNumeral(58, r.value) && Base58Text(r.value) == s
  {
    if s == "" then Some([])
    else match (Base58Digit(s[0]), Base58Digits(s[1..]))
      case (Some(d), Some(ds)) =>
        assert ([d] + ds)[1..] == ds;
        Some([d] + ds)
      case _ => None
  }

  function ToBase58(bs: Bytes): (s: string) { Base58Text(Rebase(256, 58, bs)) }

  function FromBase58(s: string): Option<Bytes> {
    match Base58Digits(s)
    case None => None
    case Some(ds) => Some(Rebase(58, 256, ds))
  }

  lemma {:induction false} TextDigits(ds: seq<nat>)
    requires IsNumeral(58, ds)
    ensures Base58Digits(Base58Text(ds)) == Some(ds)
  {
    if ds != [] {
      hide Base58Char, Base58Digit;
      CharDigit(ds[0]);
      TextDigits(ds[1..]);
      assert Base58Text(ds)[1..] == Base58Text(ds[1..]);
      assert ds == [ds[0]] + ds[1..];
    }
  }

  lemma CharDigit(d: nat)
    requires d < 58
    ensures Base58Digit(Base58Char(d)) == Some(d)
  {
  }

  /** Base58 loses nothing, leading zero bytes included. */
  lemma Base58RoundTrip(bs: Bytes)
    ensures FromBase58(ToBase58(bs)) == Some(bs)
  {
    TextDigits(Rebase(256, 58, bs));
    RebaseRoundTrip(256, 58, bs);
  }

  /** Every Base58 text is the encoding of the bytes it decodes to. */
  lemma Base58Canonical(s: string)
    requires FromBase58(s).Some?
    ensures ToBase58(FromBase58(s).value) == s
  {
    RebaseRoundTrip(58, 256, Base58Digits(s).value);
  }

  /** A text with a character outside the alphabet is no Base58. */
  lemma {:induction false} NotBase58(s: string, i: nat)
    requires i < |s| && Base58Digit(s[i]) == None
    ensures FromBase58(s) == None
  {
    NoDigits(s, i);
  }

  lemma {:induction false} NoDigits(s: string, i: nat)
    requires i < |s| && Base58Digit(s[i]) == None
    ensures Base58Digits(s) == None
  {
    if i > 0 { NoDigits(s[1..], i - 1); }
  }

  lemma Base58Injective(a: Bytes, b: Bytes)
    requires ToBase58(a) == ToBase58(b)
    ensures a == b
  {
    Base58RoundTrip(a);
    Base58RoundTrip(b);
  }

  // ---- hex ----

  function HexChar(d: nat): char
    requires d < 16
  {
    if d < 10 then ('0' as int + d) as char else ('a' as int + d - 10) as char
  }

  function HexDigit(c: char): (d: Option<nat>)
    ensures d.Some? ==> d.value < 16
  {
    if '0' <= c <= '9' then Some(c as int - '0' as int)
    else if 'a' <= c <= 'f' then Some(c as int - 'a' as int + 10)
    else if 'A' <= c <= 'F' then Some(c as int - 'A' as int + 10)
    else None
  }

  function ToHex(bs: Bytes): (s: string)
    ensures |s| == 2 * |bs|
    ensures ':' !in s
  {
    if bs == [] then "" else [HexChar(bs[0] / 16), HexChar(bs[0] % 16)] + ToHex(bs[1..])
  }

  /** Accepts both cases; an odd length or any other character is an error. */
  function FromHex(s: string): (r: Option<Bytes>) {
    if s == "" then Some([])
    else if |s| == 1 then None
    else match (HexDigit(s[0]), HexDigit(s[1]), FromHex(s[2..]))
      case (Some(high), Some(low), Some(bs)) => Some([high * 16 + low] + bs)
      case _ => None
  }

  lemma {:induction false} HexRoundTrip(bs: Bytes)
    ensures FromHex(ToHex(bs)) == Some(bs)
  {
    if bs != [] {
      HexRoundTrip(bs[1..]);
      assert ToHex(bs)[2..] == ToHex(bs[1..]);
      assert bs == [bs[0]] + bs[1..];
    }
  }

  // ---- decimal ----

  function DecimalText(ds: seq<nat>): (s: string)
    requires IsNumeral(10, ds)
    ensures |s| == |ds| && forall i :: 0 <= i < |s| ==> '0' <= s[i] <= '9'
  {
    if ds == [] then "" else [('0' as int + ds[0]) as char] + DecimalText(ds[1..])
  }

  function DecimalDigits(s: string): (r: Option<seq<nat>>) {
    if s == "" then Some([])
    else if '0' <= s[0] <= '9' && DecimalDigits(s[1..]).Some? then
      Some([s[0] as int - '0' as int] + DecimalDigits(s[1..]).value)
    else None
  }

  function PrintNat(n: nat): (s: string)
    ensures ':' !in s
  {
    if n == 0 then "0" else DecimalText(Digits(10, n))
  }

  /** Rust's `u64` parser: an optional `+`, at least one digit, nothing but digits, below 2^64. */
  function ParseU64(s: string): (r: Option<nat>)
    ensures r.Some? ==> r.value < U64_LIMIT
  {
    var body := if s != "" && s[0] == '+' then s[1..] else s;
    if body == "" then None
    else match DecimalDigits(body)
      case None => None
      case Some(ds) => if Value(10, ds) < U64_LIMIT then Some(Value(10, ds)) else None
  }

  lemma {:induction false} DecimalTextDigits(ds: seq<nat>)
    requires IsNumeral(10, ds)
    ensures DecimalDigits(DecimalText(ds)) == Some(ds)
  {
    if ds != [] {
      DecimalTextDigits(ds[1..]);
      assert DecimalText(ds)[1..] == DecimalText(ds[1..]);
      assert ds == [ds[0]] + ds[1..];
    }
  }

  lemma DecimalRoundTrip(n: nat)
    requires n < U64_LIMIT
    ensures ParseU64(PrintNat(n)) == Some(n)
  {
    var ds := if n == 0 then [0] else Digits(10, n);
    assert n == 0 ==> DecimalText([0]) == "0" by { assert [0][1..] == []; }
    DecimalTextDigits(ds);
    ValueOfDigits(10, n);
    assert n == 0 ==> Value(10, ds) == 0 by { assert [0][..0] == []; }
  }

  // ---- fields ----

  /** Up to `n` fields; the last one keeps any further separators. */
  function SplitN(s: string, n: nat): (fields: seq<string>)
    requires n > 0
    ensures 1 <= |fields| <= n
    ensures forall i :: 0 <= i < |fields| && i < n - 1 ==> ':' !in fields[i]
    decreases n
  {
    if n == 1 || ':' !in s then [s]
    else [Before(s)] + SplitN(s[|Before(s)| + 1..], n - 1)
  }

  /** The text before the first colon. */
  function Before(s: string): (p: string)
    ensures ':' !in p && p <= s
    ensures ':' in s ==> |p| < |s| && s[|p|] == ':'
    ensures ':' !in s ==> p == s
  {
    if s == "" || s[0] == ':' then "" else [s[0]] + Before(s[1..])
  }

  lemma {:induction false} BeforeColon(field: string, rest: string)
    requires ':' !in field
    ensures Before(field + ":" + rest) == field
  {
    var s := field + ":" + rest;
    if field != "" {
      assert s[1..] == field[1..] + ":" + rest;
      BeforeColon(field[1..], rest);
      assert field == [field[0]] + field[1..];
    } else {
      assert s[0] == ':';
    }
  }

  lemma SplitFirst(field: string, rest: string, n: nat)
    requires ':' !in field && n > 1
    ensures SplitN(field + ":" + rest, n) == [field] + SplitN(rest, n - 1)
  {
    var s := field + ":" + rest;
    BeforeColon(field, rest);
    assert s[|field|] == ':';
    assert s[|field| + 1..] == rest;
  }

  // ---- the alphabets, and what the texts mean ----

  const BASE58 := "123456789" + "ABCDEFGH" + "JKLMN" + "PQRSTUVWXYZ" + "abcdefghijk" + "mnopqrstuvwxyz"

  lemma Base58Alphabet(d: nat)
    requires d < 58
    ensures |BASE58| == 58 && Base58Char(d) == BASE58[d]
  {
    if d < 9 { assert BASE58[d] == "123456789"[d]; }
    else if d < 17 { assert BASE58[d] == "ABCDEFGH"[d - 9]; }
    else if d < 22 { assert BASE58[d] == "JKLMN"[d - 17]; }
    else if d < 33 { assert BASE58[d] == "PQRSTUVWXYZ"[d - 22]; }
    else if d < 44 { assert BASE58[d] == "abcdefghijk"[d - 33]; }
    else { assert BASE58[d] == "mnopqrstuvwxyz"[d - 44]; }
  }

  /** The Base58 text of some bytes, digit by digit in its alphabet, is the same number as the bytes, big end
      first, and has a `1` in front for each zero byte in front. */
  lemma Base58Means(bs: Bytes)
    ensures var ds := Rebase(256, 58, bs); var s := ToBase58(bs);
      && |s| == |ds| && (forall i :: 0 <= i < |s| ==> ds[i] < 58 && s[i] == BASE58[ds[i]])
      && Value(58, ds) == Value(256, bs) && CountZeros(ds) == CountZeros(bs)
  {
    var ds := Rebase(256, 58, bs);
    RebaseMeans(256, 58, bs);
    hide Rebase, Value, CountZeros;
    Base58Spelled(ds);
  }

  lemma {:induction false} Base58Spelled(ds: seq<nat>)
    requires IsNumeral(58, ds)
    ensures forall i :: 0 <= i < |ds| ==> Base58Text(ds)[i] == BASE58[ds[i]]
  {
    if ds != [] {
      Base58Spelled(ds[1..]);
      Base58Alphabet(ds[0]);
    }
  }

  /** A text is Base58 exactly if it keeps to the alphabet. */
  lemma {:induction false} Base58Accepts(s: string)
    ensures FromBase58(s).Some? <==> forall i :: 0 <= i < |s| ==> s[i] in BASE58
  {
    Base58Letters(s);
  }

  lemma {:induction false} Base58Letters(s: string)
    ensures Base58Digits(s).Some? <==> forall i :: 0 <= i < |s| ==> s[i] in BASE58
  {
    if s != "" {
      Base58Letters(s[1..]);
      Base58Letter(s[0]);
      assert (forall i :: 0 <= i < |s| ==> s[i] in BASE58)
          <==> s[0] in BASE58 && forall i :: 0 <= i < |s| - 1 ==> s[1..][i] in BASE58 by {
        assert forall i :: 1 <= i < |s| ==> s[i] == s[1..][i - 1];
      }
    }
  }

  lemma Base58Letter(c: char)
    ensures Base58Digit(c).Some? <==> c in BASE58
  {
    if Base58Digit(c).Some? { Base58Alphabet(Base58Digit(c).value); }
    if c in BASE58 {
      var d :| 0 <= d < 58 && BASE58[d] == c;
      Base58Alphabet(d);
    }
  }

  const HEX_LOWER := "0123456789abcdef"
  const HEX_UPPER := "0123456789ABCDEF"

  /** The hex text is two lower-case digits a byte, and it is read back in upper case as well. */
  lemma {:induction false} HexMeans(bs: Bytes)
    ensures |ToHex(bs)| == 2 * |bs|
    ensures forall i :: 0 <= i < |bs| ==>
      ToHex(bs)[2 * i] == HEX_LOWER[bs[i] / 16] && ToHex(bs)[2 * i + 1] == HEX_LOWER[bs[i] % 16]
  {
    if bs != [] {
      HexMeans(bs[1..]);
      HexLetters(bs[0] / 16);
      HexLetters(bs[0] % 16);
      forall i | 0 <= i < |bs|
        ensures ToHex(bs)[2 * i] == HEX_LOWER[bs[i] / 16] && ToHex(bs)[2 * i + 1] == HEX_LOWER[bs[i] % 16]
      {
        if i > 0 {
          assert ToHex(bs)[2 * i] == ToHex(bs[1..])[2 * (i - 1)];
          assert ToHex(bs)[2 * i + 1] == ToHex(bs[1..])[2 * (i - 1) + 1];
        }
      }
    }
  }

  lemma HexLetters(d: nat)
    requires d < 16
    ensures HexChar(d) == HEX_LOWER[d] && HexDigit(HEX_LOWER[d]) == HexDigit(HEX_UPPER[d]) == Some(d)
  {
  }

  function UpperHex(bs: Bytes): string {
    if bs == [] then "" else [HEX_UPPER[bs[0] / 16], HEX_UPPER[bs[0] % 16]] + UpperHex(bs[1..])
  }

  lemma {:induction false} HexEitherCase(bs: Bytes)
    ensures FromHex(UpperHex(bs)) == Some(bs)
  {
    if bs != [] {
      HexEitherCase(bs[1..]);
      HexLetters(bs[0] / 16);
      HexLetters(bs[0] % 16);
      OneByte(HEX_UPPER[bs[0] / 16], HEX_UPPER[bs[0] % 16], UpperHex(bs[1..]));
      assert bs == [bs[0]] + bs[1..];
    }
  }

  lemma OneByte(high: char, low: char, rest: string)
    requires HexDigit(high).Some? && HexDigit(low).Some?
    ensures FromHex([high, low] + rest)
         == match FromHex(rest)
            case None => None
            case Some(bs) => Some([HexDigit(high).value * 16 + HexDigit(low).value] + bs)
  {
    hide HexDigit;
    assert ([high, low] + rest)[2..] == rest;
  }

  predicate AllDigits(s: string) { forall i :: 0 <= i < |s| ==> '0' <= s[i] <= '9' }

  /** The number a text of digits stands for. */
  function Number(s: string): nat
    requires AllDigits(s)
  {
    if s == "" then 0 else Number(s[..|s| - 1]) * 10 + (s[|s| - 1] as int - '0' as int)
  }

  lemma {:induction false} DigitsAreNumber(s: string)
    ensures DecimalDigits(s).Some? <==> AllDigits(s)
    ensures AllDigits(s) ==> (
      && |DecimalDigits(s).value| == |s|
      && forall i :: 0 <= i < |s| ==> DecimalDigits(s).value[i] == s[i] as int - '0' as int)
  {
    if s != "" {
      DigitsAreNumber(s[1..]);
      assert AllDigits(s) <==> '0' <= s[0] <= '9' && AllDigits(s[1..]) by {
        assert forall i :: 1 <= i < |s| ==> s[i] == s[1..][i - 1];
      }
    }
  }

  lemma {:induction false} NumberOfDigits(s: string, ds: seq<nat>)
    requires AllDigits(s) && |ds| == |s| && forall i :: 0 <= i < |s| ==> ds[i] == s[i] as int - '0' as int
    ensures Value(10, ds) == Number(s)
  {
    if s != "" {
      NumberOfDigits(s[..|s| - 1], ds[..|s| - 1]);
    }
  }

  /** A text is read as a 64-bit number exactly if it is digits, with or without a plus in front, at least
      one, and stands for less than 2^64; leading zeros are no matter. */
  lemma ParseU64Exactly(s: string)
    ensures var body := if s != "" && s[0] == '+' then s[1..] else s;
      ParseU64(s) == if body != "" && AllDigits(body) && Number(body) < 18446744073709551616
                     then Some(Number(body)) else None
  {
    hide Value, Number;
    var body := if s != "" && s[0] == '+' then s[1..] else s;
    DigitsAreNumber(body);
    if AllDigits(body) { NumberOfDigits(body, DecimalDigits(body).value); }
  }

  /** The printed number is digits that stand for it, without a zero in front. */
  lemma PrintNatMeans(n: nat)
    ensures AllDigits(PrintNat(n)) && Number(PrintNat(n)) == n && PrintNat(n) != ""
    ensures |PrintNat(n)| > 1 ==> PrintNat(n)[0] != '0'
  {
    if n == 0 {
      assert "0"[..0] == "";
      assert Number("0") == 0;
    } else {
      var ds := Digits(10, n);
      ValueOfDigits(10, n);
      DecimalSpelled(ds);
      NumberOfDigits(PrintNat(n), ds);
    }
  }

  lemma {:induction false} DecimalSpelled(ds: seq<nat>)
    requires IsNumeral(10, ds)
    ensures forall i :: 0 <= i < |ds| ==> DecimalText(ds)[i] as int - '0' as int == ds[i]
  {
    if ds != [] { DecimalSpelled(ds[1..]); }
  }
}
