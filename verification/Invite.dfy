/** `invite.rs`: the invite token and its validity window. The clock is a parameter. */
module Invite {
  import opened Basics
  import opened Codecs
  import Json
  import Utf8

  const NONCE_LEN := 16
  const MIN_ADDRESS_LEN := 56 + |ONION|
  const ONION := ".onion"
  const SKEW: nat := 300

  type U64 = n: nat | n < U64_LIMIT

  /** `suggested_name` is the optional display name; the nonce has sixteen bytes. */
  datatype InvitePayload = InvitePayload(address: string, nonce: Bytes, timestamp: U64, name: Option<string>)

  predicate WellFormed(p: InvitePayload) { |p.nonce| == 16 }

  function ValidateAddress(address: string): Option<InviteFault> {
    if !(|address| >= |ONION| && address[|address| - |ONION|..] == ONION) then Some(NoOnionSuffix)
    else if |Utf8.Encode(address)| < MIN_ADDRESS_LEN then Some(AddressTooShort)
    else None
  }

  function NamePart(name: Option<string>): string {
    match name
    case None => ""
    case Some(n) => n
  }

  /** The colon-joined text inside a token. */
  function Joined(p: InvitePayload): string {
    p.address + ":" + (ToHex(p.nonce) + ":" + (PrintNat(p.timestamp) + ":" + NamePart(p.name)))
  }

  function Encode(p: InvitePayload): Result<string, ChatError> {
    match ValidateAddress(p.address)
    case Some(fault) => Err(InvalidInvite(fault))
    case None => Ok(ToBase58(Utf8.Encode(Joined(p))))
  }

  /** `u64` addition as a release build performs it: it wraps. */
  function Add64(a: nat, b: nat): U64 { (a + b) % U64_LIMIT }

  /** Everything `decode` does before it looks at the clock. The Base58 decoder may have a `limit` on how
      many bytes it yields. */
  function Fields(token: string, limit: Option<nat>): Result<InvitePayload, ChatError> {
    if token == "" then Err(InvalidInvite(EmptyToken))
    else match FromBase58(token)
      case None => Err(InvalidInvite(BadBase58))
      case Some(bytes) =>
        if limit.Some? && |bytes| > limit.value then Err(InvalidInvite(BadBase58))
        else match Utf8.Decode(bytes)
          case None => Err(InvalidInvite(NotUtf8))
          case Some(text) => FromParts(SplitN(text, 4))
  }

  function FromParts(parts: seq<string>): Result<InvitePayload, ChatError> {
    if |parts| < 3 || |parts| > 4 then Err(InvalidInvite(FieldCount))
    else match ValidateAddress(parts[0])
      case Some(fault) => Err(InvalidInvite(fault))
      case None =>
        match FromHex(parts[1])
        case None => Err(InvalidInvite(BadNonceHex))
        case Some(nonce) =>
          if |nonce| != NONCE_LEN then Err(InvalidInvite(BadNonceLength))
          else match ParseU64(parts[2])
            case None => Err(InvalidInvite(BadTimestamp))
            case Some(timestamp) =>
              var name := if |parts| == 4 && parts[3] != "" then Some(parts[3]) else None;
              Ok(InvitePayload(parts[0], nonce, timestamp, name))
  }

  /** The clock checks, in the order and with the arithmetic of the code. */
  function ClockFault(timestamp: U64, now: U64, ttl: Option<U64>): Option<ChatError> {
    if timestamp > Add64(now, SKEW) then Some(InvalidInvite(FarFuture))
    else if ttl.Some? && ttl.value > 0 && now > Add64(timestamp, ttl.value) then Some(InviteExpired(timestamp))
    else None
  }

  function Decode(token: string, now: U64, ttl: Option<U64>, limit: Option<nat>): Result<InvitePayload, ChatError> {
    match Fields(token, limit)
    case Err(e) => Err(e)
    case Ok(p) =>
      match ClockFault(p.timestamp, now, ttl)
      case Some(e) => Err(e)
      case None => Ok(p)
  }

  // ---- the window ----

  /** The window the documentation promises: at most 300 seconds ahead of the clock, and not older
      than the time to live when there is one. */
  predicate InWindow(timestamp: nat, now: nat, ttl: Option<nat>) {
    timestamp <= now + 300 && (ttl.None? || ttl.value == 0 || now <= timestamp + ttl.value)
  }

  /** The two sums do not leave 64 bits, or wrap to where the check still passes. */
  predicate SumsHold(timestamp: nat, now: nat, ttl: Option<nat>) {
    && (now + 300 < TWO64 || timestamp <= now + 300 - TWO64)
    && (ttl.None? || ttl.value == 0 || timestamp + ttl.value < TWO64 || now <= timestamp + ttl.value - TWO64)
  }

  const TWO64 := 18446744073709551616

  lemma Add64Value(a: U64, b: U64)
    ensures Add64(a, b) == if a + b < U64_LIMIT then a + b else a + b - U64_LIMIT
  {
  }

  /** The code accepts a timestamp exactly when it lies in the promised window and neither sum wraps
      past the check. So it never accepts outside the window, and wrapping can only reject. */
  lemma WindowExact(timestamp: U64, now: U64, ttl: Option<U64>)
    ensures ClockFault(timestamp, now, ttl) == None <==> InWindow(timestamp, now, ttl) && SumsHold(timestamp, now, ttl)
  {
    Add64Value(now, SKEW);
    if ttl.Some? { Add64Value(timestamp, ttl.value); }
  }

  /** Which error an invite outside the window gets. */
  lemma WindowErrors(timestamp: U64, now: U64, ttl: Option<U64>)
    requires now + 300 < TWO64 && (ttl.Some? ==> timestamp + ttl.value < TWO64)
    ensures timestamp > now + 300 ==> ClockFault(timestamp, now, ttl) == Some(InvalidInvite(FarFuture))
    ensures timestamp <= now + 300 && !InWindow(timestamp, now, ttl)
        ==> ClockFault(timestamp, now, ttl) == Some(InviteExpired(timestamp))
  {
    Add64Value(now, SKEW);
    if ttl.Some? { Add64Value(timestamp, ttl.value); }
  }

  /** Wrapping does reject: a time to live near 2^64 makes a fresh invite look expired. */
  lemma HugeTtlExpires()
    ensures InWindow(1_700_000_000, 1_700_000_000, Some(U64_LIMIT - 1))
    ensures ClockFault(1_700_000_000, 1_700_000_000, Some(U64_LIMIT - 1)) == Some(InviteExpired(1_700_000_000))
  {
    Add64Value(1_700_000_000, U64_LIMIT - 1);
  }

  // ---- round trips ----

  lemma FourFields(a: string, b: string, c: string, d: string)
    requires ':' !in a && ':' !in b && ':' !in c
    ensures SplitN(a + ":" + (b + ":" + (c + ":" + d)), 4) == [a, b, c, d]
  {
    hide SplitN;
    SplitFirst(a, b + ":" + (c + ":" + d), 4);
    SplitFirst(b, c + ":" + d, 3);
    SplitFirst(c, d, 2);
    LastField(d);
  }

  lemma LastField(d: string)
    ensures SplitN(d, 1) == [d]
  {
  }

  lemma JoinedParts(p: InvitePayload)
    requires ':' !in p.address
    ensures SplitN(Joined(p), 4) == [p.address, ToHex(p.nonce), PrintNat(p.timestamp), NamePart(p.name)]
  {
    hide SplitN;
    FourFields(p.address, ToHex(p.nonce), PrintNat(p.timestamp), NamePart(p.name));
  }

  lemma TokenNotEmpty(text: string)
    requires text != ""
    ensures ToBase58(Utf8.Encode(text)) != ""
  {
    var bytes := Utf8.Encode(text);
    assert ToBase58([]) == "";
    if ToBase58(bytes) == "" {
      Base58Injective(bytes, []);
    }
  }

  lemma NonEmptyToken(p: InvitePayload)
    ensures ToBase58(Utf8.Encode(Joined(p))) != ""
  {
    assert Joined(p)[|p.address|] == ':';
    TokenNotEmpty(Joined(p));
  }

  /** The text of the payload's token stays within the Base58 decoder's limit. */
  predicate Fits(p: InvitePayload, limit: Option<nat>) {
    limit.Some? ==> |Utf8.Encode(Joined(p))| <= limit.value
  }

  /** Reading a token back gives what splitting its text gives. */
  lemma TokenText(p: InvitePayload, limit: Option<nat>)
    requires ValidateAddress(p.address) == None
    ensures Fields(Encode(p).value, limit)
         == if Fits(p, limit) then FromParts(SplitN(Joined(p), 4)) else Err(InvalidInvite(BadBase58))
  {
    NonEmptyToken(p);
    Base58RoundTrip(Utf8.Encode(Joined(p)));
    Utf8.RoundTrip(Joined(p));
  }

  lemma PartsRead(p: InvitePayload, hex: string, timestamp: string)
    requires WellFormed(p) && ValidateAddress(p.address) == None
    requires FromHex(hex) == Some(p.nonce) && ParseU64(timestamp) == Some(p.timestamp)
    ensures FromParts([p.address, hex, timestamp, NamePart(p.name)])
         == Ok(p.(name := if NamePart(p.name) == "" then None else p.name))
  {
  }

  lemma EncodedFields(p: InvitePayload, limit: Option<nat>)
    requires WellFormed(p) && ValidateAddress(p.address) == None && ':' !in p.address
    ensures Fields(Encode(p).value, limit)
         == if Fits(p, limit) then Ok(p.(name := if NamePart(p.name) == "" then None else p.name))
            else Err(InvalidInvite(BadBase58))
  {
    hide Fields, FromParts, ValidateAddress, ToHex, FromHex, PrintNat, ParseU64, SplitN;
    TokenText(p, limit);
    JoinedParts(p);
    HexRoundTrip(p.nonce);
    DecimalRoundTrip(p.timestamp);
    PartsRead(p, ToHex(p.nonce), PrintNat(p.timestamp));
  }

  lemma PartsHaveNoColon(parts: seq<string>)
    requires FromParts(parts).Ok?
    ensures |parts| >= 3
    ensures var p := FromParts(parts).value;
            WellFormed(p) && ValidateAddress(p.address) == None && p.address == parts[0] && p.name != Some("")
  {
    hide ValidateAddress, FromHex, ParseU64;
  }

  lemma FieldsHaveNoColon(token: string, limit: Option<nat>)
    requires Fields(token, limit).Ok?
    ensures WellFormed(Fields(token, limit).value) && ValidateAddress(Fields(token, limit).value.address) == None
    ensures ':' !in Fields(token, limit).value.address && Fields(token, limit).value.name != Some("")
  {
    hide FromParts, ValidateAddress, FromBase58, SplitN;
    PartsHaveNoColon(SplitN(Utf8.Decode(FromBase58(token).value).value, 4));
  }

  /** An encodable payload comes back from its own token if and only if its address has no colon, its
      name is not the empty string, its text fits the decoder's limit, and the clock checks pass. Names
      may contain colons. */
  lemma RoundTrip(p: InvitePayload, now: U64, ttl: Option<U64>, limit: Option<nat>)
    requires WellFormed(p) && Encode(p).Ok?
    ensures Decode(Encode(p).value, now, ttl, limit) == Ok(p)
       <==> (':' !in p.address && p.name != Some("") && Fits(p, limit) && ClockFault(p.timestamp, now, ttl) == None)
  {
    hide Fits;
    if ':' !in p.address {
      EncodedFields(p, limit);
    }
    if Decode(Encode(p).value, now, ttl, limit) == Ok(p) {
      FieldsHaveNoColon(Encode(p).value, limit);
    }
  }

  /** With a colon-free address and no empty name the only possible failures are the decoder's limit and
      those of the clock. */
  lemma RoundTripErrors(p: InvitePayload, now: U64, ttl: Option<U64>, limit: Option<nat>)
    requires WellFormed(p) && Encode(p).Ok? && ':' !in p.address && p.name != Some("")
    ensures Decode(Encode(p).value, now, ttl, limit)
         == if !Fits(p, limit) then Err(InvalidInvite(BadBase58))
            else match ClockFault(p.timestamp, now, ttl)
              case None => Ok(p)
              case Some(e) => Err(e)
  {
    hide Fits;
    EncodedFields(p, limit);
  }

  /** A payload of an address, zero bytes and no timestamp. */
  function Sample(address: string, name: Option<string>): InvitePayload {
    InvitePayload(address, seq(NONCE_LEN, _ => 0), 0, name)
  }

  lemma SampleEncodes(address: string, name: Option<string>)
    requires |address| >= MIN_ADDRESS_LEN && address[|address| - |ONION|..] == ONION
    requires forall i :: 0 <= i < |address| ==> address[i] as int < 0x80
    ensures WellFormed(Sample(address, name)) && Encode(Sample(address, name)).Ok?
  {
    Json.AsciiSize(address);
  }

  /** A colon in the address is let through by `encode`, and the token never gives the payload back. */
  lemma ColonIsLost(now: U64, ttl: Option<U64>, limit: Option<nat>)
    ensures var p := Sample(seq(56, _ => 'a') + ":" + ONION, None);
            WellFormed(p) && Encode(p).Ok? && Decode(Encode(p).value, now, ttl, limit) != Ok(p)
  {
    var address := seq(56, _ => 'a') + ":" + ONION;
    assert address[|address| - |ONION|..] == ONION && address[56] == ':';
    SampleEncodes(address, None);
    RoundTrip(Sample(address, None), now, ttl, limit);
  }

  /** An empty name comes back as no name. */
  lemma EmptyNameIsLost(now: U64, ttl: Option<U64>, limit: Option<nat>)
    ensures var p := Sample(seq(56, _ => 'a') + ONION, Some(""));
            WellFormed(p) && Encode(p).Ok? && Decode(Encode(p).value, now, ttl, limit) != Ok(p)
  {
    var address := seq(56, _ => 'a') + ONION;
    assert address[|address| - |ONION|..] == ONION;
    SampleEncodes(address, Some(""));
    RoundTrip(Sample(address, Some("")), now, ttl, limit);
  }

  /** Every accepted token, whatever its spelling of the fields, re-encodes to a token that gives the same
      payload at the same clock, if its text fits the decoder's limit; without a limit it always does. */
  lemma Canonicalises(token: string, now: U64, ttl: Option<U64>, limit: Option<nat>)
    requires Decode(token, now, ttl, limit).Ok?
    ensures var p := Decode(token, now, ttl, limit).value;
            && Encode(p).Ok?
            && (Decode(Encode(p).value, now, ttl, limit) == Ok(p) <==> Fits(p, limit))
            && Decode(Encode(p).value, now, ttl, None) == Ok(p)
  {
    hide Fields, Encode, ClockFault;
    FieldsHaveNoColon(token, limit);
    var p := Decode(token, now, ttl, limit).value;
    Encodes(p);
    RoundTrip(p, now, ttl, limit);
    RoundTrip(p, now, ttl, None);
  }

  /** The token text without a name field, which `decode` also accepts. */
  function ThreeFields(p: InvitePayload): string {
    p.address + ":" + (ToHex(p.nonce) + ":" + PrintNat(p.timestamp))
  }

  lemma ThreeParts(a: string, b: string, c: string)
    requires ':' !in a && ':' !in b && ':' !in c
    ensures SplitN(a + ":" + (b + ":" + c), 4) == [a, b, c]
  {
    hide SplitN;
    SplitFirst(a, b + ":" + c, 4);
    SplitFirst(b, c, 3);
    NoMoreFields(c);
  }

  lemma NoMoreFields(c: string)
    requires ':' !in c
    ensures SplitN(c, 2) == [c]
  {
  }

  lemma ThreeRead(p: InvitePayload, hex: string, timestamp: string)
    requires WellFormed(p) && ValidateAddress(p.address) == None
    requires FromHex(hex) == Some(p.nonce) && ParseU64(timestamp) == Some(p.timestamp)
    ensures FromParts([p.address, hex, timestamp]) == Ok(p.(name := None))
  {
  }

  /** A three-field token gives its payload exactly when its text fits the limit. */
  lemma ThreeFieldsRead(p: InvitePayload, limit: Option<nat>)
    requires WellFormed(p) && Encode(p).Ok? && ':' !in p.address
    ensures Fields(ToBase58(Utf8.Encode(ThreeFields(p))), limit)
         == if limit.Some? && |Utf8.Encode(ThreeFields(p))| > limit.value then Err(InvalidInvite(BadBase58))
            else Ok(p.(name := None))
  {
    var text := ThreeFields(p);
    assert text[|p.address|] == ':';
    TokenNotEmpty(text);
    Base58RoundTrip(Utf8.Encode(text));
    Utf8.RoundTrip(text);
    hide ToBase58, FromBase58, FromParts, ValidateAddress, ToHex, FromHex, PrintNat, ParseU64, SplitN, Utf8.Decode;
    HexRoundTrip(p.nonce);
    DecimalRoundTrip(p.timestamp);
    ThreeParts(p.address, ToHex(p.nonce), PrintNat(p.timestamp));
    ThreeRead(p, ToHex(p.nonce), PrintNat(p.timestamp));
  }

  /** Re-encoding adds the last colon. */
  lemma OneByteMore(p: InvitePayload)
    requires p.name == None
    ensures |Utf8.Encode(Joined(p))| == |Utf8.Encode(ThreeFields(p))| + 1
  {
    hide Utf8.EncodeChar;
    assert Joined(p) == ThreeFields(p) + ":";
    Utf8.EncodeAppend(ThreeFields(p), ":");
    Json.AsciiSize(":");
  }

  /** The limit is where canonicalising fails: for every payload without a name, the three-field token
      is accepted when its text just fits, and its own re-encoding is then refused. */
  lemma ThreeFieldsAtLimit(p: InvitePayload, now: U64, ttl: Option<U64>)
    requires WellFormed(p) && Encode(p).Ok? && ':' !in p.address && p.name == None
    requires ClockFault(p.timestamp, now, ttl) == None
    ensures var limit := Some(|Utf8.Encode(ThreeFields(p))|);
      && Decode(ToBase58(Utf8.Encode(ThreeFields(p))), now, ttl, limit) == Ok(p)
      && Decode(Encode(p).value, now, ttl, limit) == Err(InvalidInvite(BadBase58))
  {
    hide ThreeFields, Joined, ToBase58, Fields, ClockFault, Encode;
    var limit := Some(|Utf8.Encode(ThreeFields(p))|);
    ThreeFieldsRead(p, limit);
    OneByteMore(p);
    RoundTripErrors(p, now, ttl, limit);
  }

  lemma Encodes(p: InvitePayload)
    requires ValidateAddress(p.address) == None
    ensures Encode(p).Ok?
  {
  }

  /** Distinct invites have distinct tokens. */
  lemma TokensDistinct(p: InvitePayload, q: InvitePayload)
    requires WellFormed(p) && WellFormed(q) && Encode(p).Ok? && Encode(p) == Encode(q)
    requires ':' !in p.address && ':' !in q.address && p.name != Some("") && q.name != Some("")
    ensures p == q
  {
    EncodedFields(p, None);
    EncodedFields(q, None);
  }

  // ---- which addresses and which tokens ----

  predicate EndsInOnion(address: string) { |address| >= 6 && address[|address| - 6..] == ".onion" }

  /** What is wrong with an address: it must end in `.onion` and have at least 62 bytes. */
  function AddressFault(address: string): Option<InviteFault> {
    if !EndsInOnion(address) then Some(NoOnionSuffix)
    else if |Utf8.Encode(address)| < 62 then Some(AddressTooShort)
    else None
  }

  /** A payload encodes exactly if its address is in order, whatever else is in it. */
  lemma EncodesExactly(p: InvitePayload)
    ensures match AddressFault(p.address)
            case Some(fault) => Encode(p) == Err(InvalidInvite(fault))
            case None => Encode(p) == Ok(ToBase58(Utf8.Encode(
              p.address + ":" + ToHex(p.nonce) + ":" + PrintNat(p.timestamp) + ":" + NamePart(p.name))))
  {
    hide ToBase58, Utf8.Encode, ToHex, PrintNat;
    assert Joined(p) == p.address + ":" + ToHex(p.nonce) + ":" + PrintNat(p.timestamp) + ":" + NamePart(p.name);
  }

  /** The text in a token: Base58, within the limit, and UTF-8. */
  function TextIn(token: string, limit: Option<nat>): Option<string> {
    match FromBase58(token)
    case None => None
    case Some(bytes) => if limit.Some? && |bytes| > limit.value then None else Utf8.Decode(bytes)
  }

  /** The text spells the payload: address, nonce in hex, timestamp as a number, and perhaps a name, which
      may hold colons. */
  ghost predicate Spells(text: string, p: InvitePayload) {
    exists hex, number :: SpellsWith(text, p, hex, number)
  }

  predicate SpellsWith(text: string, p: InvitePayload, hex: string, number: string) {
    && ':' !in p.address && ':' !in hex && ':' !in number
    && FromHex(hex) == Some(p.nonce) && ParseU64(number) == Some(p.timestamp)
    && var three := p.address + ":" + (hex + ":" + number);
       if p.name == None then text == three || text == three + ":"
       else p.name.value != "" && text == three + ":" + p.name.value
  }

  /** One split undone. */
  lemma SplitOnce(s: string, n: nat)
    requires n >= 1
    ensures n == 1 || ':' !in s ==> SplitN(s, n) == [s]
    ensures n > 1 && ':' in s ==> (
      && |Before(s)| < |s| && ':' !in Before(s) && s == Before(s) + ":" + s[|Before(s)| + 1..]
      && SplitN(s, n) == [Before(s)] + SplitN(s[|Before(s)| + 1..], n - 1))
  {
    if ':' in s { assert s == s[..|Before(s)|] + [s[|Before(s)|]] + s[|Before(s)| + 1..]; }
  }

  lemma TwoBack(s: string)
    ensures var parts := SplitN(s, 2);
      && ':' !in parts[0] && (|parts| == 1 ==> s == parts[0]) && (|parts| == 2 ==> s == parts[0] + ":" + parts[1])
  {
    hide SplitN, Before;
    SplitOnce(s, 2);
    if ':' in s { SplitOnce(s[|Before(s)| + 1..], 1); }
  }

  lemma ThreeBack(s: string)
    ensures var parts := SplitN(s, 3);
      && (|parts| == 2 ==> s == parts[0] + ":" + parts[1] && ':' !in parts[1])
      && (|parts| == 3 ==> s == parts[0] + ":" + (parts[1] + ":" + parts[2]) && ':' !in parts[1])
  {
    hide SplitN, Before;
    SplitOnce(s, 3);
    if ':' in s { TwoBack(s[|Before(s)| + 1..]); }
  }

  lemma JoinedBack(s: string)
    ensures var parts := SplitN(s, 4);
      && (|parts| == 3 ==> s == parts[0] + ":" + (parts[1] + ":" + parts[2]) && ':' !in parts[2])
      && (|parts| == 4 ==> s == parts[0] + ":" + (parts[1] + ":" + (parts[2] + ":" + parts[3])) && ':' !in parts[2])
  {
    hide SplitN, Before;
    SplitOnce(s, 4);
    if ':' in s { ThreeBack(s[|Before(s)| + 1..]); }
  }

  /** Which parts make which payload. */
  lemma PartsExactly(parts: seq<string>, p: InvitePayload)
    ensures FromParts(parts) == Ok(p) <==>
      && 3 <= |parts| <= 4 && WellFormed(p) && AddressFault(p.address) == None && parts[0] == p.address
      && FromHex(parts[1]) == Some(p.nonce) && ParseU64(parts[2]) == Some(p.timestamp)
      && p.name == (if |parts| == 4 && parts[3] != "" then Some(parts[3]) else None)
  {
    hide FromHex, ParseU64, Utf8.Encode;
  }

  lemma SpelledParts(text: string, p: InvitePayload)
    requires WellFormed(p) && AddressFault(p.address) == None
    ensures FromParts(SplitN(text, 4)) == Ok(p) <==> Spells(text, p)
  {
    hide FromHex, ParseU64, AddressFault, FromParts, SplitN;
    var parts := SplitN(text, 4);
    PartsExactly(parts, p);
    JoinedBack(text);
    if FromParts(parts) == Ok(p) {
      SpelledBy(text, p, parts);
    }
    if Spells(text, p) {
      var hex, number :| SpellsWith(text, p, hex, number);
      ReadBack(text, p, hex, number);
    }
  }

  lemma SpelledBy(text: string, p: InvitePayload, parts: seq<string>)
    requires 3 <= |parts| <= 4 && parts[0] == p.address && FromHex(parts[1]) == Some(p.nonce)
    requires ParseU64(parts[2]) == Some(p.timestamp) && ':' !in parts[0] && ':' !in parts[1] && ':' !in parts[2]
    requires p.name == (if |parts| == 4 && parts[3] != "" then Some(parts[3]) else None)
    requires text == parts[0] + ":" + (parts[1] + ":" + if |parts| == 3 then parts[2] else parts[2] + ":" + parts[3])
    ensures Spells(text, p)
  {
    hide FromHex, ParseU64;
    var three := p.address + ":" + (parts[1] + ":" + parts[2]);
    if |parts| == 4 { assert text == three + ":" + parts[3]; }
    assert SpellsWith(text, p, parts[1], parts[2]);
  }

  lemma ReadBack(text: string, p: InvitePayload, hex: string, number: string)
    requires WellFormed(p) && AddressFault(p.address) == None && SpellsWith(text, p, hex, number)
    ensures FromParts(SplitN(text, 4)) == Ok(p)
  {
    hide FromHex, ParseU64, AddressFault, FromParts, SplitN;
    var three := p.address + ":" + (hex + ":" + number);
    if text == three {
      ThreeParts(p.address, hex, number);
      PartsExactly([p.address, hex, number], p);
    } else {
      var name := if p.name.Some? then p.name.value else "";
      assert text == p.address + ":" + (hex + ":" + (number + ":" + name));
      FourFields(p.address, hex, number, name);
      PartsExactly([p.address, hex, number, name], p);
    }
  }

  /** A token is accepted as a payload exactly if it is not empty, its text spells the payload, the nonce has
      sixteen bytes, the address is in order, and the clock allows it. */
  lemma AcceptsExactly(token: string, p: InvitePayload, now: U64, ttl: Option<U64>, limit: Option<nat>)
    ensures Decode(token, now, ttl, limit) == Ok(p) <==>
      && token != "" && TextIn(token, limit).Some? && Spells(TextIn(token, limit).value, p)
      && |p.nonce| == 16 && AddressFault(p.address) == None && ClockFault(p.timestamp, now, ttl) == None
  {
    hide FromBase58, Utf8.Decode, FromParts, SplitN, ClockFault, AddressFault, Spells;
    if TextIn(token, limit).Some? {
      var text := TextIn(token, limit).value;
      if WellFormed(p) && AddressFault(p.address) == None {
        SpelledParts(text, p);
      } else {
        PartsExactly(SplitN(text, 4), p);
      }
    }
  }

  /** Why a token is refused before the clock is looked at, in this order. */
  lemma RefusesInOrder(token: string, limit: Option<nat>)
    ensures token == "" ==> Fields(token, limit) == Err(InvalidInvite(EmptyToken))
    ensures token != "" && FromBase58(token) == None ==> Fields(token, limit) == Err(InvalidInvite(BadBase58))
    ensures token != "" && FromBase58(token).Some? && (limit.Some? ==> |FromBase58(token).value| <= limit.value) ==>
      match TextIn(token, limit)
      case None => Fields(token, limit) == Err(InvalidInvite(NotUtf8))
      case Some(text) =>
        var parts := SplitN(text, 4);
        if |parts| < 3 then Fields(token, limit) == Err(InvalidInvite(FieldCount))
        else if AddressFault(parts[0]).Some? then
          Fields(token, limit) == Err(InvalidInvite(AddressFault(parts[0]).value))
        else if FromHex(parts[1]) == None then Fields(token, limit) == Err(InvalidInvite(BadNonceHex))
        else if |FromHex(parts[1]).value| != 16 then Fields(token, limit) == Err(InvalidInvite(BadNonceLength))
        else if ParseU64(parts[2]) == None then Fields(token, limit) == Err(InvalidInvite(BadTimestamp))
        else Fields(token, limit).Ok?
  {
    hide FromBase58, Utf8.Decode, SplitN, FromHex, ParseU64, Utf8.Encode;
  }

  /** A token with any other address is refused at every clock, time to live and limit, for the reason the
      address has. */
  lemma OtherAddressRefused(token: string, now: U64, ttl: Option<U64>, limit: Option<nat>)
    requires token != "" && TextIn(token, limit).Some? && |SplitN(TextIn(token, limit).value, 4)| >= 3
    requires AddressFault(SplitN(TextIn(token, limit).value, 4)[0]).Some?
    ensures Decode(token, now, ttl, limit)
         == Err(InvalidInvite(AddressFault(SplitN(TextIn(token, limit).value, 4)[0]).value))
  {
    hide FromBase58, Utf8.Decode, SplitN, AddressFault, Fields;
    RefusesInOrder(token, limit);
  }
}
