/** `wire.rs`: length-prefixed frames, and the frames a byte stream holds. */
module Wire {
  import opened Basics
  import opened Json
  import Utf8

  const MAX_PAYLOAD_BYTES := 16 * 1024

  function BigEndian32(n: nat): (bs: Bytes)
    requires n < 0x1_0000_0000
    ensures |bs| == 4
  {
    [n / 0x100_0000, n / 0x1_0000 % 0x100, n / 0x100 % 0x100, n % 0x100]
  }

  function FromBigEndian32(bs: Bytes): (n: nat)
    requires |bs| == 4
  {
    ((bs[0] as int * 0x100 + bs[1]) * 0x100 + bs[2]) * 0x100 + bs[3]
  }

  function Payload(m: WireMessage): Bytes { Utf8.Encode(Print(m)) }

  function EncodeMessage(m: WireMessage): Result<Bytes, ChatError> {
    var payload := Payload(m);
    if |payload| > MAX_PAYLOAD_BYTES then Err(OversizedMessage(|payload|, MAX_PAYLOAD_BYTES))
    else Ok(BigEndian32(|payload|) + payload)
  }

  function DecodeMessage(data: Bytes): Result<WireMessage, ChatError> {
    if |data| < 4 then Err(WireFault(ShortHeader))
    else
      var n := FromBigEndian32(data[..4]);
      if n == 0 then Err(WireFault(ZeroLength))
      else if n > MAX_PAYLOAD_BYTES then Err(OversizedMessage(n, MAX_PAYLOAD_BYTES))
      else if |data| < 4 + n then Err(WireFault(Truncated))
      else match Utf8.Decode(data[4..4 + n])
        case None => Err(WireFault(JsonDecode))
        case Some(text) =>
          match Parse(text)
          case None => Err(WireFault(JsonDecode))
          case Some(m) => Ok(m)
  }

  /** What one `read_frame` makes of a stream whose remaining bytes, up to its end, are `bs`. */
  datatype Taken = Taken(result: Result<Bytes, ChatError>, rest: Bytes)

  function TakeFrame(bs: Bytes): (t: Taken)
    ensures t.result.Ok? ==> bs == t.result.value + t.rest && |t.result.value| > 4
  {
    if |bs| < 4 then Taken(Err(WireFault(HeaderRead)), [])
    else
      var n := FromBigEndian32(bs[..4]);
      if n == 0 then Taken(Err(WireFault(ZeroLength)), bs[4..])
      else if n > MAX_PAYLOAD_BYTES then Taken(Err(OversizedMessage(n, MAX_PAYLOAD_BYTES)), bs[4..])
      else if |bs| < 4 + n then Taken(Err(WireFault(PayloadRead)), [])
      else if Utf8.Decode(bs[4..4 + n]).None? then Taken(Err(WireFault(PayloadNotUtf8)), bs[4 + n..])
      else Taken(Ok(bs[..4 + n]), bs[4 + n..])
  }

  /** The frames that repeated `read_frame` calls return, and the error that ends them. */
  datatype Reading = Reading(frames: seq<Bytes>, stop: ChatError)

  function TakeAll(bs: Bytes): Reading
    decreases |bs|
  {
    var t := TakeFrame(bs);
    match t.result
    case Err(e) => Reading([], e)
    case Ok(frame) =>
      var more := TakeAll(t.rest);
      Reading([frame] + more.frames, more.stop)
  }

  /** A byte sequence that `read_frame` returns whole. */
  predicate IsFrame(f: Bytes) { TakeFrame(f) == Taken(Ok(f), []) }

  // ---- one message ----

  lemma BigEndianRoundTrip(n: nat)
    requires n < 0x1_0000_0000
    ensures FromBigEndian32(BigEndian32(n)) == n
  {
    assert n / 0x1_0000 == n / 0x100_0000 * 0x100 + n / 0x1_0000 % 0x100;
    assert n / 0x100 == n / 0x1_0000 * 0x100 + n / 0x100 % 0x100;
  }

  lemma PayloadReads(m: WireMessage)
    ensures Utf8.Decode(Payload(m)) == Some(Print(m)) && Parse(Print(m)) == Some(m)
    ensures 0 < |Payload(m)|
  {
    Utf8.RoundTrip(Print(m));
    Json.RoundTrip(m);
    PrintedSize(m);
  }

  /** Whatever encodes decodes to exactly what was encoded. */
  lemma MessageRoundTrip(m: WireMessage)
    requires EncodeMessage(m).Ok?
    ensures DecodeMessage(EncodeMessage(m).value) == Ok(m)
  {
    hide Payload, Parse, Print, Utf8.Decode;
    var payload := Payload(m);
    var data := EncodeMessage(m).value;
    PayloadReads(m);
    BigEndianRoundTrip(|payload|);
    assert data[..4] == BigEndian32(|payload|) && data[4..4 + |payload|] == payload;
  }

  /** `decode_message` of a frame that `read_frame` returned can fail only in parsing the JSON, and it
      accepts what encodes: the two length checks can never fire behind `read_frame`. */
  lemma FramesFailOnlyInJson(bs: Bytes)
    requires TakeFrame(bs).result.Ok?
    ensures DecodeMessage(TakeFrame(bs).result.value).Err?
        ==> DecodeMessage(TakeFrame(bs).result.value) == Err(WireFault(JsonDecode))
  {
    var n := FromBigEndian32(bs[..4]);
    var f := TakeFrame(bs).result.value;
    assert f[..4] == bs[..4] && f[4..4 + n] == bs[4..4 + n];
  }

  // ---- many frames ----

  lemma FrameReads(f: Bytes, rest: Bytes)
    requires IsFrame(f)
    ensures TakeFrame(f + rest) == Taken(Ok(f), rest)
  {
    var bs := f + rest;
    assert bs[..4] == f[..4];
    var n := FromBigEndian32(f[..4]);
    assert |f| == 4 + n;
    assert bs[4..4 + n] == f[4..4 + n] && bs[..4 + n] == f && bs[4 + n..] == rest;
  }

  lemma TakenIsFrame(bs: Bytes)
    requires TakeFrame(bs).result.Ok?
    ensures IsFrame(TakeFrame(bs).result.value)
  {
    var n := FromBigEndian32(bs[..4]);
    var f := TakeFrame(bs).result.value;
    assert f[..4] == bs[..4] && f[4..4 + n] == bs[4..4 + n] && f[..4 + n] == f;
  }

  lemma EncodingIsFrame(m: WireMessage)
    requires EncodeMessage(m).Ok?
    ensures IsFrame(EncodeMessage(m).value)
  {
    var payload := Payload(m);
    var f := EncodeMessage(m).value;
    PayloadReads(m);
    BigEndianRoundTrip(|payload|);
    assert f[..4] == BigEndian32(|payload|) && f[4..4 + |payload|] == payload && f[..4 + |payload|] == f;
  }

  predicate AllFrames(fs: seq<Bytes>) { forall i :: 0 <= i < |fs| ==> IsFrame(fs[i]) }

  lemma OneFrameThenRest(f: Bytes, rest: Bytes)
    requires IsFrame(f)
    ensures TakeAll(f + rest) == Reading([f] + TakeAll(rest).frames, TakeAll(rest).stop)
  {
    FrameReads(f, rest);
  }

  /** Reading on from whole frames returns those frames, then whatever the rest gives. */
  lemma {:induction false} FramesThenRest(fs: seq<Bytes>, rest: Bytes)
    requires AllFrames(fs)
    ensures TakeAll(Concat(fs) + rest) == Reading(fs + TakeAll(rest).frames, TakeAll(rest).stop)
  {
    hide IsFrame, TakeAll;
    if fs == [] {
      assert Concat(fs) + rest == rest;
      assert fs + TakeAll(rest).frames == TakeAll(rest).frames;
    } else {
      var tail := Concat(fs[1..]) + rest;
      assert Concat(fs) + rest == fs[0] + tail;
      OneFrameThenRest(fs[0], tail);
      FramesThenRest(fs[1..], rest);
      assert fs + TakeAll(rest).frames == [fs[0]] + (fs[1..] + TakeAll(rest).frames);
    }
  }

  /** The bytes of a stream of frames determine the frames. */
  lemma UniquelyDecodable(fs: seq<Bytes>, gs: seq<Bytes>)
    requires AllFrames(fs) && AllFrames(gs) && Concat(fs) == Concat(gs)
    ensures fs == gs
  {
    FramesThenRest(fs, []);
    FramesThenRest(gs, []);
    assert Concat(fs) + [] == Concat(fs) && Concat(gs) + [] == Concat(gs);
    assert fs + [] == fs && gs + [] == gs;
  }

  /** A proper prefix of a frame ends in a short read, never in a frame. */
  lemma CutFrame(f: Bytes, k: nat)
    requires IsFrame(f) && k < |f|
    ensures TakeFrame(f[..k]) == Taken(Err(WireFault(if k < 4 then HeaderRead else PayloadRead)), [])
  {
    if k >= 4 {
      assert f[..k][..4] == f[..4];
    }
  }

  lemma CutFrames(f: Bytes, k: nat)
    requires IsFrame(f) && k < |f|
    ensures TakeAll(f[..k]).frames == []
    ensures TakeAll(f[..k]).stop in {WireFault(HeaderRead), WireFault(PayloadRead)}
  {
    CutFrame(f, k);
  }

  lemma NothingLeft()
    ensures TakeAll([]) == Reading([], WireFault(HeaderRead))
  {
  }

  /** The number of frames that lie wholly within the first `k` bytes. */
  function WholeFrames(fs: seq<Bytes>, k: nat): (j: nat)
    ensures j <= |fs|
    ensures |Concat(fs[..j])| <= k
    ensures j < |fs| ==> k < |Concat(fs[..j + 1])|
  {
    if fs == [] then 0
    else if |fs[0]| > k then
      assert fs[..1][1..] == [];
      0
    else
      var j := WholeFrames(fs[1..], k - |fs[0]|);
      assert fs[..j + 1][1..] == fs[1..][..j];
      assert j + 1 < |fs| ==> fs[..j + 2][1..] == fs[1..][..j + 1];
      j + 1
  }

  /** Cutting a stream of frames at any byte gives the complete frames before the cut and then a
      short read: never an altered or an extra frame. */
  lemma {:induction false} CutStream(fs: seq<Bytes>, k: nat)
    requires AllFrames(fs) && k <= |Concat(fs)|
    ensures TakeAll(Concat(fs)[..k]).frames == fs[..WholeFrames(fs, k)]
    ensures TakeAll(Concat(fs)[..k]).stop in {WireFault(HeaderRead), WireFault(PayloadRead)}
  {
    hide IsFrame, TakeAll;
    if fs == [] {
      NothingLeft();
    } else if |fs[0]| > k {
      assert Concat(fs)[..k] == fs[0][..k];
      CutFrames(fs[0], k);
    } else {
      var rest := Concat(fs[1..])[..k - |fs[0]|];
      assert Concat(fs)[..k] == fs[0] + rest;
      OneFrameThenRest(fs[0], rest);
      CutStream(fs[1..], k - |fs[0]|);
      var j := WholeFrames(fs[1..], k - |fs[0]|);
      assert fs[..j + 1] == [fs[0]] + fs[1..][..j];
    }
  }

  /** Reading fewer bytes of a stream gives fewer of its frames, never others. */
  lemma {:induction false} ReadsPrefix(bs: Bytes, all: Bytes)
    requires bs <= all
    ensures TakeAll(bs).frames <= TakeAll(all).frames
    decreases |bs|
  {
    hide TakeFrame, IsFrame;
    var t := TakeFrame(bs);
    if t.result.Ok? {
      TakenIsFrame(bs);
      var f := t.result.value;
      assert bs == f + t.rest && all == f + all[|f|..];
      FrameReads(f, all[|f|..]);
      assert t.rest <= all[|f|..];
      ReadsPrefix(t.rest, all[|f|..]);
    }
  }

  // ---- streams of messages ----

  predicate AllEncode(ms: seq<WireMessage>) { forall i :: 0 <= i < |ms| ==> EncodeMessage(ms[i]).Ok? }

  /** The frames of the messages, in order. */
  function Frames(ms: seq<WireMessage>): (fs: seq<Bytes>)
    requires AllEncode(ms)
    ensures |fs| == |ms| && forall i :: 0 <= i < |ms| ==> fs[i] == EncodeMessage(ms[i]).value
  {
    seq(|ms|, i requires 0 <= i < |ms| => EncodeMessage(ms[i]).value)
  }

  /** A stream of encoded messages cut at any byte yields, after decoding, exactly the messages that
      were complete before the cut. */
  lemma CutMessages(ms: seq<WireMessage>, k: nat)
    requires AllEncode(ms) && k <= |Concat(Frames(ms))|
    ensures var j, got := WholeFrames(Frames(ms), k), TakeAll(Concat(Frames(ms))[..k]).frames;
            |got| == j && forall i :: 0 <= i < j ==> DecodeMessage(got[i]) == Ok(ms[i])
  {
    forall i | 0 <= i < |ms| ensures IsFrame(Frames(ms)[i]) && DecodeMessage(Frames(ms)[i]) == Ok(ms[i]) {
      EncodingIsFrame(ms[i]);
      MessageRoundTrip(ms[i]);
    }
    CutStream(Frames(ms), k);
  }

  // ---- size ----

  /** Six bytes for each byte of name and text leave room for the braces and tags; a chat whose name
      and text exceed 16349 bytes never fits; and no accepted payload is empty or cut by its header. */
  lemma SizeBounds(m: WireMessage)
    ensures 6 * (|Utf8.Encode(m.name)| + |Utf8.Encode(m.text)|) + 37 <= 16384 ==> EncodeMessage(m).Ok?
    ensures m.kind == Chat && |Utf8.Encode(m.name)| + |Utf8.Encode(m.text)| > 16349
        ==> EncodeMessage(m) == Err(OversizedMessage(|Payload(m)|, 16384))
    ensures EncodeMessage(m).Ok? ==> (
      && |EncodeMessage(m).value| > 4
      && FromBigEndian32(EncodeMessage(m).value[..4]) == |EncodeMessage(m).value| - 4)
  {
    PrintedSize(m);
    EscapedSize(m.name);
    EscapedSize(m.text);
    if EncodeMessage(m).Ok? {
      BigEndianRoundTrip(|Payload(m)|);
      assert EncodeMessage(m).value[..4] == BigEndian32(|Payload(m)|);
    }
  }

  /** The length of the type's name. */
  function TagLength(kind: Kind): nat { if kind == System then 6 else 4 }

  /** A message encodes exactly if the 31 characters around its parts, the type's name and the escaped name
      and text come to at most 16384 bytes; and then it is that many bytes behind a big-endian length. */
  lemma EncodesExactly(m: WireMessage)
    ensures var n := 31 + TagLength(m.kind) + |Utf8.Encode(Escape(m.name))| + |Utf8.Encode(Escape(m.text))|;
      if n <= 16384 then EncodeMessage(m) == Ok([0, 0, n / 256, n % 256] + Utf8.Encode(Print(m)))
      else EncodeMessage(m) == Err(OversizedMessage(n, 16384))
  {
    hide Print, Utf8.Encode, Escape;
    PrintedSize(m);
    TagIsLong(m.kind);
  }

  lemma TagIsLong(kind: Kind)
    ensures |Tag(kind)| == TagLength(kind)
  {
  }

  /** The number in a header. */
  function HeaderValue(bs: Bytes): nat
    requires |bs| >= 4
  {
    bs[0] as int * 16777216 + bs[1] as int * 65536 + bs[2] as int * 256 + bs[3] as int
  }

  /** What `read_frame` takes and what it refuses: a header of 1 to 16384 and as many bytes of UTF-8. */
  lemma TakesExactly(bs: Bytes)
    ensures TakeFrame(bs).result.Ok? <==>
      && |bs| >= 4 && 1 <= HeaderValue(bs) <= 16384 && |bs| >= 4 + HeaderValue(bs)
      && Utf8.Decode(bs[4..4 + HeaderValue(bs)]).Some?
    ensures TakeFrame(bs).result.Ok? ==> TakeFrame(bs).result.value == bs[..4 + HeaderValue(bs)]
    ensures |bs| < 4 ==> TakeFrame(bs).result == Err(WireFault(HeaderRead))
    ensures |bs| >= 4 && HeaderValue(bs) == 0 ==> TakeFrame(bs).result == Err(WireFault(ZeroLength))
    ensures |bs| >= 4 && HeaderValue(bs) > 16384
        ==> TakeFrame(bs).result == Err(OversizedMessage(HeaderValue(bs), 16384))
    ensures |bs| >= 4 && 1 <= HeaderValue(bs) <= 16384 && |bs| < 4 + HeaderValue(bs)
        ==> TakeFrame(bs).result == Err(WireFault(PayloadRead))
    ensures |bs| >= 4 && 1 <= HeaderValue(bs) <= 16384 && |bs| >= 4 + HeaderValue(bs) ==>
      (Utf8.Decode(bs[4..4 + HeaderValue(bs)]).None? ==> TakeFrame(bs).result == Err(WireFault(PayloadNotUtf8)))
    ensures TakeFrame(bs).rest
         == if |bs| < 4 then [] else if !(1 <= HeaderValue(bs) <= 16384) then bs[4..]
            else if |bs| < 4 + HeaderValue(bs) then [] else bs[4 + HeaderValue(bs)..]
  {
    hide Utf8.Decode;
  }

  /** The limit from both sides. */
  lemma LimitTaken(payload: Bytes, rest: Bytes)
    requires |payload| == 16384 && Utf8.Decode(payload).Some?
    ensures TakeFrame([0, 0, 0x40, 0] + payload + rest) == Taken(Ok([0, 0, 0x40, 0] + payload), rest)
    ensures TakeFrame([0, 0, 0x40, 1] + payload + rest).result == Err(OversizedMessage(16385, 16384))
  {
    hide Utf8.Decode;
    var bs := [0, 0, 0x40, 0] + payload + rest;
    assert bs[4..4 + 16384] == payload && bs[..4 + 16384] == [0, 0, 0x40, 0] + payload && bs[4 + 16384..] == rest;
  }

  /** What `decode_message` refuses and why; bytes behind the announced payload are no matter. */
  lemma DecodesExactly(data: Bytes)
    ensures |data| < 4 ==> DecodeMessage(data) == Err(WireFault(ShortHeader))
    ensures |data| >= 4 && HeaderValue(data) == 0 ==> DecodeMessage(data) == Err(WireFault(ZeroLength))
    ensures |data| >= 4 && HeaderValue(data) > 16384
        ==> DecodeMessage(data) == Err(OversizedMessage(HeaderValue(data), 16384))
    ensures |data| >= 4 && 1 <= HeaderValue(data) <= 16384 && |data| < 4 + HeaderValue(data)
        ==> DecodeMessage(data) == Err(WireFault(Truncated))
    ensures |data| >= 4 && 1 <= HeaderValue(data) <= 16384 && |data| >= 4 + HeaderValue(data) ==>
      (DecodeMessage(data).Err? ==> DecodeMessage(data) == Err(WireFault(JsonDecode)))
      && (forall m :: DecodeMessage(data) == Ok(m) <==>
            Utf8.Decode(data[4..4 + HeaderValue(data)]).Some?
            && Parse(Utf8.Decode(data[4..4 + HeaderValue(data)]).value) == Some(m))
  {
    hide Utf8.Decode, Parse;
  }
}
